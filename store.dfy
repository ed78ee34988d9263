/** The bot's per-user conversation store (bot.py, load_conversation and
    save_conversation): one JSON file per user id, read whole and rewritten whole.
    The directory of files is modelled as a map from user id to conversation. */
module Store {
  import opened Chat

  /** What loading `userId` from the files `table` gives: the saved conversation,
      or the empty one when nothing was saved under that id. */
  function Stored(table: map<string, seq<Message>>, userId: string): seq<Message>
  {
    if userId in table then table[userId] else []
  }

  class ConversationStore {
    /** The saved conversations, by user id (the file name without ".json"). */
    var files: map<string, seq<Message>>

    /** The first-run store: a data directory with no files yet. Every operation
        below is specified for any store, not only this one. */
    constructor ()
      ensures files == map[]
    {
      files := map[];
    }

    /** load_conversation: the saved conversation, or [] for an id never saved. */
    method Load(userId: string) returns (conversation: seq<Message>)
      ensures userId in files ==> conversation == files[userId]
      ensures userId !in files ==> conversation == []
    {
      if userId in files {
        conversation := files[userId];
      } else {
        conversation := [];
      }
    }

    /** save_conversation: overwrites the whole conversation of `userId`. */
    method Save(userId: string, conversation: seq<Message>)
      modifies this
      ensures files == old(files)[userId := conversation]
    {
      files := files[userId := conversation];
    }
  }

  /** An id that was never saved loads as the empty conversation. */
  lemma NeverSavedLoadsEmpty(table: map<string, seq<Message>>, userId: string)
    requires userId !in table
    ensures Stored(table, userId) == []
  {
  }

  /** Saving then loading the same id gives back what was saved, and a save
      changes what no other id loads. */
  lemma SaveThenLoad(table: map<string, seq<Message>>, userId: string, c: seq<Message>, other: string)
    ensures Stored(table[userId := c], userId) == c
    ensures other != userId ==> Stored(table[userId := c], other) == Stored(table, other)
  {
  }
}
