/** The bot's context window: the last `limit` records of a conversation rendered
    as one block of "User: ..." / "Assistant: ..." lines (bot.py, get_history_text). */
module History {
  import opened Chat
  import opened Text

  /** The default window of get_history_text, the only one the bot uses. */
  const DefaultLimit: int := 20

  /** Python's normalisation of a slice start index `start` on a list of length
      `n`: a negative index counts from the end, and both kinds are clamped to the
      list. */
  function SliceStart(start: int, n: nat): (r: nat)
    ensures r <= n
    ensures start >= 0 ==> r == if start <= n then start else n
    ensures start < 0 ==> r == if -start <= n then n + start else 0
  {
    if start < 0 then (if start + n < 0 then 0 else start + n)
    else if start > n then n
    else start
  }

  /** `conversation[-limit:]`, literally, including what Python does when `limit`
      is not positive. */
  function Recent(conversation: seq<Message>, limit: int): seq<Message>
  {
    conversation[SliceStart(-limit, |conversation|)..]
  }

  /** The speaker label of a role: only "assistant" is the assistant. */
  function Label(role: string): string
  {
    if role == "assistant" then "Assistant" else "User"
  }

  function RenderLine(m: Message): string
  {
    Label(m.role) + ": " + m.content
  }

  /** The rendered lines of `ms`, one per record, in order. */
  function RenderLines(ms: seq<Message>): (lines: seq<string>)
    ensures |lines| == |ms|
  {
    if ms == [] then [] else RenderLines(ms[..|ms| - 1]) + [RenderLine(ms[|ms| - 1])]
  }

  /** Line k of the rendering is the rendering of record k. */
  lemma {:induction false} RenderLinesAt(ms: seq<Message>, k: nat)
    requires k < |ms|
    ensures RenderLines(ms)[k] == RenderLine(ms[k])
  {
    if k < |ms| - 1 {
      RenderLinesAt(ms[..|ms| - 1], k);
    }
  }

  /** What get_history_text returns. */
  function HistoryText(conversation: seq<Message>, limit: int): string
  {
    JoinLines(RenderLines(Recent(conversation, limit)))
  }

  /** get_history_text: collects the rendered lines of the window in a loop and
      joins them with newlines. */
  method GetHistoryText(conversation: seq<Message>, limit: int) returns (text: string)
    ensures text == HistoryText(conversation, limit)
  {
    var recent := conversation[SliceStart(-limit, |conversation|)..];
    var lines: seq<string> := [];
    for i := 0 to |recent|
      invariant lines == RenderLines(recent[..i])
    {
      var m := recent[i];
      var role := if m.role == "assistant" then "Assistant" else "User";
      assert recent[..i + 1][..i] == recent[..i];
      lines := lines + [role + ": " + m.content];
    }
    assert recent[..|recent|] == recent;
    text := JoinLines(lines);
  }

  /** A positive window holds exactly min(length, limit) records: the last ones,
      in their original order. */
  lemma RecentIsLastMessages(conversation: seq<Message>, limit: int)
    requires limit > 0
    ensures var n := if |conversation| < limit then |conversation| else limit;
            Recent(conversation, limit) == conversation[|conversation| - n..]
            && |Recent(conversation, limit)| == n
  {
  }

  /** A conversation no longer than the window is rendered in full. */
  lemma ShortConversationInFull(conversation: seq<Message>, limit: int)
    requires |conversation| <= limit
    ensures Recent(conversation, limit) == conversation
  {
  }

  /** The slice quirk: a window of 0 is the whole conversation, and a negative one
      drops the first -limit records instead of keeping the last ones. */
  lemma NonPositiveLimit(conversation: seq<Message>, limit: int)
    requires limit <= 0
    ensures Recent(conversation, limit) ==
            conversation[if -limit <= |conversation| then -limit else |conversation|..]
  {
  }

  /** An empty conversation renders to the empty string. */
  lemma EmptyHistory(limit: int)
    ensures HistoryText([], limit) == ""
  {
  }

  /** A record reads "Assistant: "+content exactly when its role is "assistant",
      and "User: "+content exactly when it is any other role. */
  lemma RenderLineByRole(m: Message)
    ensures RenderLine(m) == "Assistant: " + m.content <==> m.role == "assistant"
    ensures RenderLine(m) == "User: " + m.content <==> m.role != "assistant"
  {
    if m.role == "assistant" {
      assert RenderLine(m)[0] == 'A';
      assert ("User: " + m.content)[0] == 'U';
    } else {
      assert RenderLine(m)[0] == 'U';
      assert ("Assistant: " + m.content)[0] == 'A';
    }
  }

  /** One rendered line read back: its label and its content. */
  function ParseLine(line: string): Option<(string, string)>
  {
    if |line| >= 11 && line[..11] == "Assistant: " then Some(("Assistant", line[11..]))
    else if |line| >= 6 && line[..6] == "User: " then Some(("User", line[6..]))
    else None
  }

  /** Reading a rendered line back recovers the speaker and the content. */
  lemma ParseRenderLine(m: Message)
    ensures ParseLine(RenderLine(m)) == Some((Label(m.role), m.content))
  {
    var line := RenderLine(m);
    if m.role == "assistant" {
      assert line[..11] == "Assistant: ";
      assert line[11..] == m.content;
    } else {
      assert line[0] == 'U';
      assert line[..6] == "User: ";
      assert line[6..] == m.content;
    }
  }

  /** When no content in the window holds a newline, the rendered block splits
      into exactly min(length, limit) lines, and each line reads back as the
      speaker and content of the matching record among the last ones, in order. */
  lemma HistoryLinesReadBack(conversation: seq<Message>, limit: int)
    requires limit > 0 && conversation != []
    requires var n := if |conversation| < limit then |conversation| else limit;
             forall i :: |conversation| - n <= i < |conversation| ==> NoNewline(conversation[i].content)
    ensures var n := if |conversation| < limit then |conversation| else limit;
            var lines := SplitLines(HistoryText(conversation, limit));
            |lines| == n &&
            forall j :: 0 <= j < n ==>
              ParseLine(lines[j]) == Some((Label(conversation[|conversation| - n + j].role),
                                           conversation[|conversation| - n + j].content))
  {
    var n := if |conversation| < limit then |conversation| else limit;
    var recent := Recent(conversation, limit);
    RecentIsLastMessages(conversation, limit);
    var lines := RenderLines(recent);
    forall i | 0 <= i < |lines| ensures NoNewline(lines[i]) {
      RenderLinesAt(recent, i);
      var m := recent[i];
      assert m == conversation[|conversation| - n + i];
      assert lines[i] == Label(m.role) + ": " + m.content;
      assert NoNewline(Label(m.role) + ": ");
    }
    SplitJoinLines(lines);
    forall j | 0 <= j < n
      ensures ParseLine(lines[j]) == Some((Label(conversation[|conversation| - n + j].role),
                                           conversation[|conversation| - n + j].content))
    {
      RenderLinesAt(recent, j);
      ParseRenderLine(recent[j]);
    }
  }

  /** The block for a conversation that ends with `m` ends with m's line, after a
      newline whenever the window holds anything before it. */
  lemma HistoryEndsWithLast(conversation: seq<Message>, m: Message, limit: int)
    requires limit > 0
    ensures var text := HistoryText(conversation + [m], limit);
            var line := RenderLine(m);
            |text| >= |line| && text[|text| - |line|..] == line
    ensures limit > 1 && conversation != [] ==>
            var text := HistoryText(conversation + [m], limit);
            var line := "\n" + RenderLine(m);
            |text| >= |line| && text[|text| - |line|..] == line
  {
    var all := conversation + [m];
    var recent := Recent(all, limit);
    assert recent != [] && recent[|recent| - 1] == m;
    var init := recent[..|recent| - 1];
    assert recent == init + [m];
    assert RenderLines(recent) == RenderLines(init) + [RenderLine(m)];
    JoinLinesSnoc(RenderLines(init), RenderLine(m));
    if limit > 1 && conversation != [] {
      assert |recent| >= 2;
      assert RenderLines(init) != [];
    }
  }

  /** The two-record example: a window of 20 over a short conversation. */
  lemma TwoRecordExample(t1: Option<string>, t2: Option<string>)
    ensures HistoryText([Message("user", "hi", t1), Message("assistant", "hello", t2)], DefaultLimit)
            == "User: hi\nAssistant: hello"
  {
    var c := [Message("user", "hi", t1), Message("assistant", "hello", t2)];
    assert Recent(c, DefaultLimit) == c;
    assert "user" != "assistant" by { assert "user"[0] != "assistant"[0]; }
    assert RenderLine(c[0]) == "User: hi";
    assert RenderLine(c[1]) == "Assistant: hello";
    assert RenderLines(c) == ["User: hi", "Assistant: hello"];
    assert JoinLines(["User: hi", "Assistant: hello"]) == "User: hi" + "\n" + "Assistant: hello";
  }
}
