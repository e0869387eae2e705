/** The conversation an agent run sends to the model: every tool call must be answered.

    In the OpenAI-compatible encoding a message list is well paired when each assistant message with k
    tool calls is followed at once by exactly its k results, in order, and no result stands anywhere
    else.  In the Anthropic encoding results are blocks of user messages, and the run of messages with
    results behind an assistant message must carry exactly the results of its calls.  `Replay` builds the
    list from stored history, the class grows and compacts it, and `RunAgent` drives it. */
module Conversation {
  import opened WhiteSpace

  type Id = string

  datatype Call = Call(id: Id, name: string)

  datatype Format = OpenAi | Anthropic

  datatype ToolResult = ToolResult(id: Id, text: string)

  /** A message.  `Tool` is a result in the OpenAI-compatible encoding; `Blocks` is a message of role `user`
      in the Anthropic encoding: results of calls, and then texts. */
  datatype Msg =
    | System(text: string)
    | User(text: string)
    | Assistant(text: string, calls: seq<Call>)
    | Tool(id: Id, text: string)
    | Blocks(results: seq<ToolResult>, texts: seq<string>)

  // ----- pairing -----

  /** The list starts with the results of these calls, in order. */
  predicate Answers(calls: seq<Call>, ms: seq<Msg>) {
    && |calls| <= |ms|
    && forall k :: 0 <= k < |calls| ==> ms[k].Tool? && ms[k].id == calls[k].id
  }

  predicate Paired(ms: seq<Msg>)
    decreases |ms|
  {
    ms == [] ||
    match ms[0]
    case Tool(_, _) => false
    case Assistant(_, calls) => Answers(calls, ms[1..]) && Paired(ms[1 + |calls|..])
    case _ => Paired(ms[1..])
  }

  lemma PairedCons(m: Msg, rest: seq<Msg>)
    requires !m.Tool?
    requires m.Assistant? ==> Answers(m.calls, rest) && Paired(rest[|m.calls|..])
    requires !m.Assistant? ==> Paired(rest)
    ensures Paired([m] + rest)
  {
    var ms := [m] + rest;
    assert ms[0] == m && ms[1..] == rest;
    if m.Assistant? {
      assert ms[1 + |m.calls|..] == rest[|m.calls|..];
    }
  }

  lemma AnswersMore(calls: seq<Call>, a: seq<Msg>, b: seq<Msg>)
    requires Answers(calls, a)
    ensures Answers(calls, a + b) && (a + b)[|calls|..] == a[|calls|..] + b
  {
  }

  lemma PairedHead(ms: seq<Msg>)
    requires Paired(ms) && ms != []
    ensures !ms[0].Tool? && (!ms[0].Assistant? ==> Paired(ms[1..]))
    ensures ms[0].Assistant? ==> Answers(ms[0].calls, ms[1..]) && Paired(ms[1..][|ms[0].calls|..])
  {
    if ms[0].Assistant? {
      assert ms[1..][|ms[0].calls|..] == ms[1 + |ms[0].calls|..];
    }
  }

  lemma ConsConcat<T>(a: seq<T>, b: seq<T>)
    requires a != []
    ensures a + b == [a[0]] + (a[1..] + b)
  {
  }

  lemma {:induction false} PairedConcat(a: seq<Msg>, b: seq<Msg>)
    requires Paired(a) && Paired(b)
    ensures Paired(a + b)
    decreases |a|
  {
    hide Paired, Answers;
    if a == [] {
      assert a + b == b;
    } else {
      PairedHead(a);
      var rest := a[1..];
      if a[0].Assistant? {
        AnswersMore(a[0].calls, rest, b);
        PairedConcat(rest[|a[0].calls|..], b);
      } else {
        PairedConcat(rest, b);
      }
      PairedCons(a[0], rest + b);
      ConsConcat(a, b);
    }
  }

  /** A tail that does not start with a result is well paired. */
  lemma {:induction false} PairedTail(ms: seq<Msg>, n: nat)
    requires Paired(ms) && n <= |ms|
    requires n < |ms| ==> !ms[n].Tool?
    ensures Paired(ms[n..])
    decreases |ms|
  {
    if n == 0 {
      assert ms[0..] == ms;
    } else {
      var k := if ms[0].Assistant? then 1 + |ms[0].calls| else 1;
      assert forall j :: 0 <= j < k - 1 ==> ms[1..][j] == ms[j + 1];
      assert ms[k..][n - k..] == ms[n..];
      PairedTail(ms[k..], n - k);
    }
  }

  /** Pairing seen from any one assistant message: its results stand right behind it, and what comes
      after them is no result. */
  lemma {:induction false} PairedAt(ms: seq<Msg>, i: nat)
    requires Paired(ms) && i < |ms| && ms[i].Assistant?
    ensures Answers(ms[i].calls, ms[i + 1..])
    ensures i + 1 + |ms[i].calls| < |ms| ==> !ms[i + 1 + |ms[i].calls|].Tool?
  {
    PairedTail(ms, i);
    var tail := ms[i..];
    assert tail[0] == ms[i] && tail[1..] == ms[i + 1..];
    var rest := tail[1 + |ms[i].calls|..];
    assert Paired(rest);
    assert rest != [] ==> rest[0] == ms[i + 1 + |ms[i].calls|];
  }

  /** And from any one result: it belongs to the call at its own place in the assistant message before it. */
  lemma {:induction false} ResultHasCall(ms: seq<Msg>, j: nat) returns (i: nat)
    requires Paired(ms) && j < |ms| && ms[j].Tool?
    ensures i < j && ms[i].Assistant? && j - i - 1 < |ms[i].calls| && ms[i].calls[j - i - 1].id == ms[j].id
    decreases |ms|
  {
    var k := if ms[0].Assistant? then 1 + |ms[0].calls| else 1;
    if j < k {
      i := 0;
      assert ms[1..][j - 1] == ms[j];
    } else {
      var m := ResultHasCall(ms[k..], j - k);
      i := k + m;
    }
  }

  // ----- replaying stored history -----

  datatype Role = UserRole | AssistantRole | OtherRole

  datatype Record = Record(id: Id, name: string, arguments: string)

  datatype Stored = Stored(role: Role, content: string, records: seq<Record>)

  /** Only calls whose arguments were kept can be replayed. */
  predicate Replayable(r: Record) {
    !Blank(r.arguments)
  }

  function ReplayableCalls(records: seq<Record>): seq<Call> {
    if records == [] then []
    else ReplayableCalls(records[..|records| - 1])
         + if Replayable(records[|records| - 1]) then [Call(records[|records| - 1].id, records[|records| - 1].name)] else []
  }

  function ReplayedResults(records: seq<Record>, render: Record -> string): seq<Msg> {
    if records == [] then []
    else
      var last := records[|records| - 1];
      ReplayedResults(records[..|records| - 1], render) + if Replayable(last) then [Tool(last.id, render(last))] else []
  }

  function LegacyResults(records: seq<Record>, render: Record -> string): seq<string> {
    if records == [] then []
    else
      var last := records[|records| - 1];
      LegacyResults(records[..|records| - 1], render)
      + if !Replayable(last) && render(last) != "" then [render(last)] else []
  }

  function Join(lines: seq<string>): string {
    if lines == [] then "" else if |lines| == 1 then lines[0] else lines[0] + "\n" + Join(lines[1..])
  }

  const HEADING := "[历史工具结果]"

  /** The text of a replayed reply: what could not be replayed as a call is told in words. */
  function ReplyText(content: string, legacy: seq<string>): string {
    if legacy == [] then content
    else (if Blank(content) then content else content + "\n\n") + HEADING + "\n" + Join(legacy)
  }

  /** The model messages of one stored message. */
  function ReplayOne(message: Stored, strip: string -> string, render: Record -> string): seq<Msg> {
    match message.role
    case UserRole => [User(message.content)]
    case OtherRole => []
    case AssistantRole =>
      var content := ReplyText(strip(message.content), LegacyResults(message.records, render));
      var calls := ReplayableCalls(message.records);
      if Blank(content) && calls == [] then []
      else [Assistant(content, calls)] + ReplayedResults(message.records, render)
  }

  function ReplayAll(history: seq<Stored>, strip: string -> string, render: Record -> string): seq<Msg> {
    if history == [] then []
    else ReplayAll(history[..|history| - 1], strip, render) + ReplayOne(history[|history| - 1], strip, render)
  }

  lemma {:induction false} ResultsAnswer(records: seq<Record>, render: Record -> string)
    ensures |ReplayedResults(records, render)| == |ReplayableCalls(records)|
    ensures Answers(ReplayableCalls(records), ReplayedResults(records, render))
  {
    if records != [] {
      ResultsAnswer(records[..|records| - 1], render);
    }
  }

  lemma {:induction false} ReplayPaired(history: seq<Stored>, strip: string -> string, render: Record -> string)
    ensures Paired(ReplayAll(history, strip, render))
  {
    if history != [] {
      ReplayPaired(history[..|history| - 1], strip, render);
      var last := history[|history| - 1];
      var one := ReplayOne(last, strip, render);
      if last.role == AssistantRole && one != [] {
        var calls, results := ReplayableCalls(last.records), ReplayedResults(last.records, render);
        ResultsAnswer(last.records, render);
        assert one[1..] == results && one[1 + |calls|..] == [];
      }
      PairedConcat(ReplayAll(history[..|history| - 1], strip, render), one);
    }
  }

  // ----- what a replayed reply tells -----

  /** The records that are replayed, in order, and what is told in words of the others. */
  function Kept(records: seq<Record>): seq<Record> {
    if records == [] then [] else (if Blank(records[0].arguments) then [] else [records[0]]) + Kept(records[1..])
  }

  function Lost(records: seq<Record>, render: Record -> string): seq<string> {
    if records == [] then []
    else (if Blank(records[0].arguments) && |render(records[0])| > 0 then [render(records[0])] else []) + Lost(records[1..], render)
  }

  lemma KeptFirst(records: seq<Record>, render: Record -> string)
    requires records != []
    ensures Kept(records) == (if Blank(records[0].arguments) then [] else [records[0]]) + Kept(records[1..])
    ensures Lost(records, render) ==
            (if Blank(records[0].arguments) && render(records[0]) != "" then [render(records[0])] else []) + Lost(records[1..], render)
  {
  }

  lemma KeptNone(render: Record -> string)
    ensures Kept([]) == [] && Lost([], render) == []
  {
  }

  lemma Assoc<T>(a: seq<T>, b: seq<T>, c: seq<T>)
    ensures a + (b + c) == (a + b) + c && a + [] == a && [] + a == a
  {
  }

  lemma {:induction false} KeptThen(records: seq<Record>, r: Record, render: Record -> string)
    ensures Kept(records + [r]) == Kept(records) + if Blank(r.arguments) then [] else [r]
    ensures Lost(records + [r], render) == Lost(records, render) + if Blank(r.arguments) && render(r) != "" then [render(r)] else []
    decreases |records|
  {
    hide *;
    var all := records + [r];
    KeptFirst(all, render);
    KeptNone(render);
    var kept := if Blank(r.arguments) then [] else [r];
    var lost := if Blank(r.arguments) && render(r) != "" then [render(r)] else [];
    if records == [] {
      assert all[0] == r && all[1..] == [];
      Assoc(kept, [], []);
      Assoc(lost, [], []);
    } else {
      KeptFirst(records, render);
      KeptThen(records[1..], r, render);
      assert all[0] == records[0] && all[1..] == records[1..] + [r];
      Assoc(if Blank(records[0].arguments) then [] else [records[0]], Kept(records[1..]), kept);
      Assoc(if Blank(records[0].arguments) && render(records[0]) != "" then [render(records[0])] else [], Lost(records[1..], render), lost);
    }
  }

  lemma {:induction false} ReplayedRecords(records: seq<Record>, render: Record -> string)
    ensures var kept, calls, results := Kept(records), ReplayableCalls(records), ReplayedResults(records, render);
            && |calls| == |results| == |kept|
            && forall k :: 0 <= k < |kept| ==> calls[k] == Call(kept[k].id, kept[k].name) && results[k] == Tool(kept[k].id, render(kept[k]))
    ensures LegacyResults(records, render) == Lost(records, render)
  {
    if records != [] {
      var n := |records| - 1;
      ReplayedRecords(records[..n], render);
      KeptThen(records[..n], records[n], render);
      assert records == records[..n] + [records[n]];
    }
  }

  /** The parts of a text between its line ends. */
  function Lines(text: string): (lines: seq<string>)
    ensures lines != []
  {
    if text == "" then [""]
    else if text[0] == '\n' then [""] + Lines(text[1..])
    else var later := Lines(text[1..]); [[text[0]] + later[0]] + later[1..]
  }

  lemma {:induction false} LinesOfOne(line: string)
    requires '\n' !in line
    ensures Lines(line) == [line]
  {
    if line != "" {
      LinesOfOne(line[1..]);
      assert line == [line[0]] + line[1..];
    }
  }

  lemma {:induction false} LinesOfMore(line: string, text: string)
    requires '\n' !in line
    ensures Lines(line + "\n" + text) == [line] + Lines(text)
    decreases |line|
  {
    var all := line + "\n" + text;
    if line == "" {
      assert all == "\n" + text && all[1..] == text;
    } else {
      assert all[1..] == line[1..] + "\n" + text;
      LinesOfMore(line[1..], text);
      assert line == [line[0]] + line[1..];
    }
  }

  /** Joined lines are those lines. */
  lemma {:induction false} LinesOfJoined(lines: seq<string>)
    requires lines != [] && forall l <- lines :: '\n' !in l
    ensures Lines(Join(lines)) == lines
  {
    if |lines| == 1 {
      LinesOfOne(lines[0]);
    } else {
      LinesOfJoined(lines[1..]);
      LinesOfMore(lines[0], Join(lines[1..]));
      assert lines == [lines[0]] + lines[1..];
    }
  }

  /** The text of a replayed reply: the content, and if there is something to tell, behind it an empty line, unless
      the content is blank, a heading, and then all that there is to tell, a line each. */
  lemma ReplyTells(content: string, lost: seq<string>)
    ensures lost == [] ==> ReplyText(content, lost) == content
    ensures lost != [] && Blank(content) ==> ReplyText(content, lost) == content + Join([HEADING] + lost)
    ensures lost != [] && !Blank(content) ==> ReplyText(content, lost) == content + Join(["", "", HEADING] + lost)
  {
    if lost != [] {
      var lines := [HEADING] + lost;
      assert lines[1..] == lost && Join(lines) == HEADING + "\n" + Join(lost);
      var spaced := ["", "", HEADING] + lost;
      assert spaced[1..] == [""] + lines && ([""] + lines)[1..] == lines;
      assert Join(spaced) == "" + "\n" + ("" + "\n" + Join(lines));
    }
  }

  /** A reply with the calls of these records, and then their results. */
  predicate TurnOf(ms: seq<Msg>, text: string, records: seq<Record>, render: Record -> string) {
    && |ms| == 1 + |records| && ms[0].Assistant? && ms[0].text == text && |ms[0].calls| == |records|
    && (forall k :: 0 <= k < |records| ==> ms[0].calls[k] == Call(records[k].id, records[k].name))
    && (forall k :: 0 <= k < |records| ==> ms[1..][k] == Tool(records[k].id, render(records[k])))
  }

  lemma TurnIs(text: string, records: seq<Record>, render: Record -> string)
    ensures TurnOf([Assistant(text, ReplayableCalls(records))] + ReplayedResults(records, render), text, Kept(records), render)
  {
    hide ReplayableCalls, ReplayedResults, LegacyResults, Lost, Kept;
    ReplayedRecords(records, render);
    var ms := [Assistant(text, ReplayableCalls(records))] + ReplayedResults(records, render);
    assert ms[1..] == ReplayedResults(records, render);
  }

  /** A stored message is replayed as what the user said, or as a reply: its text without the summary of its
      calls and with what is lost of them told in words, the calls that are kept, and their results. */
  lemma ReplayedMessage(m: Stored, strip: string -> string, render: Record -> string)
    ensures m.role == UserRole ==> ReplayOne(m, strip, render) == [User(m.content)]
    ensures m.role == OtherRole ==> ReplayOne(m, strip, render) == []
    ensures m.role == AssistantRole ==>
              var text := ReplyText(strip(m.content), Lost(m.records, render));
              if Blank(text) && Kept(m.records) == [] then ReplayOne(m, strip, render) == []
              else TurnOf(ReplayOne(m, strip, render), text, Kept(m.records), render)
  {
    hide ReplyText, ReplayableCalls, ReplayedResults, LegacyResults, Lost, Kept, Blank, TurnOf;
    ReplayedRecords(m.records, render);
    TurnIs(ReplyText(strip(m.content), LegacyResults(m.records, render)), m.records, render);
  }

  lemma ReplayOneMore(history: seq<Stored>, i: nat, strip: string -> string, render: Record -> string)
    requires i < |history|
    ensures ReplayAll(history[..i + 1], strip, render) == ReplayAll(history[..i], strip, render) + ReplayOne(history[i], strip, render)
  {
    assert history[..i + 1][..i] == history[..i];
  }

  /** The results of the calls that are replayed, pushed one record at a time. */
  method ReplayResults(records: seq<Record>, render: Record -> string) returns (output: seq<Msg>)
    ensures output == ReplayedResults(records, render)
  {
    output := [];
    for k := 0 to |records|
      invariant output == ReplayedResults(records[..k], render)
    {
      assert records[..k + 1][..k] == records[..k];
      if !Replayable(records[k]) {
        assert ReplayedResults(records[..k + 1], render) == output;
        continue;
      }
      output := output + [Tool(records[k].id, render(records[k]))];
    }
    assert records[..|records|] == records;
  }

  /** Rebuilding the conversation from stored messages, one message at a time. */
  method Replay(history: seq<Stored>, strip: string -> string, render: Record -> string) returns (output: seq<Msg>)
    ensures output == ReplayAll(history, strip, render)
  {
    output := [];
    for i := 0 to |history|
      invariant output == ReplayAll(history[..i], strip, render)
    {
      var message := history[i];
      ReplayOneMore(history, i, strip, render);
      if message.role == UserRole {
        output := output + [User(message.content)];
        continue;
      }
      if message.role != AssistantRole {
        continue;
      }
      var content := ReplyText(strip(message.content), LegacyResults(message.records, render));
      var calls := ReplayableCalls(message.records);
      if Blank(content) && calls == [] {
        continue;
      }
      var results := ReplayResults(message.records, render);
      output := output + ([Assistant(content, calls)] + results);
    }
    assert history[..|history|] == history;
  }

  // ----- compaction -----

  /** The first position from `n` on that does not hold a tool result. */
  function SkipTools(ms: seq<Msg>, n: nat): (cut: nat)
    requires n <= |ms|
    ensures n <= cut <= |ms| && (cut < |ms| ==> !ms[cut].Tool?)
    ensures forall k :: n <= k < cut ==> ms[k].Tool?
    decreases |ms| - n
  {
    if n < |ms| && ms[n].Tool? then SkipTools(ms, n + 1) else n
  }

  function FirstCut(ms: seq<Msg>): nat {
    SkipTools(ms, if |ms| <= 8 then 0 else |ms| - 8)
  }

  /** How a compaction writes a summary and how the size of a conversation is estimated. */
  datatype Sizing = Sizing(window: nat, summarize: (nat, seq<Msg>) -> string, estimate: seq<Msg> -> nat)

  function AtLeastOne(n: nat): nat { if n == 0 then 1 else n }

  predicate Wanted(z: Sizing, ms: seq<Msg>, force: bool) {
    && (force || z.estimate(ms) >= AtLeastOne(z.window * 80 / 100))
    && |ms| > 4
    && FirstCut(ms) > 0
  }

  /** Everything before the cut becomes one summary. */
  function CutAt(z: Sizing, ms: seq<Msg>, cut: nat, count: nat): seq<Msg>
    requires cut <= |ms|
  {
    [System(z.summarize(count, ms[..cut]))] + ms[cut..]
  }

  predicate SecondCut(z: Sizing, ms: seq<Msg>) {
    && z.estimate(ms) > AtLeastOne(z.window * 60 / 100)
    && |ms| > 4
    && SkipTools(ms, |ms| - 4) > 1
  }

  function Compacted(z: Sizing, ms: seq<Msg>, count: nat): seq<Msg> {
    var first := CutAt(z, ms, FirstCut(ms), count);
    if SecondCut(z, first) then CutAt(z, first, SkipTools(first, |first| - 4), count) else first
  }

  /** The first message that a compaction keeps. */
  function KeptFrom(z: Sizing, ms: seq<Msg>, count: nat): nat {
    var first := CutAt(z, ms, FirstCut(ms), count);
    if SecondCut(z, first) then FirstCut(ms) + SkipTools(first, |first| - 4) - 1 else FirstCut(ms)
  }

  /** The summary tells of all messages before the first one kept; after a second cut, of the first summary
      and of those behind it. */
  function SummaryText(z: Sizing, ms: seq<Msg>, count: nat, kept: nat): string
    requires FirstCut(ms) <= kept <= |ms|
  {
    var n := FirstCut(ms);
    if kept == n then z.summarize(count, ms[..n])
    else z.summarize(count, [System(z.summarize(count, ms[..n]))] + ms[n..kept])
  }

  /** A wanted compaction keeps an unmodified tail of the messages behind one summary of the others, never grows
      the conversation, leaves at most nine messages, and at most five after a second cut. */
  lemma CompactedShape(z: Sizing, ms: seq<Msg>, count: nat) returns (cut: nat)
    requires |ms| > 4 && FirstCut(ms) > 0
    ensures cut == KeptFrom(z, ms, count) && 0 < cut <= |ms|
    ensures var after := Compacted(z, ms, count);
            && after != [] && after[0].System? && after[1..] == ms[cut..]
            && after[0].text == SummaryText(z, ms, count, cut)
            && |after| <= |ms| && |after| <= 9
            && (SecondCut(z, CutAt(z, ms, FirstCut(ms), count)) ==> |after| <= 5)
    ensures cut < |ms| ==> !ms[cut].Tool?
  {
    var n := FirstCut(ms);
    var first := CutAt(z, ms, n, count);
    if SecondCut(z, first) {
      var m := SkipTools(first, |first| - 4);
      cut := n + m - 1;
      assert first[m..] == ms[cut..];
      assert first[..m] == [System(z.summarize(count, ms[..n]))] + ms[n..cut];
      if cut < |ms| {
        assert first[m] == ms[cut];
      }
    } else {
      cut := n;
    }
  }

  /** A share of the window, in percent, and at least one. */
  function ShareOfWindow(z: Sizing, percent: nat): (share: nat)
    ensures share >= 1 && (share > 1 ==> 100 * share <= z.window * percent)
    ensures z.window * percent < 100 * (share + 1)
  {
    var share := z.window * percent / 100;
    if share > 1 then share else 1
  }

  /** A compaction is wanted when it is forced or the estimate has reached four fifths of the window, and there
      is something to take away: more than eight messages, or results at the beginning. */
  lemma WantedMeans(z: Sizing, ms: seq<Msg>, force: bool)
    ensures Wanted(z, ms, force) <==>
            && (force || z.estimate(ms) >= ShareOfWindow(z, 80))
            && |ms| > 4 && (|ms| > 8 || ms[0].Tool?)
  {
  }

  /** After a compaction the estimate is within three fifths of the window, or hardly anything is left; and it
      cuts no second time if the first was enough or has left no more than four messages. */
  lemma CompactedEnough(z: Sizing, ms: seq<Msg>, count: nat)
    requires |ms| > 4 && FirstCut(ms) > 0
    ensures var after, n := Compacted(z, ms, count), FirstCut(ms);
            && (z.estimate(after) <= ShareOfWindow(z, 60) || |after| <= 5)
            && (z.estimate([System(z.summarize(count, ms[..n]))] + ms[n..]) <= ShareOfWindow(z, 60) || |ms| - n <= 4 ==>
                  after == [System(z.summarize(count, ms[..n]))] + ms[n..])
  {
  }

  lemma CompactedPaired(z: Sizing, ms: seq<Msg>, count: nat)
    requires Paired(ms) && |ms| > 4 && FirstCut(ms) > 0
    ensures Paired(Compacted(z, ms, count))
  {
    var cut := CompactedShape(z, ms, count);
    PairedTail(ms, cut);
    var after := Compacted(z, ms, count);
    assert after[1..] == ms[cut..];
  }

  // ----- the Anthropic encoding -----

  /** The calls whose results a message carries. */
  function ResultsIn(m: Msg): seq<Id> {
    if m.Blocks? then ResultIds(m.results) else []
  }

  function ResultIds(results: seq<ToolResult>): (ids: seq<Id>)
    ensures |ids| == |results| && forall k :: 0 <= k < |ids| ==> ids[k] == results[k].id
  {
    seq(|results|, k requires 0 <= k < |results| => results[k].id)
  }

  predicate HasResults(m: Msg) {
    ResultsIn(m) != []
  }

  predicate IsUser(m: Msg) {
    m.User? || m.Blocks?
  }

  function CallIds(calls: seq<Call>): (ids: seq<Id>)
    ensures |ids| == |calls| && forall k :: 0 <= k < |calls| ==> ids[k] == calls[k].id
  {
    seq(|calls|, k requires 0 <= k < |calls| => calls[k].id)
  }

  /** The list begins with the results of the awaited calls, in order, in as many messages as it takes, and
      is well paired behind them. */
  predicate PairedFrom(awaited: seq<Id>, ms: seq<Msg>)
    decreases |ms|
  {
    if ms == [] then awaited == []
    else if HasResults(ms[0]) then ResultsIn(ms[0]) <= awaited && PairedFrom(awaited[|ResultsIn(ms[0])|..], ms[1..])
    else awaited == [] && !ms[0].Tool? && PairedFrom(if ms[0].Assistant? then CallIds(ms[0].calls) else [], ms[1..])
  }

  predicate BlockPaired(ms: seq<Msg>) {
    PairedFrom([], ms)
  }

  function Carried(ms: seq<Msg>): seq<Id> {
    if ms == [] then [] else ResultsIn(ms[0]) + Carried(ms[1..])
  }

  predicate AllResults(ms: seq<Msg>) {
    forall m <- ms :: HasResults(m)
  }

  /** Every tail is paired from what it still awaits, which is nothing if it does not begin with results. */
  lemma {:induction false} TailFrom(awaited: seq<Id>, ms: seq<Msg>, n: nat) returns (left: seq<Id>)
    requires PairedFrom(awaited, ms) && n <= |ms|
    ensures PairedFrom(left, ms[n..])
    ensures n == |ms| || !HasResults(ms[n]) ==> left == []
    decreases |ms|
  {
    if n == 0 {
      left := awaited;
      assert ms[0..] == ms;
    } else {
      var next := if HasResults(ms[0]) then awaited[|ResultsIn(ms[0])|..]
                  else if ms[0].Assistant? then CallIds(ms[0].calls) else [];
      left := TailFrom(next, ms[1..], n - 1);
      assert ms[1..][n - 1..] == ms[n..];
    }
  }

  lemma {:induction false} BehindPrefix(awaited: seq<Id>, before: seq<Msg>, m: Msg, rest: seq<Msg>)
    requires PairedFrom(awaited, before + ([m] + rest)) && !HasResults(m)
    ensures PairedFrom(if m.Assistant? then CallIds(m.calls) else [], rest)
    decreases |before|
  {
    var ms := before + ([m] + rest);
    if before == [] {
      assert ms[0] == m && ms[1..] == rest;
    } else {
      var next := if HasResults(ms[0]) then awaited[|ResultsIn(ms[0])|..]
                  else if ms[0].Assistant? then CallIds(ms[0].calls) else [];
      assert ms[1..] == before[1..] + ([m] + rest);
      BehindPrefix(next, before[1..], m, rest);
    }
  }

  lemma {:induction false} RunCarries(awaited: seq<Id>, run: seq<Msg>, after: seq<Msg>)
    requires PairedFrom(awaited, run + after) && AllResults(run) && (after == [] || !HasResults(after[0]))
    ensures Carried(run) == awaited
    decreases |run|
  {
    if run == [] {
      assert run + after == after;
    } else {
      assert run[0] in run && (run + after)[0] == run[0];
      assert (run + after)[1..] == run[1..] + after;
      RunCarries(awaited[|ResultsIn(run[0])|..], run[1..], after);
    }
  }

  /** Pairing seen from any one message without results: those with results right behind it carry exactly the
      results of its calls, in order, and none if it is not an assistant message.  No list begins with
      results. */
  lemma RunsAnswer(before: seq<Msg>, m: Msg, run: seq<Msg>, after: seq<Msg>)
    requires BlockPaired(before + ([m] + (run + after))) && !HasResults(m)
    requires AllResults(run) && (after == [] || !HasResults(after[0]))
    ensures Carried(run) == if m.Assistant? then CallIds(m.calls) else []
    ensures !HasResults((before + ([m] + (run + after)))[0])
  {
    BehindPrefix([], before, m, run + after);
    hide PairedFrom, Carried;
    RunCarries(if m.Assistant? then CallIds(m.calls) else [], run, after);
    BeginsWithoutResults(before + ([m] + (run + after)));
  }

  lemma BeginsWithoutResults(ms: seq<Msg>)
    requires BlockPaired(ms) && ms != []
    ensures !HasResults(ms[0])
  {
  }

  // ----- encoding a conversation -----

  function EncodedOne(m: Msg): Msg {
    if m.Tool? then Blocks([ToolResult(m.id, m.text)], []) else m
  }

  function Encoded(ms: seq<Msg>): (r: seq<Msg>)
    ensures |r| == |ms| && forall k :: 0 <= k < |ms| ==> r[k] == EncodedOne(ms[k])
  {
    seq(|ms|, k requires 0 <= k < |ms| => EncodedOne(ms[k]))
  }

  lemma {:induction false} AwaitedIff(calls: seq<Call>, ms: seq<Msg>)
    requires forall m <- ms :: !m.Blocks?
    ensures PairedFrom(CallIds(calls), Encoded(ms)) <==> Answers(calls, ms) && Paired(ms[|calls|..])
    decreases |ms|
  {
    if ms == [] {
      assert Encoded(ms) == [];
    } else {
      assert Encoded(ms)[1..] == Encoded(ms[1..]);
      if calls == [] {
        assert ms[0..] == ms;
        if !ms[0].Tool? {
          var next := if ms[0].Assistant? then ms[0].calls else [];
          AwaitedIff(next, ms[1..]);
          assert CallIds([]) == [];
          assert Answers(next, ms[1..]) ==> ms[1..][|next|..] == ms[1 + |next|..];
        }
      } else if ms[0].Tool? {
        AwaitedIff(calls[1..], ms[1..]);
        assert CallIds(calls)[1..] == CallIds(calls[1..]);
        assert Answers(calls, ms) <==> ms[0].id == calls[0].id && Answers(calls[1..], ms[1..]) by {
          AnswersCons(calls, ms);
        }
        assert |calls| <= |ms| ==> ms[1..][|calls| - 1..] == ms[|calls|..];
      } else {
        assert CallIds(calls) != [];
      }
    }
  }

  lemma AnswersCons(calls: seq<Call>, ms: seq<Msg>)
    requires calls != [] && ms != [] && ms[0].Tool?
    ensures Answers(calls, ms) <==> ms[0].id == calls[0].id && Answers(calls[1..], ms[1..])
  {
    assert forall k :: 0 <= k < |calls| - 1 ==> calls[1..][k] == calls[k + 1];
    assert forall k :: 0 <= k < |ms| - 1 ==> ms[1..][k] == ms[k + 1];
    if ms[0].id == calls[0].id && Answers(calls[1..], ms[1..]) {
      forall k | 0 <= k < |calls| ensures ms[k].Tool? && ms[k].id == calls[k].id {
        if k > 0 {
          assert ms[1..][k - 1].id == calls[1..][k - 1].id;
        }
      }
    }
  }

  /** A conversation is well paired in one encoding exactly when it is in the other. */
  lemma EncodingKeepsPairing(ms: seq<Msg>)
    requires forall m <- ms :: !m.Blocks?
    ensures Paired(ms) <==> BlockPaired(Encoded(ms))
  {
    AwaitedIff([], ms);
    assert CallIds([]) == [] && ms[0..] == ms;
  }

  lemma {:induction false} ReplayHasNoBlocks(history: seq<Stored>, strip: string -> string, render: Record -> string)
    ensures forall m <- ReplayAll(history, strip, render) :: !m.Blocks?
  {
    if history != [] {
      ReplayHasNoBlocks(history[..|history| - 1], strip, render);
      ResultsAnswer(history[|history| - 1].records, render);
    }
  }

  /** What a run starts with. */
  function Started(f: Format, history: seq<Msg>): seq<Msg> {
    if f.Anthropic? then Encoded(history) else history
  }

  /** Stored history is well paired in the Anthropic encoding, each result a message of its own. */
  lemma ReplayBlockPaired(history: seq<Stored>, strip: string -> string, render: Record -> string)
    ensures BlockPaired(Started(Anthropic, ReplayAll(history, strip, render)))
  {
    ReplayHasNoBlocks(history, strip, render);
    ReplayPaired(history, strip, render);
    EncodingKeepsPairing(ReplayAll(history, strip, render));
  }

  // ----- compaction in the Anthropic encoding -----

  /** Right behind the summary there are results, without their calls. */
  predicate Orphaned(ms: seq<Msg>) {
    |ms| > 1 && ms[0].System? && HasResults(ms[1])
  }

  /** Well paired but for results that may follow the summary. */
  ghost predicate PairedButFirst(ms: seq<Msg>) {
    BlockPaired(ms) || (ms != [] && ms[0].System? && exists awaited :: PairedFrom(awaited, ms[1..]))
  }

  /** Then whether it is well paired can be seen there. */
  lemma PairedUnlessOrphaned(ms: seq<Msg>)
    requires PairedButFirst(ms)
    ensures BlockPaired(ms) <==> !Orphaned(ms)
  {
    assert |ms| > 1 ==> ms[1..][0] == ms[1];
    if BlockPaired(ms) {
      assert Orphaned(ms) ==> PairedFrom([], ms[1..]);
    } else {
      var awaited :| PairedFrom(awaited, ms[1..]);
      assert !Orphaned(ms) ==> awaited == [];
    }
  }

  lemma TailOfPaired(ms: seq<Msg>, n: nat) returns (left: seq<Id>)
    requires PairedButFirst(ms) && 0 < n <= |ms|
    ensures PairedFrom(left, ms[n..])
  {
    if BlockPaired(ms) {
      left := TailFrom([], ms, n);
    } else {
      var awaited :| PairedFrom(awaited, ms[1..]);
      left := TailFrom(awaited, ms[1..], n - 1);
      assert ms[1..][n - 1..] == ms[n..];
    }
  }

  lemma {:induction false} NoTools(awaited: seq<Id>, ms: seq<Msg>, i: nat)
    requires PairedFrom(awaited, ms) && i < |ms|
    ensures !ms[i].Tool?
  {
    var left := TailFrom(awaited, ms, i);
  }

  lemma NoToolsBehindFirst(ms: seq<Msg>)
    requires PairedButFirst(ms)
    ensures forall m <- ms :: !m.Tool?
  {
    forall i | 0 <= i < |ms| ensures !ms[i].Tool? {
      if BlockPaired(ms) {
        NoTools([], ms, i);
      } else if i > 0 {
        var awaited :| PairedFrom(awaited, ms[1..]);
        NoTools(awaited, ms[1..], i - 1);
      }
    }
  }

  /** The cuts look for the role `tool`, which this encoding does not use, so they fall eight or four messages
      before the end: a compaction, of one cut or two, keeps calls and results together exactly when the
      first message it keeps carries no results. */
  lemma CompactionKeepsResultsIff(z: Sizing, ms: seq<Msg>, count: nat)
    requires PairedButFirst(ms) && |ms| > 4 && FirstCut(ms) > 0
    ensures var cut := KeptFrom(z, ms, count);
            && (cut == |ms| - 8 || cut == |ms| - 4)
            && (BlockPaired(Compacted(z, ms, count)) <==> !HasResults(ms[cut]))
            && PairedButFirst(Compacted(z, ms, count))
  {
    hide Compacted, PairedFrom;
    NoToolsBehindFirst(ms);
    var cut := CompactedShape(z, ms, count);
    CutsWithoutTools(z, ms, count);
    var after := Compacted(z, ms, count);
    var left := TailOfPaired(ms, cut);
    assert PairedFrom(left, after[1..]);
    PairedUnlessOrphaned(after);
    assert after[1] == ms[cut..][0];
  }

  lemma CutsWithoutTools(z: Sizing, ms: seq<Msg>, count: nat)
    requires (forall m <- ms :: !m.Tool?) && |ms| > 4 && FirstCut(ms) > 0
    ensures KeptFrom(z, ms, count) == |ms| - 8 || KeptFrom(z, ms, count) == |ms| - 4
  {
  }

  // ----- the conversation and the run -----

  /** What one round of the run meets: messages injected before and after the model turn, how the turn
      ends, the results of its tools, and where the user stops the run. */
  datatype Round = Round(
    stopBefore: bool, injectedBefore: seq<string>,
    preempted: bool, stopAfter: bool, text: string, calls: seq<Call>,
    injectedAfter: seq<string>, outcomes: seq<string>, stopInTools: bool)

  function WithText(m: Msg, text: string): Msg
    requires IsUser(m)
  {
    if m.User? then Blocks([], [m.text, text]) else m.(texts := m.texts + [text])
  }

  /** One more message of the user: the Anthropic encoding adds it to a user message that comes last. */
  function PushedUser(f: Format, ms: seq<Msg>, text: string): seq<Msg> {
    if f.Anthropic? && ms != [] && IsUser(ms[|ms| - 1]) then ms[..|ms| - 1] + [WithText(ms[|ms| - 1], text)]
    else ms + [User(text)]
  }

  function PushedUsers(f: Format, ms: seq<Msg>, texts: seq<string>): seq<Msg> {
    if texts == [] then ms else PushedUser(f, PushedUsers(f, ms, texts[..|texts| - 1]), texts[|texts| - 1])
  }

  /** The conversation as a value, for saying what a run sends. */
  datatype Talk = Talk(messages: seq<Msg>, count: nat)

  function Compaction(z: Sizing, talk: Talk, force: bool): Talk {
    if Wanted(z, talk.messages, force) then Talk(Compacted(z, talk.messages, talk.count + 1), talk.count + 1) else talk
  }

  function Say(talk: Talk, ms: seq<Msg>): Talk {
    Talk(talk.messages + ms, talk.count)
  }

  function SayUsers(f: Format, talk: Talk, texts: seq<string>): Talk {
    Talk(PushedUsers(f, talk.messages, texts), talk.count)
  }

  function Outcomes(calls: seq<Call>, outcomes: seq<string>): (ms: seq<Msg>)
    requires |calls| == |outcomes|
    ensures |ms| == |calls| && forall k :: 0 <= k < |calls| ==> ms[k] == Tool(calls[k].id, outcomes[k])
  {
    seq(|calls|, k requires 0 <= k < |calls| => Tool(calls[k].id, outcomes[k]))
  }

  function ResultsFor(calls: seq<Call>, outcomes: seq<string>): (results: seq<ToolResult>)
    requires |calls| == |outcomes|
    ensures |results| == |calls| && forall k :: 0 <= k < |calls| ==> results[k] == ToolResult(calls[k].id, outcomes[k])
  {
    seq(|calls|, k requires 0 <= k < |calls| => ToolResult(calls[k].id, outcomes[k]))
  }

  /** The results of a round: a message each, or the blocks of one. */
  function ResultsOf(f: Format, calls: seq<Call>, outcomes: seq<string>): seq<Msg>
    requires |calls| == |outcomes|
  {
    if f.Anthropic? then [Blocks(ResultsFor(calls, outcomes), [])] else Outcomes(calls, outcomes)
  }

  /** What the model is sent in a round. */
  function Asked(f: Format, z: Sizing, talk: Talk, r: Round): Talk {
    Compaction(z, SayUsers(f, talk, r.injectedBefore), false)
  }

  /** Whether the run goes on after the round. */
  predicate GoesOn(r: Round) {
    r.preempted || (!r.stopAfter && if r.calls == [] then r.injectedAfter != [] else !r.stopInTools)
  }

  /** The conversation after a round the run goes on from. */
  function Answered(f: Format, z: Sizing, talk: Talk, r: Round): Talk
    requires |r.outcomes| == |r.calls|
  {
    if r.preempted then
      SayUsers(f, Say(talk, if Blank(r.text) then [] else [Assistant(r.text, [])]), r.injectedAfter)
    else if r.calls == [] then
      SayUsers(f, Say(talk, [Assistant(r.text, [])]), r.injectedAfter)
    else
      var done := Say(talk, [Assistant(r.text, r.calls)] + ResultsOf(f, r.calls, r.outcomes));
      if exists c <- r.calls :: c.name == "compact_context" then Compaction(z, done, true) else done
  }

  /** The requests of a run, in order. */
  function Requests(f: Format, z: Sizing, talk: Talk, rounds: seq<Round>): seq<seq<Msg>>
    requires forall r <- rounds :: |r.outcomes| == |r.calls|
    decreases |rounds|
  {
    if rounds == [] || rounds[0].stopBefore then []
    else
      var asked := Asked(f, z, talk, rounds[0]);
      [asked.messages] + if GoesOn(rounds[0]) then Requests(f, z, Answered(f, z, asked, rounds[0]), rounds[1..]) else []
  }

  // ----- every request in the OpenAI-compatible encoding -----

  lemma CompactionPaired(z: Sizing, talk: Talk, force: bool)
    requires Paired(talk.messages)
    ensures Paired(Compaction(z, talk, force).messages)
  {
    hide Paired, Compacted;
    if Wanted(z, talk.messages, force) {
      CompactedPaired(z, talk.messages, talk.count + 1);
    }
  }

  lemma {:induction false} UsersPaired(ms: seq<Msg>, texts: seq<string>)
    requires Paired(ms)
    ensures Paired(PushedUsers(OpenAi, ms, texts))
  {
    if texts != [] {
      var n := |texts| - 1;
      UsersPaired(ms, texts[..n]);
      assert [User(texts[n])][1..] == [];
      PairedConcat(PushedUsers(OpenAi, ms, texts[..n]), [User(texts[n])]);
    }
  }

  lemma SayTurnPaired(talk: Talk, text: string, calls: seq<Call>, outcomes: seq<string>)
    requires Paired(talk.messages) && |calls| == |outcomes|
    ensures Paired(Say(talk, [Assistant(text, calls)] + Outcomes(calls, outcomes)).messages)
  {
    var turn := [Assistant(text, calls)] + Outcomes(calls, outcomes);
    assert turn[1..] == Outcomes(calls, outcomes) && turn[1 + |calls|..] == [];
    PairedConcat(talk.messages, turn);
  }

  lemma AnsweredPaired(z: Sizing, talk: Talk, r: Round)
    requires Paired(talk.messages) && |r.outcomes| == |r.calls|
    ensures Paired(Answered(OpenAi, z, talk, r).messages)
  {
    hide Paired, Compaction;
    SayTurnPaired(talk, r.text, r.calls, r.outcomes);
    SayTurnPaired(talk, r.text, [], []);
    assert [Assistant(r.text, [])] + Outcomes([], []) == [Assistant(r.text, [])];
    assert talk.messages + [] == talk.messages;
    if r.preempted || r.calls == [] {
      UsersPaired(Say(talk, if r.preempted && Blank(r.text) then [] else [Assistant(r.text, [])]).messages, r.injectedAfter);
    } else {
      CompactionPaired(z, Say(talk, [Assistant(r.text, r.calls)] + Outcomes(r.calls, r.outcomes)), true);
    }
  }

  lemma AskedPaired(z: Sizing, talk: Talk, r: Round)
    requires Paired(talk.messages)
    ensures Paired(Asked(OpenAi, z, talk, r).messages)
  {
    hide Paired;
    UsersPaired(talk.messages, r.injectedBefore);
    CompactionPaired(z, SayUsers(OpenAi, talk, r.injectedBefore), false);
  }

  /** At every request of every run, from replayed history through turns, preemption, injected messages
      and any number of compactions, every tool call is answered in place. */
  lemma {:induction false} EveryRequestPaired(z: Sizing, talk: Talk, rounds: seq<Round>, k: nat)
    requires Paired(talk.messages) && (forall r <- rounds :: |r.outcomes| == |r.calls|)
    requires k < |Requests(OpenAi, z, talk, rounds)|
    ensures Paired(Requests(OpenAi, z, talk, rounds)[k])
    decreases |rounds|
  {
    hide Paired, Asked, Answered;
    AskedPaired(z, talk, rounds[0]);
    var asked := Asked(OpenAi, z, talk, rounds[0]);
    if k > 0 {
      AnsweredPaired(z, asked, rounds[0]);
      EveryRequestPaired(z, Answered(OpenAi, z, asked, rounds[0]), rounds[1..], k - 1);
    }
  }

  /** The same, starting from stored history. */
  lemma EveryRequestFromHistoryPaired(z: Sizing, history: seq<Stored>,
          strip: string -> string, render: Record -> string,
                                      rounds: seq<Round>, k: nat)
    requires forall r <- rounds :: |r.outcomes| == |r.calls|
    requires k < |Requests(OpenAi, z, Talk(ReplayAll(history, strip, render), 0), rounds)|
    ensures Paired(Requests(OpenAi, z, Talk(ReplayAll(history, strip, render), 0), rounds)[k])
  {
    ReplayPaired(history, strip, render);
    EveryRequestPaired(z, Talk(ReplayAll(history, strip, render), 0), rounds, k);
  }

  // ----- every request in the Anthropic encoding -----

  lemma {:induction false} FromConcat(awaited: seq<Id>, a: seq<Msg>, b: seq<Msg>)
    requires PairedFrom(awaited, a) && BlockPaired(b)
    ensures PairedFrom(awaited, a + b)
    decreases |a|
  {
    if a == [] {
      assert a + b == b;
    } else {
      assert (a + b)[1..] == a[1..] + b;
      var next := if HasResults(a[0]) then awaited[|ResultsIn(a[0])|..]
                  else if a[0].Assistant? then CallIds(a[0].calls) else [];
      FromConcat(next, a[1..], b);
    }
  }

  lemma GrownPaired(ms: seq<Msg>, b: seq<Msg>)
    requires PairedButFirst(ms) && BlockPaired(b)
    ensures PairedButFirst(ms + b)
  {
    hide PairedFrom;
    if BlockPaired(ms) {
      FromConcat([], ms, b);
    } else {
      var awaited :| PairedFrom(awaited, ms[1..]);
      FromConcat(awaited, ms[1..], b);
      assert (ms + b)[1..] == ms[1..] + b;
    }
  }

  /** More text in the last message changes nothing. */
  lemma {:induction false} FromWithText(awaited: seq<Id>, front: seq<Msg>, m: Msg, text: string)
    requires IsUser(m) && PairedFrom(awaited, front + [m])
    ensures PairedFrom(awaited, front + [WithText(m, text)])
    decreases |front|
  {
    var ms, merged := front + [m], front + [WithText(m, text)];
    if front == [] {
      assert merged[1..] == ms[1..] == [];
    } else {
      assert ms[1..] == front[1..] + [m] && merged[1..] == front[1..] + [WithText(m, text)];
      var next := if HasResults(ms[0]) then awaited[|ResultsIn(ms[0])|..]
                  else if ms[0].Assistant? then CallIds(ms[0].calls) else [];
      FromWithText(next, front[1..], m, text);
    }
  }

  lemma UserBlockPaired(text: string)
    ensures BlockPaired([User(text)])
  {
    assert [User(text)][1..] == [];
  }

  lemma UserPushed(ms: seq<Msg>, text: string)
    requires PairedButFirst(ms)
    ensures PairedButFirst(PushedUser(Anthropic, ms, text))
  {
    var n := |ms| - 1;
    UserBlockPaired(text);
    hide PairedFrom;
    if ms == [] || !IsUser(ms[n]) {
      GrownPaired(ms, [User(text)]);
    } else if BlockPaired(ms) {
      assert ms == ms[..n] + [ms[n]];
      FromWithText([], ms[..n], ms[n], text);
    } else {
      var awaited :| PairedFrom(awaited, ms[1..]);
      assert ms[1..] == ms[1..n] + [ms[n]];
      FromWithText(awaited, ms[1..n], ms[n], text);
      assert (ms[..n] + [WithText(ms[n], text)])[1..] == ms[1..n] + [WithText(ms[n], text)];
    }
  }

  lemma {:induction false} UsersPushed(ms: seq<Msg>, texts: seq<string>)
    requires PairedButFirst(ms)
    ensures PairedButFirst(PushedUsers(Anthropic, ms, texts))
  {
    hide PairedButFirst;
    if texts != [] {
      UsersPushed(ms, texts[..|texts| - 1]);
      UserPushed(PushedUsers(Anthropic, ms, texts[..|texts| - 1]), texts[|texts| - 1]);
    }
  }

  lemma TurnBlockPaired(text: string, calls: seq<Call>, outcomes: seq<string>)
    requires |calls| == |outcomes|
    ensures BlockPaired([Assistant(text, [])])
    ensures calls != [] ==> BlockPaired([Assistant(text, calls), Blocks(ResultsFor(calls, outcomes), [])])
  {
    assert [Assistant(text, [])][1..] == [] && CallIds([]) == [];
    var ids, answer := CallIds(calls), Blocks(ResultsFor(calls, outcomes), []);
    assert [Assistant(text, calls), answer][1..] == [answer] && [answer][1..] == [];
    assert ResultsIn(answer) == ids && ids[|ids|..] == [];
    assert calls != [] ==> PairedFrom(ids, [answer]);
  }

  lemma CompactionButFirst(z: Sizing, talk: Talk, force: bool)
    requires PairedButFirst(talk.messages)
    ensures PairedButFirst(Compaction(z, talk, force).messages)
  {
    hide PairedButFirst, Compacted, KeptFrom;
    if Wanted(z, talk.messages, force) {
      CompactionKeepsResultsIff(z, talk.messages, talk.count + 1);
    }
  }

  lemma AnsweredButFirst(z: Sizing, talk: Talk, r: Round)
    requires PairedButFirst(talk.messages) && |r.outcomes| == |r.calls|
    ensures PairedButFirst(Answered(Anthropic, z, talk, r).messages)
  {
    hide PairedButFirst, Compaction, BlockPaired;
    TurnBlockPaired(r.text, r.calls, r.outcomes);
    GrownPaired(talk.messages, [Assistant(r.text, [])]);
    assert talk.messages + [] == talk.messages;
    if r.preempted || r.calls == [] {
      UsersPushed(Say(talk, if r.preempted && Blank(r.text) then [] else [Assistant(r.text, [])]).messages, r.injectedAfter);
    } else {
      var turn := [Assistant(r.text, r.calls), Blocks(ResultsFor(r.calls, r.outcomes), [])];
      assert [Assistant(r.text, r.calls)] + [Blocks(ResultsFor(r.calls, r.outcomes), [])] == turn;
      GrownPaired(talk.messages, turn);
      CompactionButFirst(z, Say(talk, turn), true);
    }
  }

  /** At every request of every run the only results without their calls are those right behind the summary:
      a request is well paired exactly when none stands there. */
  lemma {:induction false} EveryRequestPairedIff(z: Sizing, talk: Talk, rounds: seq<Round>, k: nat)
    requires PairedButFirst(talk.messages) && (forall r <- rounds :: |r.outcomes| == |r.calls|)
    requires k < |Requests(Anthropic, z, talk, rounds)|
    ensures var request := Requests(Anthropic, z, talk, rounds)[k];
            BlockPaired(request) <==> !Orphaned(request)
    decreases |rounds|
  {
    hide PairedButFirst, BlockPaired, Orphaned, Answered, Compaction;
    UsersPushed(talk.messages, rounds[0].injectedBefore);
    CompactionButFirst(z, SayUsers(Anthropic, talk, rounds[0].injectedBefore), false);
    var asked := Asked(Anthropic, z, talk, rounds[0]);
    if k == 0 {
      PairedUnlessOrphaned(asked.messages);
    } else {
      AnsweredButFirst(z, asked, rounds[0]);
      EveryRequestPairedIff(z, Answered(Anthropic, z, asked, rounds[0]), rounds[1..], k - 1);
    }
  }

  // ----- alternating turns -----

  /** Counted from the end, the messages of the user and of the assistant alternate, down to a summary. */
  predicate Alternates(ms: seq<Msg>) {
    && ms != [] && !ms[|ms| - 1].System?
    && forall i :: 0 <= i < |ms| && (i > 0 || !ms[i].System?) ==>
                     if (|ms| - i) % 2 == 1 then IsUser(ms[i]) else ms[i].Assistant?
  }

  lemma AlternatesGrown(ms: seq<Msg>, a: Msg, u: Msg)
    requires Alternates(ms) && a.Assistant? && IsUser(u)
    ensures Alternates(ms + [a, u])
  {
    var more := ms + [a, u];
    forall i | 0 <= i < |more| && (i > 0 || !more[i].System?)
      ensures if (|more| - i) % 2 == 1 then IsUser(more[i]) else more[i].Assistant?
    {
      if i < |ms| {
        assert more[i] == ms[i];
      }
    }
  }

  lemma AlternatesMerged(ms: seq<Msg>, texts: seq<string>)
    requires Alternates(ms)
    ensures Alternates(PushedUsers(Anthropic, ms, texts))
  {
    if texts != [] {
      AlternatesMerged(ms, texts[..|texts| - 1]);
    }
  }

  /** Behind an assistant message the first text of the user starts a message and the others join it. */
  lemma {:induction false} AlternatesAsked(ms: seq<Msg>, a: Msg, texts: seq<string>)
    requires Alternates(ms) && a.Assistant? && texts != []
    ensures Alternates(PushedUsers(Anthropic, ms + [a], texts))
  {
    hide Alternates;
    var n := |texts| - 1;
    if n == 0 {
      assert texts[..0] == [];
      assert ms + [a] + [User(texts[0])] == ms + [a, User(texts[0])];
      AlternatesGrown(ms, a, User(texts[0]));
    } else {
      AlternatesAsked(ms, a, texts[..n]);
      var before := PushedUsers(Anthropic, ms + [a], texts[..n]);
      assert [texts[n]][..0] == [];
      assert PushedUsers(Anthropic, before, [texts[n]]) == PushedUser(Anthropic, before, texts[n]);
      AlternatesMerged(before, [texts[n]]);
    }
  }

  /** A compaction of alternating turns keeps an even number of messages, so it begins with a turn of the
      assistant and not with results. */
  lemma AlternatesCompacted(z: Sizing, talk: Talk, force: bool)
    requires Alternates(talk.messages) && BlockPaired(talk.messages)
    ensures Alternates(Compaction(z, talk, force).messages) && BlockPaired(Compaction(z, talk, force).messages)
  {
    hide PairedFrom, Compacted, KeptFrom, SummaryText, SecondCut;
    var ms := talk.messages;
    if Wanted(z, ms, force) {
      var cut := CompactedShape(z, ms, talk.count + 1);
      CompactionKeepsResultsIff(z, ms, talk.count + 1);
      var after := Compacted(z, ms, talk.count + 1);
      forall i | 0 <= i < |after| && (i > 0 || !after[i].System?)
        ensures if (|after| - i) % 2 == 1 then IsUser(after[i]) else after[i].Assistant?
      {
        assert after[i] == after[1..][i - 1] == ms[cut + i - 1];
      }
      assert |ms[cut..]| == |ms| - cut && |after| == 1 + |ms[cut..]|;
      assert cut < |ms|;
      assert after[|after| - 1] == after[1..][|after| - 2];
      assert ms[cut..][|ms| - cut - 1] == ms[|ms| - 1];
    }
  }

  lemma AlternatesAnswered(z: Sizing, talk: Talk, r: Round)
    requires Alternates(talk.messages) && BlockPaired(talk.messages) && |r.outcomes| == |r.calls|
    requires GoesOn(r) && (r.preempted ==> r.injectedAfter != [])
    ensures var after := Answered(Anthropic, z, talk, r).messages; Alternates(after) && BlockPaired(after)
  {
    hide Alternates, Compaction, PairedFrom;
    var ms := talk.messages;
    var after := Answered(Anthropic, z, talk, r).messages;
    if r.preempted && Blank(r.text) {
      assert ms + [] == ms;
      AlternatesMerged(ms, r.injectedAfter);
      BlockPairedPushed(ms, r.injectedAfter);
    } else if r.preempted || r.calls == [] {
      AlternatesAsked(ms, Assistant(r.text, []), r.injectedAfter);
      TurnBlockPaired(r.text, r.calls, r.outcomes);
      FromConcat([], ms, [Assistant(r.text, [])]);
      BlockPairedPushed(ms + [Assistant(r.text, [])], r.injectedAfter);
    } else {
      var turn := [Assistant(r.text, r.calls), Blocks(ResultsFor(r.calls, r.outcomes), [])];
      assert [Assistant(r.text, r.calls)] + [Blocks(ResultsFor(r.calls, r.outcomes), [])] == turn;
      TurnBlockPaired(r.text, r.calls, r.outcomes);
      FromConcat([], ms, turn);
      AlternatesGrown(ms, turn[0], turn[1]);
      AlternatesCompacted(z, Say(talk, turn), true);
    }
  }

  lemma {:induction false} BlockPairedPushed(ms: seq<Msg>, texts: seq<string>)
    requires BlockPaired(ms)
    ensures BlockPaired(PushedUsers(Anthropic, ms, texts))
  {
    if texts != [] {
      var n := |texts| - 1;
      BlockPairedPushed(ms, texts[..n]);
      var before := PushedUsers(Anthropic, ms, texts[..n]);
      UserBlockPaired(texts[n]);
      hide PairedFrom;
      if before != [] && IsUser(before[|before| - 1]) {
        var last := |before| - 1;
        assert before == before[..last] + [before[last]];
        FromWithText([], before[..last], before[last], texts[n]);
      } else {
        FromConcat([], before, [User(texts[n])]);
      }
    }
  }

  /** So a run that begins with alternating turns sends only well paired requests, through any number of
      compactions.  A turn is preempted only when messages wait to be injected. */
  lemma {:induction false} AlternatingRunsPaired(z: Sizing, talk: Talk, rounds: seq<Round>, k: nat)
    requires Alternates(talk.messages) && BlockPaired(talk.messages)
    requires forall r <- rounds :: |r.outcomes| == |r.calls| && (r.preempted ==> r.injectedAfter != [])
    requires k < |Requests(Anthropic, z, talk, rounds)|
    ensures BlockPaired(Requests(Anthropic, z, talk, rounds)[k])
    decreases |rounds|
  {
    hide Alternates, BlockPaired, Answered, Compaction;
    AlternatesMerged(talk.messages, rounds[0].injectedBefore);
    BlockPairedPushed(talk.messages, rounds[0].injectedBefore);
    AlternatesCompacted(z, SayUsers(Anthropic, talk, rounds[0].injectedBefore), false);
    if k > 0 {
      var asked := Asked(Anthropic, z, talk, rounds[0]);
      AlternatesAnswered(z, asked, rounds[0]);
      AlternatingRunsPaired(z, Answered(Anthropic, z, asked, rounds[0]), rounds[1..], k - 1);
    }
  }

  // ----- what is said -----

  /** What a conversation consists of, in either encoding. */
  datatype Item = Said(text: string) | Replied(text: string, calls: seq<Call>) | Told(result: ToolResult)

  function Saids(texts: seq<string>): (items: seq<Item>)
    ensures |items| == |texts| && forall k :: 0 <= k < |texts| ==> items[k] == Said(texts[k])
  {
    seq(|texts|, k requires 0 <= k < |texts| => Said(texts[k]))
  }

  function Tolds(results: seq<ToolResult>): (items: seq<Item>)
    ensures |items| == |results| && forall k :: 0 <= k < |results| ==> items[k] == Told(results[k])
  {
    seq(|results|, k requires 0 <= k < |results| => Told(results[k]))
  }

  function ItemsIn(m: Msg): seq<Item> {
    match m
    case System(_) => []
    case User(text) => [Said(text)]
    case Assistant(text, calls) => [Replied(text, calls)]
    case Tool(id, text) => [Told(ToolResult(id, text))]
    case Blocks(results, texts) => Tolds(results) + Saids(texts)
  }

  function Items(ms: seq<Msg>): seq<Item> {
    if ms == [] then [] else Items(ms[..|ms| - 1]) + ItemsIn(ms[|ms| - 1])
  }

  lemma ItemsThen(ms: seq<Msg>, m: Msg)
    ensures Items(ms + [m]) == Items(ms) + ItemsIn(m)
  {
    assert (ms + [m])[..|ms|] == ms;
  }

  lemma ItemsOne(m: Msg)
    ensures Items([m]) == ItemsIn(m) && Items([]) == []
  {
    assert [m][..0] == [];
  }

  lemma LastOf<T>(s: seq<T>)
    requires s != []
    ensures s == s[..|s| - 1] + [s[|s| - 1]]
  {
  }

  lemma {:induction false} ItemsConcat(a: seq<Msg>, b: seq<Msg>)
    ensures Items(a + b) == Items(a) + Items(b)
    decreases |b|
  {
    hide *;
    Assoc(a, [], []);
    Assoc(Items(a), [], []);
    if b == [] {
      ItemsOne(System(""));
    } else {
      var front, last := b[..|b| - 1], b[|b| - 1];
      LastOf(b);
      ItemsConcat(a, front);
      ItemsThen(a + front, last);
      ItemsThen(front, last);
      Assoc(a, front, [last]);
      Assoc(Items(a), Items(front), ItemsIn(last));
    }
  }

  /** What the user says is in the conversation behind all the rest, joined to a message or not. */
  lemma ItemsPushed(f: Format, ms: seq<Msg>, text: string)
    ensures Items(PushedUser(f, ms, text)) == Items(ms) + [Said(text)]
  {
    hide Items, WithText;
    if f.Anthropic? && ms != [] && IsUser(ms[|ms| - 1]) {
      var front, last := ms[..|ms| - 1], ms[|ms| - 1];
      LastOf(ms);
      ItemsThen(front, last);
      ItemsThen(front, WithText(last, text));
      ItemsWithText(last, text);
      hide *;
      Assoc(Items(front), ItemsIn(last), [Said(text)]);
    } else {
      ItemsThen(ms, User(text));
    }
  }

  lemma ItemsWithText(m: Msg, text: string)
    requires IsUser(m)
    ensures ItemsIn(WithText(m, text)) == ItemsIn(m) + [Said(text)]
  {
    if m.User? {
      assert Tolds([]) + Saids([m.text, text]) == [Said(m.text)] + [Said(text)];
    } else {
      assert Saids(m.texts + [text]) == Saids(m.texts) + [Said(text)];
      Assoc(Tolds(m.results), Saids(m.texts), [Said(text)]);
    }
  }

  lemma {:induction false} ItemsAllPushed(f: Format, ms: seq<Msg>, texts: seq<string>)
    ensures Items(PushedUsers(f, ms, texts)) == Items(ms) + Saids(texts)
  {
    hide Items, PushedUser;
    if texts != [] {
      var n := |texts| - 1;
      ItemsAllPushed(f, ms, texts[..n]);
      ItemsPushed(f, PushedUsers(f, ms, texts[..n]), texts[n]);
      assert Saids(texts) == Saids(texts[..n]) + [Said(texts[n])];
    }
  }

  lemma {:induction false} ItemsOutcomes(calls: seq<Call>, outcomes: seq<string>)
    requires |calls| == |outcomes|
    ensures Items(Outcomes(calls, outcomes)) == Tolds(ResultsFor(calls, outcomes))
  {
    if calls != [] {
      var n := |calls| - 1;
      ItemsOutcomes(calls[..n], outcomes[..n]);
      assert Outcomes(calls, outcomes)[..n] == Outcomes(calls[..n], outcomes[..n]);
      assert Tolds(ResultsFor(calls, outcomes)) == Tolds(ResultsFor(calls[..n], outcomes[..n])) + [Told(ToolResult(calls[n].id, outcomes[n]))];
    }
  }

  lemma ItemsOfResults(f: Format, calls: seq<Call>, outcomes: seq<string>)
    requires |calls| == |outcomes|
    ensures Items(ResultsOf(f, calls, outcomes)) == Tolds(ResultsFor(calls, outcomes))
  {
    ItemsOutcomes(calls, outcomes);
    ItemsOne(Blocks(ResultsFor(calls, outcomes), []));
    hide Items;
    assert Saids([]) == [];
  }

  lemma ItemsOfTurn(f: Format, ms: seq<Msg>, text: string, calls: seq<Call>, outcomes: seq<string>)
    requires |calls| == |outcomes|
    ensures Items(ms + [Assistant(text, [])]) == Items(ms) + [Replied(text, [])]
    ensures Items(ms + ([Assistant(text, calls)] + ResultsOf(f, calls, outcomes))) ==
            Items(ms) + [Replied(text, calls)] + Tolds(ResultsFor(calls, outcomes))
  {
    hide Items, ResultsOf, Tolds, ResultsFor;
    ItemsThen(ms, Assistant(text, []));
    ItemsThen(ms, Assistant(text, calls));
    ItemsOfResults(f, calls, outcomes);
    ItemsConcat(ms + [Assistant(text, calls)], ResultsOf(f, calls, outcomes));
    Assoc(ms, [Assistant(text, calls)], ResultsOf(f, calls, outcomes));
  }

  /** Encoding a conversation keeps all it consists of. */
  lemma {:induction false} ItemsEncoded(ms: seq<Msg>)
    ensures Items(Encoded(ms)) == Items(ms)
    decreases |ms|
  {
    hide *;
    if ms == [] {
      assert Encoded(ms) == [];
    } else {
      var front, last := ms[..|ms| - 1], ms[|ms| - 1];
      LastOf(ms);
      ItemsEncoded(front);
      ItemsThen(front, last);
      EncodedThen(front, last);
      ItemsThen(Encoded(front), EncodedOne(last));
    }
  }

  lemma EncodedThen(ms: seq<Msg>, m: Msg)
    ensures Encoded(ms + [m]) == Encoded(ms) + [EncodedOne(m)]
    ensures ItemsIn(EncodedOne(m)) == ItemsIn(m)
  {
    if m.Tool? {
      assert Tolds([ToolResult(m.id, m.text)]) + Saids([]) == [Told(ToolResult(m.id, m.text))];
    }
  }

  /** What happens in a round from which the run goes on, after its request. */
  function Happening(r: Round): seq<Item>
    requires |r.outcomes| == |r.calls|
  {
    if r.preempted then (if Blank(r.text) then [] else [Replied(r.text, [])]) + Saids(r.injectedAfter)
    else if r.calls == [] then [Replied(r.text, [])] + Saids(r.injectedAfter)
    else [Replied(r.text, r.calls)] + Tolds(ResultsFor(r.calls, r.outcomes))
  }

  /** What happens before the request of round `k`. */
  function Before(rounds: seq<Round>, k: nat): seq<Item>
    requires k < |rounds| && forall r <- rounds :: |r.outcomes| == |r.calls|
  {
    if k == 0 then Saids(rounds[0].injectedBefore)
    else Saids(rounds[0].injectedBefore) + Happening(rounds[0]) + Before(rounds[1..], k - 1)
  }

  predicate Summarized(ms: seq<Msg>) {
    ms != [] && ms[0].System?
  }

  /** The messages carry the last of these items, and all of them if there is no summary. */
  predicate Carries(ms: seq<Msg>, items: seq<Item>) {
    var carried := Items(ms);
    && |carried| <= |items| && carried == items[|items| - |carried|..]
    && (!Summarized(ms) ==> carried == items)
  }

  lemma CarriesMore(ms: seq<Msg>, after: seq<Msg>, items: seq<Item>, more: seq<Item>)
    requires Carries(ms, items) && Items(after) == Items(ms) + more && (Summarized(ms) ==> Summarized(after))
    ensures Carries(after, items + more)
  {
    hide Items;
  }

  lemma {:induction false} PushedStaysSummarized(f: Format, ms: seq<Msg>, texts: seq<string>)
    requires Summarized(ms)
    ensures Summarized(PushedUsers(f, ms, texts))
  {
    if texts != [] {
      PushedStaysSummarized(f, ms, texts[..|texts| - 1]);
    }
  }

  lemma CarriesUsers(f: Format, talk: Talk, texts: seq<string>, items: seq<Item>)
    requires Carries(talk.messages, items)
    ensures Carries(SayUsers(f, talk, texts).messages, items + Saids(texts))
  {
    hide Carries;
    ItemsAllPushed(f, talk.messages, texts);
    if Summarized(talk.messages) {
      PushedStaysSummarized(f, talk.messages, texts);
    }
    CarriesMore(talk.messages, PushedUsers(f, talk.messages, texts), items, Saids(texts));
  }

  lemma CarriesCompacted(z: Sizing, talk: Talk, force: bool, items: seq<Item>)
    requires Carries(talk.messages, items)
    ensures Carries(Compaction(z, talk, force).messages, items)
  {
    hide Items, Compacted, KeptFrom, SummaryText;
    var ms := talk.messages;
    if Wanted(z, ms, force) {
      var cut := CompactedShape(z, ms, talk.count + 1);
      var after := Compacted(z, ms, talk.count + 1);
      ItemsConcat(ms[..cut], ms[cut..]);
      assert ms == ms[..cut] + ms[cut..];
      ItemsConcat([after[0]], after[1..]);
      assert after == [after[0]] + after[1..];
      ItemsOne(after[0]);
    }
  }

  lemma CarriesAnswered(f: Format, z: Sizing, talk: Talk, r: Round, items: seq<Item>)
    requires Carries(talk.messages, items) && |r.outcomes| == |r.calls|
    ensures Carries(Answered(f, z, talk, r).messages, items + Happening(r))
  {
    hide Carries, Compaction, Items, PushedUsers, ResultsOf, Tolds, Saids;
    var ms := talk.messages;
    ItemsOfTurn(f, ms, r.text, r.calls, r.outcomes);
    assert ms + [] == ms && items + [] == items;
    if r.preempted || r.calls == [] {
      var said := if r.preempted && Blank(r.text) then [] else [Assistant(r.text, [])];
      var replied := if r.preempted && Blank(r.text) then [] else [Replied(r.text, [])];
      if said != [] {
        CarriesMore(ms, ms + said, items, replied);
      }
      CarriesUsers(f, Say(talk, said), r.injectedAfter, items + replied);
      assert items + replied + Saids(r.injectedAfter) == items + (replied + Saids(r.injectedAfter));
    } else {
      var turn := [Assistant(r.text, r.calls)] + ResultsOf(f, r.calls, r.outcomes);
      var more := [Replied(r.text, r.calls)] + Tolds(ResultsFor(r.calls, r.outcomes));
      assert Items(ms) + [Replied(r.text, r.calls)] + Tolds(ResultsFor(r.calls, r.outcomes)) == Items(ms) + more;
      CarriesMore(ms, ms + turn, items, more);
      CarriesCompacted(z, Say(talk, turn), true, items + more);
    }
  }

  /** Every request of every run, in either encoding, carries the last of what was said, replied and told
      before it, in order, behind a summary of the rest; and all of it if nothing was summarized. */
  lemma {:induction false} EveryRequestCarries(f: Format, z: Sizing, talk: Talk, rounds: seq<Round>, k: nat, items: seq<Item>)
    requires Carries(talk.messages, items) && (forall r <- rounds :: |r.outcomes| == |r.calls|)
    requires k < |Requests(f, z, talk, rounds)|
    ensures k < |rounds| && Carries(Requests(f, z, talk, rounds)[k], items + Before(rounds, k))
    decreases |rounds|
  {
    hide Carries, Answered, Compaction, SayUsers, Happening;
    var said := items + Saids(rounds[0].injectedBefore);
    CarriesUsers(f, talk, rounds[0].injectedBefore, items);
    CarriesCompacted(z, SayUsers(f, talk, rounds[0].injectedBefore), false, said);
    if k > 0 {
      var asked := Asked(f, z, talk, rounds[0]);
      CarriesAnswered(f, z, asked, rounds[0], said);
      EveryRequestCarries(f, z, Answered(f, z, asked, rounds[0]), rounds[1..], k - 1, said + Happening(rounds[0]));
      assert said + Happening(rounds[0]) + Before(rounds[1..], k - 1) == items + Before(rounds, k);
    }
  }

  /** The run goes on after a preempted turn, after tools that were not stopped, and after a reply to which
      something was injected. */
  predicate Continues(r: Round) {
    || r.preempted
    || (!r.stopAfter && r.calls != [] && !r.stopInTools)
    || (!r.stopAfter && r.calls == [] && r.injectedAfter != [])
  }

  /** No round before `k` ended the run, and none up to it was stopped before its request. */
  predicate Reached(rounds: seq<Round>, k: nat)
    requires k < |rounds|
  {
    (forall j :: 0 <= j <= k ==> !rounds[j].stopBefore) && forall j :: 0 <= j < k ==> Continues(rounds[j])
  }

  lemma ReachedFirst(rounds: seq<Round>, k: nat)
    requires k < |rounds|
    ensures k == 0 ==> (Reached(rounds, k) <==> !rounds[0].stopBefore)
    ensures k > 0 ==> (Reached(rounds, k) <==> !rounds[0].stopBefore && Continues(rounds[0]) && Reached(rounds[1..], k - 1))
  {
    hide Continues;
    if k > 0 && !rounds[0].stopBefore && Continues(rounds[0]) && Reached(rounds[1..], k - 1) {
      assert forall j :: 0 < j < |rounds| ==> rounds[j] == rounds[1..][j - 1];
    }
    if k > 0 && Reached(rounds, k) {
      assert forall j :: 0 <= j < |rounds| - 1 ==> rounds[1..][j] == rounds[j + 1];
    }
  }

  /** Exactly those rounds have a request. */
  lemma {:induction false} RequestSentIff(f: Format, z: Sizing, talk: Talk, rounds: seq<Round>, k: nat)
    requires forall r <- rounds :: |r.outcomes| == |r.calls|
    ensures k < |Requests(f, z, talk, rounds)| <==> k < |rounds| && Reached(rounds, k)
    decreases |rounds|
  {
    if rounds != [] {
      if k < |rounds| {
        ReachedFirst(rounds, k);
      }
      hide Asked, Answered, Reached;
      var rest := Answered(f, z, Asked(f, z, talk, rounds[0]), rounds[0]);
      if k > 0 {
        RequestSentIff(f, z, rest, rounds[1..], k - 1);
      }
    }
  }

  // ----- results without their calls -----

  const CALLS := [Call("a", "read"), Call("b", "read")]
  const RECORDS := [Record("a", "read", "{}"), Record("b", "read", "{}")]

  /** Two replies with two calls each and one without, as stored. */
  const TEXT := "x"

  const ASKED := Stored(UserRole, TEXT, [])
  const SAID := Stored(AssistantRole, TEXT, [])
  const DONE := Stored(AssistantRole, TEXT, RECORDS)

  /** Two replies with two calls each and one without, as stored. */
  const HISTORY := [] + [ASKED] + [DONE] + [ASKED] + [DONE] + [ASKED] + [SAID] + [ASKED]

  function Replayed(render: Record -> string): seq<Msg> {
    var a, b := Blocks([ToolResult("a", render(RECORDS[0]))], []), Blocks([ToolResult("b", render(RECORDS[1]))], []);
    [User(TEXT), Assistant(TEXT, CALLS), a, b, User(TEXT), Assistant(TEXT, CALLS), a, b,
     User(TEXT), Assistant(TEXT, []), User(TEXT)]
  }

  lemma ReplayThen(history: seq<Stored>, m: Stored, strip: string -> string, render: Record -> string)
    ensures ReplayAll(history + [m], strip, render) == ReplayAll(history, strip, render) + ReplayOne(m, strip, render)
  {
    assert (history + [m])[..|history|] == history;
  }

  lemma ReplaySpoken(strip: string -> string, render: Record -> string)
    requires forall t :: strip(t) == t
    ensures ReplayOne(ASKED, strip, render) == [User(TEXT)]
    ensures ReplayOne(SAID, strip, render) == [Assistant(TEXT, [])]
  {
    assert TEXT[0] == 'x';
    assert !Blank(TEXT);
  }

  lemma ReplayCalled(strip: string -> string, render: Record -> string)
    requires forall t :: strip(t) == t
    ensures ReplayOne(DONE, strip, render) ==
            [Assistant(TEXT, CALLS), Tool("a", render(RECORDS[0])), Tool("b", render(RECORDS[1]))]
  {
    assert RECORDS[..1] == [Record("a", "read", "{}")] && RECORDS[..1][..0] == [];
    assert !IsWhiteSpace("{}"[0]);
    assert Replayable(RECORDS[0]) && Replayable(RECORDS[1]);
    assert ReplayableCalls(RECORDS[..1]) == [CALLS[0]] && ReplayableCalls(RECORDS) == CALLS;
    assert ReplayedResults(RECORDS[..1], render) == [Tool("a", render(RECORDS[0]))];
    assert LegacyResults(RECORDS[..1], render) == [] && LegacyResults(RECORDS, render) == [];
  }

  lemma ReplayedHistory(strip: string -> string, render: Record -> string)
    requires forall t :: strip(t) == t
    ensures Started(Anthropic, ReplayAll(HISTORY, strip, render)) == Replayed(render)
  {
    hide ReplayOne, RECORDS, CALLS, TEXT, ASKED, SAID, DONE;
    ReplayThen([], ASKED, strip, render);
    ReplayThen([] + [ASKED], DONE, strip, render);
    ReplayThen([] + [ASKED] + [DONE], ASKED, strip, render);
    ReplayThen([] + [ASKED] + [DONE] + [ASKED], DONE, strip, render);
    ReplayThen([] + [ASKED] + [DONE] + [ASKED] + [DONE], ASKED, strip, render);
    ReplayThen([] + [ASKED] + [DONE] + [ASKED] + [DONE] + [ASKED], SAID, strip, render);
    ReplayThen([] + [ASKED] + [DONE] + [ASKED] + [DONE] + [ASKED] + [SAID], ASKED, strip, render);
    ReplaySpoken(strip, render);
    ReplayCalled(strip, render);
  }

  /** And results do come to stand there: a run that goes on from this history, when it is long enough for a
      compaction, sends at once a request without the calls of its first results, whichever cut comes last. */
  lemma ResultsCanBeOrphaned(z: Sizing, strip: string -> string, render: Record -> string, r: Round)
    requires (forall t :: strip(t) == t) && z.estimate(Replayed(render)) >= AtLeastOne(z.window * 80 / 100)
    requires |r.outcomes| == |r.calls| && !r.stopBefore && r.injectedBefore == []
    ensures var requests := Requests(Anthropic, z, Talk(Started(Anthropic, ReplayAll(HISTORY, strip, render)), 0), [r]);
            |requests| > 0 && !BlockPaired(requests[0])
  {
    hide Compacted, KeptFrom, PairedFrom, Answered;
    ReplayedHistory(strip, render);
    ReplayBlockPaired(HISTORY, strip, render);
    var ms := Replayed(render);
    assert FirstCut(ms) == 3;
    CompactionKeepsResultsIff(z, ms, 1);
    assert ms[3].Blocks? && ms[7].Blocks?;
  }

  /** The requests still to come once the first round's has been sent. */
  function Later(f: Format, z: Sizing, talk: Talk, rounds: seq<Round>): seq<seq<Msg>>
    requires rounds != [] && forall r <- rounds :: |r.outcomes| == |r.calls|
  {
    if GoesOn(rounds[0]) then Requests(f, z, Answered(f, z, Asked(f, z, talk, rounds[0]), rounds[0]), rounds[1..]) else []
  }

  lemma FirstRequest(f: Format, z: Sizing, talk: Talk, rounds: seq<Round>)
    requires rounds != [] && forall r <- rounds :: |r.outcomes| == |r.calls|
    ensures Requests(f, z, talk, rounds) ==
            if rounds[0].stopBefore then [] else [Asked(f, z, talk, rounds[0]).messages] + Later(f, z, talk, rounds)
  {
    hide Answered, Asked;
  }

  lemma RequestSent(f: Format, z: Sizing, talk: Talk, rounds: seq<Round>, sent: seq<seq<Msg>>)
    requires rounds != [] && forall r <- rounds :: |r.outcomes| == |r.calls|
    ensures rounds[0].stopBefore ==> sent + Requests(f, z, talk, rounds) == sent
    ensures !rounds[0].stopBefore ==>
              sent + Requests(f, z, talk, rounds) == (sent + [Asked(f, z, talk, rounds[0]).messages]) + Later(f, z, talk, rounds)
  {
    FirstRequest(f, z, talk, rounds);
    hide *;
    assert sent + [] == sent;
    Regroup(sent, Asked(f, z, talk, rounds[0]).messages, Later(f, z, talk, rounds));
  }

  lemma Regroup<T>(a: seq<T>, x: T, b: seq<T>)
    ensures a + ([x] + b) == (a + [x]) + b
  {
  }

  class AgentConversation {
    const f: Format
    const z: Sizing
    var messages: seq<Msg>
    var compactCount: nat
    /** The message lists sent to the model so far. */
    ghost var requests: seq<seq<Msg>>

    constructor (f: Format, z: Sizing, history: seq<Msg>)
      ensures this.f == f && this.z == z && messages == Started(f, history) && compactCount == 0 && requests == []
    {
      this.f, this.z, messages, compactCount, requests := f, z, Started(f, history), 0, [];
    }

    ghost function Now(): Talk
      reads this
    {
      Talk(messages, compactCount)
    }

    method PushUserMessage(text: string)
      modifies `messages
      ensures messages == PushedUser(f, old(messages), text)
    {
      var n := |messages|;
      if f.Anthropic? && n > 0 && (messages[n - 1].User? || messages[n - 1].Blocks?) {
        messages := messages[..n - 1] + [WithText(messages[n - 1], text)];
      } else {
        messages := messages + [User(text)];
      }
    }

    method PushUserMessages(texts: seq<string>)
      modifies `messages
      ensures messages == PushedUsers(f, old(messages), texts)
    {
      hide PushedUser;
      var i := 0;
      while i < |texts|
        invariant 0 <= i <= |texts|
        invariant messages == PushedUsers(f, old(messages), texts[..i])
      {
        assert texts[..i + 1][..i] == texts[..i];
        PushUserMessage(texts[i]);
        i := i + 1;
      }
      assert texts[..|texts|] == texts;
    }

    method PushAssistantTurn(text: string, calls: seq<Call>)
      modifies `messages
      ensures messages == old(messages) + [Assistant(text, calls)]
    {
      messages := messages + [Assistant(text, calls)];
    }

    method PushToolResults(calls: seq<Call>, outcomes: seq<string>)
      requires |calls| == |outcomes|
      modifies `messages
      ensures messages == old(messages) + ResultsOf(f, calls, outcomes)
    {
      if f.Anthropic? {
        messages := messages + [Blocks(ResultsFor(calls, outcomes), [])];
        return;
      }
      var i := 0;
      while i < |calls|
        invariant 0 <= i <= |calls|
        invariant messages == old(messages) + Outcomes(calls, outcomes)[..i]
      {
        messages := messages + [Tool(calls[i].id, outcomes[i])];
        i := i + 1;
      }
      assert Outcomes(calls, outcomes)[..|calls|] == Outcomes(calls, outcomes);
    }

    method SkipToolResults(from: nat) returns (cut: nat)
      requires from <= |messages|
      ensures cut == SkipTools(messages, from)
    {
      cut := from;
      while cut < |messages| && messages[cut].Tool?
        invariant from <= cut <= |messages|
        invariant SkipTools(messages, cut) == SkipTools(messages, from)
      {
        cut := cut + 1;
      }
    }

    /** The second cut, when the first one has not brought the estimate down far enough. */
    method CompactTail()
      modifies `messages
      ensures messages == if SecondCut(z, old(messages)) then CutAt(z, old(messages), SkipTools(old(messages), |old(messages)| - 4), compactCount)
                          else old(messages)
    {
      if z.estimate(messages) > AtLeastOne(z.window * 60 / 100) && |messages| > 4 {
        var additionalEnd := SkipToolResults(|messages| - 4);
        if additionalEnd > 1 {
          messages := CutAt(z, messages, additionalEnd, compactCount);
        }
      }
    }

    method CompactIfNeeded(force: bool) returns (did: bool)
      modifies `messages, `compactCount
      ensures did <==> Wanted(z, old(messages), force)
      ensures did <==>
              && (force || z.estimate(old(messages)) >= ShareOfWindow(z, 80))
              && |old(messages)| > 4 && (|old(messages)| > 8 || old(messages)[0].Tool?)
      ensures compactCount == old(compactCount) + (if did then 1 else 0) && (!did ==> messages == old(messages))
      ensures Now() == Compaction(z, old(Now()), force)
    {
      WantedMeans(z, messages, force);
      hide SkipTools, SecondCut, CutAt, ShareOfWindow;
      var estimated := z.estimate(messages);
      if !force && estimated < AtLeastOne(z.window * 80 / 100) {
        return false;
      }
      if |messages| <= 4 {
        return false;
      }
      var keep := if |messages| <= 8 then |messages| else 8;
      var removeUntil := SkipToolResults(|messages| - keep);
      if removeUntil == 0 {
        return false;
      }
      compactCount := compactCount + 1;
      messages := CutAt(z, messages, removeUntil, compactCount);
      CompactTail();
      return true;
    }

    ghost method Request()
      modifies `requests
      ensures requests == old(requests) + [messages]
    {
      requests := requests + [messages];
    }

    /** The part of a round after its request. */
    method FinishRound(r: Round) returns (goesOn: bool)
      requires |r.outcomes| == |r.calls|
      modifies `messages, `compactCount
      ensures goesOn == GoesOn(r)
      ensures goesOn ==> Now() == Answered(f, z, old(Now()), r)
      ensures compactCount != old(compactCount) ==> !r.preempted && exists c <- r.calls :: c.name == "compact_context"
      ensures goesOn && !r.preempted && (exists c <- r.calls :: c.name == "compact_context") && |old(messages)| >= 7 ==>
                compactCount == old(compactCount) + 1
    {
      if r.preempted {
        assert messages + [] == messages;
        if !Blank(r.text) {
          PushAssistantTurn(r.text, []);
        }
        PushUserMessages(r.injectedAfter);
        return true;
      }
      if r.stopAfter {
        return false;
      }
      ghost var start := messages;
      PushAssistantTurn(r.text, r.calls);
      if r.calls == [] {
        if r.injectedAfter == [] {
          return false;
        }
        PushUserMessages(r.injectedAfter);
        return true;
      }
      if r.stopInTools {
        return false;
      }
      PushToolResults(r.calls, r.outcomes);
      assert messages == start + ([Assistant(r.text, r.calls)] + ResultsOf(f, r.calls, r.outcomes));
      if exists c <- r.calls :: c.name == "compact_context" {
        var _ := CompactIfNeeded(true);
      }
      return true;
    }

    /** The run's loop over whatever rounds it meets. */
    method RunAgent(rounds: seq<Round>)
      requires forall r <- rounds :: |r.outcomes| == |r.calls|
      modifies this
      ensures requests == old(requests) + Requests(f, z, old(Now()), rounds)
    {
      hide Compaction, Answered, Requests;
      ghost var all := Requests(f, z, Now(), rounds);
      ghost var sent := [];
      assert rounds[0..] == rounds && sent + all == all;
      for k := 0 to |rounds|
        invariant requests == old(requests) + sent
        invariant sent + Requests(f, z, Now(), rounds[k..]) == all
      {
        var r := rounds[k];
        ghost var talk, rest := Now(), rounds[k..];
        assert rest[0] == r && rest[1..] == rounds[k + 1..];
        RequestSent(f, z, talk, rest, sent);
        if r.stopBefore {
          return;
        }
        PushUserMessages(r.injectedBefore);
        var _ := CompactIfNeeded(false);
        Request();
        sent := sent + [messages];
        var goesOn := FinishRound(r);
        if !goesOn {
          assert sent + [] == sent;
          return;
        }
      }
      assert rounds[|rounds|..] == [];
      NothingLeft(f, z, Now(), sent);
    }
  }

  lemma NothingLeft(f: Format, z: Sizing, talk: Talk, sent: seq<seq<Msg>>)
    ensures sent + Requests(f, z, talk, []) == sent
  {
  }
}
