/** Turning matches in a file into the lines to show, and results into pages. */
module SearchLines {
  import opened Wrappers

  // ----- the line table -----

  /** Where line `k` starts, from the lengths of the lines with their line ends. */
  function Offset(lengths: seq<nat>, k: nat): nat
    requires k <= |lengths|
  {
    if k == 0 then 0 else Offset(lengths, k - 1) + lengths[k - 1]
  }

  predicate Lengths(lengths: seq<nat>) {
    forall i :: 0 <= i < |lengths| ==> lengths[i] > 0
  }

  method LineTable(lengths: seq<nat>) returns (starts: seq<nat>)
    ensures |starts| == |lengths| && forall k :: 0 <= k < |lengths| ==> starts[k] == Offset(lengths, k)
  {
    starts := [];
    var position := 0;
    for i := 0 to |lengths|
      invariant |starts| == i && position == Offset(lengths, i)
      invariant forall k :: 0 <= k < i ==> starts[k] == Offset(lengths, k)
    {
      starts := starts + [position];
      position := position + lengths[i];
    }
  }

  /** How many of the starts, which ascend, are at or before `offset`. */
  function PartitionPoint(starts: seq<nat>, offset: nat): (n: nat)
    ensures n <= |starts| && (forall i :: 0 <= i < n ==> starts[i] <= offset) && (n < |starts| ==> starts[n] > offset)
  {
    if starts == [] || starts[0] > offset then 0 else 1 + PartitionPoint(starts[1..], offset)
  }

  function LineAt(starts: seq<nat>, offset: nat): nat {
    var n := PartitionPoint(starts, offset);
    if n == 0 then 0 else n - 1
  }

  datatype Match = Match(start: nat, end: nat)

  predicate Within(m: Match, lengths: seq<nat>) {
    m.start <= m.end <= Offset(lengths, |lengths|)
  }

  /** The match has a character in line `k`; an empty match is in the line of its place, or in the last
      line if it is at the end of the text. */
  predicate Overlaps(m: Match, lengths: seq<nat>, k: nat)
    requires k < |lengths|
  {
    var lo, hi := Offset(lengths, k), Offset(lengths, k + 1);
    if m.start < m.end then m.start < hi && lo < m.end
    else lo <= m.start && (m.start < hi || k == |lengths| - 1)
  }

  lemma {:induction false} OffsetsAscend(lengths: seq<nat>, i: nat, j: nat)
    requires Lengths(lengths) && i <= j <= |lengths|
    ensures i < j ==> Offset(lengths, i) < Offset(lengths, j)
  {
    if i < j {
      OffsetsAscend(lengths, i, j - 1);
    }
  }

  /** The lookup finds the last line that starts at or before the offset. */
  lemma LineAtIs(lengths: seq<nat>, starts: seq<nat>, offset: nat, k: nat)
    requires Lengths(lengths) && k < |lengths| && |starts| == |lengths|
    requires forall i :: 0 <= i < |lengths| ==> starts[i] == Offset(lengths, i)
    ensures var line := LineAt(starts, offset);
            line < |lengths| && (k <= line <==> Offset(lengths, k) <= offset)
  {
    var n := PartitionPoint(starts, offset);
    assert starts[0] == Offset(lengths, 0) == 0;
    assert n > 0;
    if k < n {
      assert starts[k] <= offset;
    } else {
      OffsetsAscend(lengths, n, k);
      assert starts[n] > offset && starts[k] >= starts[n];
    }
  }

  function FirstLine(m: Match, starts: seq<nat>): nat {
    LineAt(starts, m.start)
  }

  function LastLine(m: Match, starts: seq<nat>): nat {
    LineAt(starts, if m.end > 0 && m.end - 1 > m.start then m.end - 1 else m.start)
  }

  /** The same of the first and the last line of a match. */
  lemma MatchedLines(m: Match, lengths: seq<nat>, starts: seq<nat>, k: nat)
    requires Lengths(lengths) && k < |lengths| && |starts| == |lengths|
    requires forall i :: 0 <= i < |lengths| ==> starts[i] == Offset(lengths, i)
    ensures FirstLine(m, starts) < |lengths| && LastLine(m, starts) < |lengths|
    ensures k <= FirstLine(m, starts) <==> Offset(lengths, k) <= m.start
    ensures k <= LastLine(m, starts) <==> Offset(lengths, k) <= if m.end > 0 && m.end - 1 > m.start then m.end - 1 else m.start
  {
    hide LineAt, Lengths, Offset;
    LineAtIs(lengths, starts, m.start, k);
    LineAtIs(lengths, starts, if m.end > 0 && m.end - 1 > m.start then m.end - 1 else m.start, k);
  }

  /** The lines from the first to the last of a match are exactly those it overlaps. */
  lemma MarkedLinesOverlap(m: Match, lengths: seq<nat>, starts: seq<nat>, k: nat)
    requires Lengths(lengths) && k < |lengths| && |starts| == |lengths| && Within(m, lengths)
    requires forall i :: 0 <= i < |lengths| ==> starts[i] == Offset(lengths, i)
    ensures FirstLine(m, starts) <= k <= LastLine(m, starts) <==> Overlaps(m, lengths, k)
    ensures FirstLine(m, starts) <= LastLine(m, starts) < |lengths|
    ensures FirstLine(m, starts) == k ==> starts[k] <= m.start
    ensures Overlaps(m, lengths, k) && FirstLine(m, starts) != k ==> m.start < starts[k]
  {
    hide FirstLine, LastLine, Lengths, Offset;
    MatchedLines(m, lengths, starts, k);
    MatchedLines(m, lengths, starts, FirstLine(m, starts));
    if k + 1 < |lengths| {
      MatchedLines(m, lengths, starts, k + 1);
    }
  }

  // ----- the lines to show -----

  /** The column of the first match in the line: where the match starts, or 1 if it started before. */
  function Column(ms: seq<Match>, lengths: seq<nat>, k: nat): Option<nat>
    requires k < |lengths|
  {
    if ms == [] then None
    else
      var earlier := Column(ms[..|ms| - 1], lengths, k);
      var m := ms[|ms| - 1];
      if earlier.Some? || !Overlaps(m, lengths, k) then earlier
      else Some(if m.start < Offset(lengths, k) then 1 else m.start - Offset(lengths, k) + 1)
  }

  predicate HasMatch(ms: seq<Match>, lengths: seq<nat>, k: nat)
    requires k < |lengths|
  {
    exists m <- ms :: Overlaps(m, lengths, k)
  }

  lemma {:induction false} ColumnMeansMatch(ms: seq<Match>, lengths: seq<nat>, k: nat)
    requires k < |lengths|
    ensures Column(ms, lengths, k).Some? <==> HasMatch(ms, lengths, k)
  {
    hide Overlaps;
    if ms != [] {
      var n := |ms| - 1;
      ColumnMeansMatch(ms[..n], lengths, k);
      assert ms == ms[..n] + [ms[n]];
    }
  }

  /** The first match that overlaps the line, of all the matches in order. */
  predicate FirstMatch(ms: seq<Match>, lengths: seq<nat>, k: nat, j: nat)
    requires k < |lengths|
  {
    j < |ms| && Overlaps(ms[j], lengths, k) && forall i :: 0 <= i < j ==> !Overlaps(ms[i], lengths, k)
  }

  /** The column of a line is where its first match starts in it, counted from 1, or 1 if that starts before. */
  lemma {:induction false} ColumnOfFirst(ms: seq<Match>, lengths: seq<nat>, k: nat, j: nat)
    requires k < |lengths| && FirstMatch(ms, lengths, k, j)
    ensures Column(ms, lengths, k).Some?
    ensures var column, start := Column(ms, lengths, k).value, Offset(lengths, k);
            (ms[j].start >= start ==> start + column == ms[j].start + 1) && (ms[j].start < start ==> column == 1)
  {
    hide Overlaps;
    var n := |ms| - 1;
    if j < n {
      ColumnOfFirst(ms[..n], lengths, k, j);
    } else {
      if Column(ms[..n], lengths, k).Some? {
        ColumnMeansMatch(ms[..n], lengths, k);
        assert false;
      }
    }
  }

  datatype Entry = Entry(line: nat, column: Option<nat>)

  /** Line `k` is within the context of one of the first `upTo` lines, and that one has a match. */
  predicate ShownBy(ms: seq<Match>, lengths: seq<nat>, before: nat, after: nat, k: nat, upTo: nat)
    requires upTo <= |lengths|
  {
    upTo > 0 && (ShownBy(ms, lengths, before, after, k, upTo - 1)
                 || (Column(ms, lengths, upTo - 1).Some? && upTo - 1 <= k + before && k <= upTo - 1 + after))
  }

  lemma {:induction false} ShownMeansNear(ms: seq<Match>, lengths: seq<nat>, before: nat, after: nat, k: nat, upTo: nat)
    requires upTo <= |lengths|
    ensures ShownBy(ms, lengths, before, after, k, upTo) <==>
            exists j :: 0 <= j < upTo && j <= k + before && k <= j + after && HasMatch(ms, lengths, j)
  {
    hide HasMatch, Column;
    if upTo > 0 {
      ShownMeansNear(ms, lengths, before, after, k, upTo - 1);
      ColumnMeansMatch(ms, lengths, upTo - 1);
    }
  }

  /** The entries for the first `upTo` lines. */
  function Emitted(ms: seq<Match>, lengths: seq<nat>, before: nat, after: nat, upTo: nat): seq<Entry>
    requires upTo <= |lengths|
  {
    if upTo == 0 then []
    else
      Emitted(ms, lengths, before, after, upTo - 1)
      + if ShownBy(ms, lengths, before, after, upTo - 1, |lengths|) then [Entry(upTo, Column(ms, lengths, upTo - 1))] else []
  }

  lemma EmittedLast(ms: seq<Match>, lengths: seq<nat>, before: nat, after: nat, upTo: nat)
    requires 0 < upTo <= |lengths|
    ensures var rest := Emitted(ms, lengths, before, after, upTo - 1);
            Emitted(ms, lengths, before, after, upTo) ==
            if ShownBy(ms, lengths, before, after, upTo - 1, |lengths|) then rest + [Entry(upTo, Column(ms, lengths, upTo - 1))] else rest
  {
  }

  lemma {:induction false} EmittedAscends(ms: seq<Match>, lengths: seq<nat>, before: nat, after: nat, upTo: nat)
    requires upTo <= |lengths|
    ensures var entries := Emitted(ms, lengths, before, after, upTo);
            && (forall i :: 0 <= i < |entries| ==> 1 <= entries[i].line <= upTo)
            && (forall i, j :: 0 <= i < j < |entries| ==> entries[i].line < entries[j].line)
  {
    hide Column, ShownBy;
    if upTo > 0 {
      EmittedAscends(ms, lengths, before, after, upTo - 1);
      EmittedLast(ms, lengths, before, after, upTo);
    }
  }

  lemma {:induction false} EmittedColumns(ms: seq<Match>, lengths: seq<nat>, before: nat, after: nat, upTo: nat, k: nat)
    requires k < upTo <= |lengths|
    ensures Entry(k + 1, Column(ms, lengths, k)) in Emitted(ms, lengths, before, after, upTo) <==>
            ShownBy(ms, lengths, before, after, k, |lengths|)
    ensures forall e <- Emitted(ms, lengths, before, after, upTo) :: e.line == k + 1 ==> e.column == Column(ms, lengths, k)
  {
    hide Column, ShownBy;
    EmittedAscends(ms, lengths, before, after, upTo - 1);
    var rest := Emitted(ms, lengths, before, after, upTo - 1);
    EmittedLast(ms, lengths, before, after, upTo);
    forall e <- rest ensures e.line <= upTo - 1 {
      var i :| 0 <= i < |rest| && rest[i] == e;
    }
    if k < upTo - 1 {
      EmittedColumns(ms, lengths, before, after, upTo - 1, k);
    }
  }

  /** The entries ascend without a line twice; a line is among them exactly when it is within the context
      of a line that a match overlaps, and has a column exactly when a match overlaps it. */
  lemma EmittedMeans(ms: seq<Match>, lengths: seq<nat>, before: nat, after: nat, k: nat)
    requires k < |lengths|
    ensures var entries := Emitted(ms, lengths, before, after, |lengths|);
            && (forall i, j :: 0 <= i < j < |entries| ==> entries[i].line < entries[j].line)
            && ((exists e <- entries :: e.line == k + 1) <==>
                exists j :: 0 <= j < |lengths| && j <= k + before && k <= j + after && HasMatch(ms, lengths, j))
            && (forall e <- entries :: e.line == k + 1 ==> (e.column.Some? <==> HasMatch(ms, lengths, k)))
            && (forall e <- entries, j: nat :: e.line == k + 1 && FirstMatch(ms, lengths, k, j) ==>
                  e.column == Some(if ms[j].start < Offset(lengths, k) then 1 else ms[j].start - Offset(lengths, k) + 1))
  {
    hide Column, ShownBy, HasMatch, Emitted, Overlaps, Offset;
    forall j: nat | FirstMatch(ms, lengths, k, j)
      ensures Column(ms, lengths, k) == Some(if ms[j].start < Offset(lengths, k) then 1 else ms[j].start - Offset(lengths, k) + 1)
    {
      ColumnOfFirst(ms, lengths, k, j);
    }
    EmittedAscends(ms, lengths, before, after, |lengths|);
    EmittedColumns(ms, lengths, before, after, |lengths|, k);
    ColumnMeansMatch(ms, lengths, k);
    ShownMeansNear(ms, lengths, before, after, k, |lengths|);
    assert forall e <- Emitted(ms, lengths, before, after, |lengths|) :: e.line == k + 1 ==> e == Entry(k + 1, Column(ms, lengths, k));
  }

  method AppendTextMatches(lengths: seq<nat>, ms: seq<Match>, before: nat, after: nat) returns (entries: seq<Entry>)
    requires Lengths(lengths) && forall m <- ms :: Within(m, lengths)
    ensures entries == Emitted(ms, lengths, before, after, |lengths|)
  {
    hide Overlaps, Column, Lengths;
    if lengths == [] {
      return [];
    }
    var starts := LineTable(lengths);
    var matches := MarkLines(lengths, starts, ms);
    var visible: set<nat> := {};
    for k := 0 to |lengths|
      invariant forall v: nat :: v in visible <==> v < |lengths| && ShownBy(ms, lengths, before, after, v, k)
    {
      if k in matches {
        var last := if k + after < |lengths| then k + after else |lengths| - 1;
        visible := visible + Interval(if k < before then 0 else k - before, last + 1);
      }
      assert Column(ms, lengths, k).Some? <==> k in matches;
    }
    entries := [];
    for k := 0 to |lengths|
      invariant entries == Emitted(ms, lengths, before, after, k)
    {
      if k in visible {
        entries := entries + [Entry(k + 1, if k in matches then Some(matches[k]) else None)];
      }
    }
  }

  function Interval(lo: nat, hi: nat): (w: set<nat>)
    ensures forall v :: v in w <==> lo <= v < hi
  {
    if hi <= lo then {} else Interval(lo, hi - 1) + {hi - 1}
  }

  /** The map holds the column of every line with a match. */
  predicate Holds(matches: map<nat, nat>, ms: seq<Match>, lengths: seq<nat>) {
    forall k :: 0 <= k < |lengths| ==> Column(ms, lengths, k) == if k in matches then Some(matches[k]) else None
  }

  method MarkLines(lengths: seq<nat>, starts: seq<nat>, ms: seq<Match>) returns (matches: map<nat, nat>)
    requires Lengths(lengths) && lengths != [] && |starts| == |lengths| && forall m <- ms :: Within(m, lengths)
    requires forall i :: 0 <= i < |lengths| ==> starts[i] == Offset(lengths, i)
    ensures Holds(matches, ms, lengths)
  {
    hide Overlaps, LineAt, Lengths, Holds;
    matches := map[];
    assert Holds(matches, ms[..0], lengths) by {
      HoldsNone(lengths);
    }
    for i := 0 to |ms|
      invariant Holds(matches, ms[..i], lengths)
    {
      MarkedLinesOverlap(ms[i], lengths, starts, 0);
      ghost var was := matches;
      matches := MarkMatch(ms[i], starts, matches);
      HoldsMore(was, matches, ms[..i], ms[i], lengths, starts);
      assert ms[..i + 1] == ms[..i] + [ms[i]];
    }
    assert ms[..|ms|] == ms;
  }

  /** Each line of one match, unless an earlier match has marked it. */
  ghost predicate Marks(was: map<nat, nat>, now: map<nat, nat>, m: Match, starts: seq<nat>) {
    && LastLine(m, starts) < |starts|
    && (forall k :: k in now <==> k in was || FirstLine(m, starts) <= k <= LastLine(m, starts))
    && (forall k <- was :: k in now && now[k] == was[k])
    && (forall k :: FirstLine(m, starts) <= k <= LastLine(m, starts) && k !in was ==>
          now[k] == if k == FirstLine(m, starts) then ColumnIn(m, starts, k) else 1)
  }

  function ColumnIn(m: Match, starts: seq<nat>, k: nat): nat
    requires k < |starts|
  {
    if starts[k] <= m.start then m.start - starts[k] + 1 else 1
  }

  method MarkMatch(m: Match, starts: seq<nat>, was: map<nat, nat>) returns (matches: map<nat, nat>)
    requires FirstLine(m, starts) <= LastLine(m, starts) < |starts|
    ensures Marks(was, matches, m, starts)
  {
    var first, last := FirstLine(m, starts), LastLine(m, starts);
    hide FirstLine, LastLine, ColumnIn;
    matches := was;
    for index := first to last + 1
      invariant forall k :: k in matches <==> k in was || first <= k < index
      invariant forall k <- was :: k in matches && matches[k] == was[k]
      invariant forall k :: first <= k < index && k !in was ==> matches[k] == if k == first then ColumnIn(m, starts, k) else 1
    {
      if index !in matches {
        matches := matches[index := if index == first then ColumnIn(m, starts, index) else 1];
      }
    }
  }

  lemma HoldsNone(lengths: seq<nat>)
    ensures Holds(map[], [], lengths)
  {
  }

  lemma ColumnThen(ms: seq<Match>, m: Match, lengths: seq<nat>, k: nat)
    requires k < |lengths|
    ensures Column(ms + [m], lengths, k) ==
            if Column(ms, lengths, k).Some? || !Overlaps(m, lengths, k) then Column(ms, lengths, k)
            else Some(if m.start < Offset(lengths, k) then 1 else m.start - Offset(lengths, k) + 1)
  {
    assert (ms + [m])[..|ms|] == ms;
  }

  lemma HoldsMore(was: map<nat, nat>, now: map<nat, nat>, ms: seq<Match>, m: Match, lengths: seq<nat>, starts: seq<nat>)
    requires Lengths(lengths) && |starts| == |lengths| && Within(m, lengths)
    requires forall i :: 0 <= i < |lengths| ==> starts[i] == Offset(lengths, i)
    requires Holds(was, ms, lengths) && Marks(was, now, m, starts)
    ensures Holds(now, ms + [m], lengths)
  {
    hide Overlaps, Column, LineAt, Lengths, FirstLine, LastLine;
    forall k | 0 <= k < |lengths| ensures Column(ms + [m], lengths, k) == if k in now then Some(now[k]) else None {
      MarkedLinesOverlap(m, lengths, starts, k);
      ColumnThen(ms, m, lengths, k);
      assert Column(ms, lengths, k) == if k in was then Some(was[k]) else None;
    }
  }

  // ----- pages -----

  datatype Page<T> = Page(entries: seq<T>, nextOffset: Option<nat>)

  function PageAt<T>(all: seq<T>, offset: nat, limit: nat): Page<T> {
    var end := if limit == 0 then |all| else if offset + limit < |all| then offset + limit else |all|;
    var from := if offset < |all| then offset else |all|;
    var taken := if end < from then 0 else end - from;
    Page(all[from..][..taken], if end < |all| then Some(end) else None)
  }

  /** All entries seen by following the offset of the next page. */
  function Following<T>(all: seq<T>, offset: nat, limit: nat): seq<T>
    decreases |all| - offset
  {
    var page := PageAt(all, offset, limit);
    if page.nextOffset.None? then page.entries else page.entries + Following(all, page.nextOffset.value, limit)
  }

  /** Following the pages ends, and shows everything from the first offset on, in order and once, however
      large a page is; with limit 0 it takes one page. */
  lemma {:induction false} PagesShowEverything<T>(all: seq<T>, offset: nat, limit: nat)
    ensures Following(all, offset, limit) == if offset < |all| then all[offset..] else []
    ensures limit == 0 ==> PageAt(all, offset, limit) == Page(if offset < |all| then all[offset..] else [], None)
    decreases |all| - offset
  {
    var page := PageAt(all, offset, limit);
    if page.nextOffset.Some? {
      var end := page.nextOffset.value;
      PagesShowEverything(all, end, limit);
      assert all[offset..] == all[offset..][..end - offset] + all[end..];
    }
  }

  /** A page has as many entries as asked for, or all there are from the offset on, and names the next offset
      exactly when there are more. */
  lemma PageHolds<T>(all: seq<T>, offset: nat, limit: nat)
    requires limit > 0
    ensures var page := PageAt(all, offset, limit);
            && |page.entries| == (if offset + limit <= |all| then limit else if offset <= |all| then |all| - offset else 0)
            && (forall k :: 0 <= k < |page.entries| ==> page.entries[k] == all[offset + k])
            && page.nextOffset == if offset + limit < |all| then Some(offset + limit) else None
  {
  }
}
