/** The one-hunk line diff shown for a change of a file. */
module SimpleDiff {
  import opened Wrappers

  const CONTEXT := 3

  // ----- lines of a text -----

  function Split(text: string): (pieces: seq<string>)
    ensures pieces != []
  {
    if text == "" then [""]
    else
      var rest := Split(text[1..]);
      if text[0] == '\n' then [""] + rest else [[text[0]] + rest[0]] + rest[1..]
  }

  function Join(pieces: seq<string>): string
    requires pieces != []
  {
    if |pieces| == 1 then pieces[0] else pieces[0] + "\n" + Join(pieces[1..])
  }

  predicate EndsInNewline(text: string) {
    text != "" && text[|text| - 1] == '\n'
  }

  function DiffLines(text: string): seq<string> {
    if text == "" then []
    else
      var pieces := Split(text);
      if EndsInNewline(text) then pieces[..|pieces| - 1] else pieces
  }

  function WithoutFinalNewline(text: string): string {
    if EndsInNewline(text) then text[..|text| - 1] else text
  }

  lemma JoinAfterNewline(rest: seq<string>)
    requires rest != []
    ensures Join([""] + rest) == "\n" + Join(rest)
  {
    assert ([""] + rest)[1..] == rest;
  }

  lemma JoinPrepended(c: char, rest: seq<string>)
    requires rest != []
    ensures Join([[c] + rest[0]] + rest[1..]) == [c] + Join(rest)
  {
    var pieces := [[c] + rest[0]] + rest[1..];
    assert pieces[1..] == rest[1..];
    if |rest| > 1 {
      assert [c] + rest[0] + "\n" + Join(rest[1..]) == [c] + (rest[0] + "\n" + Join(rest[1..]));
    }
  }

  lemma {:induction false} SplitJoins(text: string)
    ensures Join(Split(text)) == text
  {
    hide Join;
    if text == "" {
      JoinOne("");
    } else {
      SplitJoins(text[1..]);
      assert text == [text[0]] + text[1..];
      JoinAfterNewline(Split(text[1..]));
      JoinPrepended(text[0], Split(text[1..]));
    }
  }

  lemma JoinOne(piece: string)
    ensures Join([piece]) == piece
  {
  }

  lemma {:induction false} SplitOfLine(text: string)
    ensures Split(text + "\n") == Split(text) + [""]
  {
    if text == "" {
      assert ("" + "\n")[1..] == "";
    } else {
      SplitOfLine(text[1..]);
      assert (text + "\n")[1..] == text[1..] + "\n";
    }
  }

  lemma LinesAreSplit(text: string)
    requires text != ""
    ensures DiffLines(text) == Split(WithoutFinalNewline(text))
  {
    if EndsInNewline(text) {
      var stem := text[..|text| - 1];
      assert text == stem + "\n";
      SplitOfLine(stem);
    }
  }

  /** Two texts have the same lines, and so no diff, exactly when they are the same but for one final
      newline and both or neither are empty. */
  lemma SameLinesIff(a: string, b: string)
    ensures DiffLines(a) == DiffLines(b) <==> WithoutFinalNewline(a) == WithoutFinalNewline(b) && (a == "" <==> b == "")
  {
    if a != "" {
      LinesAreSplit(a);
      SplitJoins(WithoutFinalNewline(a));
    }
    if b != "" {
      LinesAreSplit(b);
      SplitJoins(WithoutFinalNewline(b));
    }
  }

  // ----- hunks -----

  datatype Line<T> = Context(text: T) | Removed(text: T) | Added(text: T)

  /** Line numbers in the header count from one. */
  datatype Hunk<T> = Hunk(oldStart: nat, oldCount: nat, newStart: nat, newCount: nat, body: seq<Line<T>>)

  function OldSide<T>(body: seq<Line<T>>): seq<T> {
    if body == [] then [] else (if body[0].Added? then [] else [body[0].text]) + OldSide(body[1..])
  }

  function NewSide<T>(body: seq<Line<T>>): seq<T> {
    if body == [] then [] else (if body[0].Removed? then [] else [body[0].text]) + NewSide(body[1..])
  }

  function Turned<T>(l: Line<T>): Line<T> {
    match l
    case Context(t) => Context(t)
    case Removed(t) => Added(t)
    case Added(t) => Removed(t)
  }

  function TurnedAll<T>(body: seq<Line<T>>): (r: seq<Line<T>>)
    ensures |r| == |body| && forall i :: 0 <= i < |body| ==> r[i] == Turned(body[i])
  {
    seq(|body|, i requires 0 <= i < |body| => Turned(body[i]))
  }

  function Reversed<T>(h: Hunk<T>): Hunk<T> {
    Hunk(h.newStart, h.newCount, h.oldStart, h.oldCount, TurnedAll(h.body))
  }

  /** What a patch tool does with a hunk: the header must count the two sides, the old side must be there,
      and the new side takes its place. */
  function ApplyHunk<T(==)>(lines: seq<T>, h: Hunk<T>): Option<seq<T>> {
    var from := h.oldStart - 1;
    if h.oldStart == 0 || from + h.oldCount > |lines| then None
    else if h.oldCount != |OldSide(h.body)| || h.newCount != |NewSide(h.body)| then None
    else if lines[from..from + h.oldCount] != OldSide(h.body) then None
    else Some(lines[..from] + NewSide(h.body) + lines[from + h.oldCount..])
  }

  function Contexts<T>(lines: seq<T>): seq<Line<T>> {
    if lines == [] then [] else [Context(lines[0])] + Contexts(lines[1..])
  }

  function Removals<T>(lines: seq<T>): seq<Line<T>> {
    if lines == [] then [] else [Removed(lines[0])] + Removals(lines[1..])
  }

  function Additions<T>(lines: seq<T>): seq<Line<T>> {
    if lines == [] then [] else [Added(lines[0])] + Additions(lines[1..])
  }

  function Min(a: nat, b: nat): nat {
    if a < b then a else b
  }

  function ContextStart(prefix: nat): (start: nat)
    ensures start <= prefix
  {
    if prefix < CONTEXT then 0 else prefix - CONTEXT
  }

  /** The lines common to both versions at either end, and those between that differ. */
  datatype Parts<T> = Parts(prefix: seq<T>, removed: seq<T>, added: seq<T>, suffix: seq<T>)

  function OldLines<T>(p: Parts<T>): seq<T> {
    p.prefix + (p.removed + p.suffix)
  }

  function NewLines<T>(p: Parts<T>): seq<T> {
    p.prefix + (p.added + p.suffix)
  }

  /** Neither end can take in one more common line. */
  predicate Longest<T(==)>(p: Parts<T>) {
    p.removed != [] && p.added != [] ==>
      p.removed[0] != p.added[0] && p.removed[|p.removed| - 1] != p.added[|p.added| - 1]
  }

  /** Nor can the prefix, when nothing is removed or nothing is added. */
  predicate PrefixLongest<T(==)>(p: Parts<T>) {
    var a, b := p.removed + p.suffix, p.added + p.suffix;
    a != [] && b != [] ==> a[0] != b[0]
  }

  function HunkFor<T>(p: Parts<T>): Hunk<T> {
    var start, after := ContextStart(|p.prefix|), Min(CONTEXT, |p.suffix|);
    Hunk(start + 1, |p.prefix| + |p.removed| + after - start, start + 1, |p.prefix| + |p.added| + after - start,
         Contexts(p.prefix[start..]) + (Removals(p.removed) + (Additions(p.added) + Contexts(p.suffix[..after]))))
  }

  /** The hunk printed for changing lines `prefix` to `oldEnd` into lines `prefix` to `newEnd`. */
  function HunkAt<T>(old_: seq<T>, new_: seq<T>, prefix: nat, oldEnd: nat, newEnd: nat): Hunk<T>
    requires prefix <= oldEnd <= |old_| && prefix <= newEnd <= |new_|
  {
    var start := ContextStart(prefix);
    var oldStop, newStop := Min(oldEnd + CONTEXT, |old_|), Min(newEnd + CONTEXT, |new_|);
    Hunk(start + 1, oldStop - start, start + 1, newStop - start,
         Contexts(old_[start..prefix]) + (Removals(old_[prefix..oldEnd])
         + (Additions(new_[prefix..newEnd]) + Contexts(old_[oldEnd..oldStop]))))
  }

  lemma HunkOfParts<T>(old_: seq<T>, new_: seq<T>, prefix: nat, oldEnd: nat, newEnd: nat)
    requires prefix <= oldEnd <= |old_| && prefix <= newEnd <= |new_| && |old_| - oldEnd == |new_| - newEnd
    ensures HunkAt(old_, new_, prefix, oldEnd, newEnd) == HunkFor(PartsAt(old_, new_, prefix, oldEnd, newEnd))
  {
    hide Contexts, Removals, Additions;
    var start, oldStop := ContextStart(prefix), Min(oldEnd + CONTEXT, |old_|);
    assert old_[start..prefix] == old_[..prefix][start..];
    assert old_[oldEnd..oldStop] == old_[oldEnd..][..oldStop - oldEnd];
  }

  /** The hunk begins with the last lines that both versions begin with, at most three, ends with the first ones
      that both end with, and has between them first what is removed and then what is added. */
  predicate Shaped<T(==)>(h: Hunk<T>, p: Parts<T>) {
    var before := if |p.prefix| < 3 then |p.prefix| else 3;
    var after := if |p.suffix| < 3 then |p.suffix| else 3;
    var removed := before + |p.removed|;
    var added := removed + |p.added|;
    && h.oldStart == h.newStart == |p.prefix| - before + 1
    && |h.body| == added + after
    && (forall i :: 0 <= i < before ==> h.body[i] == Context(p.prefix[|p.prefix| - before + i]))
    && (forall i :: before <= i < removed ==> h.body[i] == Removed(p.removed[i - before]))
    && (forall i :: removed <= i < added ==> h.body[i] == Added(p.added[i - removed]))
    && (forall i :: added <= i < added + after ==> h.body[i] == Context(p.suffix[i - added]))
  }

  lemma {:induction false} MarkedAt<T>(lines: seq<T>)
    ensures |Contexts(lines)| == |Removals(lines)| == |Additions(lines)| == |lines|
    ensures forall i :: 0 <= i < |lines| ==> Contexts(lines)[i] == Context(lines[i])
    ensures forall i :: 0 <= i < |lines| ==> Removals(lines)[i] == Removed(lines[i])
    ensures forall i :: 0 <= i < |lines| ==> Additions(lines)[i] == Added(lines[i])
  {
    if lines != [] {
      MarkedAt(lines[1..]);
    }
  }

  lemma HunkShaped<T>(p: Parts<T>)
    ensures Shaped(HunkFor(p), p)
  {
    hide Contexts, Removals, Additions;
    var start, after := ContextStart(|p.prefix|), Min(CONTEXT, |p.suffix|);
    MarkedAt(p.prefix[start..]);
    MarkedAt(p.removed);
    MarkedAt(p.added);
    MarkedAt(p.suffix[..after]);
  }

  method Diff<T(==)>(old_: seq<T>, new_: seq<T>) returns (h: Hunk<T>, ghost p: Parts<T>)
    ensures OldLines(p) == old_ && NewLines(p) == new_ && Longest(p) && PrefixLongest(p)
    ensures h == HunkFor(p) && Shaped(h, p)
    ensures ApplyHunk(old_, h) == Some(new_) && ApplyHunk(new_, Reversed(h)) == Some(old_)
    ensures Marks(h.body) == ChangedLineCounts(old_, new_)
  {
    hide HunkAt, HunkFor, OldLines, NewLines, Longest, PrefixLongest, ApplyHunk, Marks, ChangedLineCounts, Shaped;
    var prefix := 0;
    while prefix < |old_| && prefix < |new_| && old_[prefix] == new_[prefix]
      invariant prefix <= |old_| && prefix <= |new_| && old_[..prefix] == new_[..prefix]
    {
      prefix := prefix + 1;
    }
    var oldEnd, newEnd := |old_|, |new_|;
    while oldEnd > prefix && newEnd > prefix && old_[oldEnd - 1] == new_[newEnd - 1]
      invariant prefix <= oldEnd <= |old_| && prefix <= newEnd <= |new_|
      invariant |old_| - oldEnd == |new_| - newEnd
      invariant old_[oldEnd..] == new_[newEnd..]
    {
      TailGrows(old_, oldEnd - 1);
      TailGrows(new_, newEnd - 1);
      oldEnd, newEnd := oldEnd - 1, newEnd - 1;
    }
    h := HunkAt(old_, new_, prefix, oldEnd, newEnd);
    p := PartsAt(old_, new_, prefix, oldEnd, newEnd);
    PartsAreLongest(old_, new_, prefix, oldEnd, newEnd);
    HunkOfParts(old_, new_, prefix, oldEnd, newEnd);
    HunkShaped(p);
    DiffRoundTrip(p);
    CountsAreMarks(p);
  }

  lemma TailGrows<T>(lines: seq<T>, i: nat)
    requires i < |lines|
    ensures lines[i..] == [lines[i]] + lines[i + 1..]
  {
  }

  function PartsAt<T>(old_: seq<T>, new_: seq<T>, prefix: nat, oldEnd: nat, newEnd: nat): Parts<T>
    requires prefix <= oldEnd <= |old_| && prefix <= newEnd <= |new_|
  {
    Parts(old_[..prefix], old_[prefix..oldEnd], new_[prefix..newEnd], old_[oldEnd..])
  }

  /** Where the two loops of the diff stop. */
  lemma PartsAreLongest<T>(old_: seq<T>, new_: seq<T>, prefix: nat, oldEnd: nat, newEnd: nat)
    requires prefix <= oldEnd <= |old_| && prefix <= newEnd <= |new_|
    requires old_[..prefix] == new_[..prefix] && old_[oldEnd..] == new_[newEnd..]
    requires prefix < |old_| && prefix < |new_| ==> old_[prefix] != new_[prefix]
    requires prefix < oldEnd && prefix < newEnd ==> old_[oldEnd - 1] != new_[newEnd - 1]
    ensures var p := PartsAt(old_, new_, prefix, oldEnd, newEnd);
            OldLines(p) == old_ && NewLines(p) == new_ && Longest(p) && PrefixLongest(p)
  {
    CutAt(old_, prefix, oldEnd);
    CutAt(new_, prefix, newEnd);
  }

  lemma CutAt<T>(lines: seq<T>, a: nat, b: nat)
    requires a <= b <= |lines|
    ensures lines == lines[..a] + (lines[a..b] + lines[b..])
    ensures lines[a..] == lines[a..b] + lines[b..]
  {
  }

  // ----- what a hunk does -----

  lemma {:induction false} OldSideOfConcat<T>(a: seq<Line<T>>, b: seq<Line<T>>)
    ensures OldSide(a + b) == OldSide(a) + OldSide(b)
  {
    if a == [] {
      assert a + b == b;
    } else {
      assert (a + b)[1..] == a[1..] + b;
      OldSideOfConcat(a[1..], b);
    }
  }

  lemma {:induction false} NewSideOfConcat<T>(a: seq<Line<T>>, b: seq<Line<T>>)
    ensures NewSide(a + b) == NewSide(a) + NewSide(b)
  {
    if a == [] {
      assert a + b == b;
    } else {
      assert (a + b)[1..] == a[1..] + b;
      NewSideOfConcat(a[1..], b);
    }
  }

  lemma SidesOfConcat<T>(a: seq<Line<T>>, b: seq<Line<T>>)
    ensures OldSide(a + b) == OldSide(a) + OldSide(b) && NewSide(a + b) == NewSide(a) + NewSide(b)
  {
    OldSideOfConcat(a, b);
    NewSideOfConcat(a, b);
  }

  lemma {:induction false} SidesOfContexts<T>(lines: seq<T>)
    ensures OldSide(Contexts(lines)) == lines && NewSide(Contexts(lines)) == lines
  {
    if lines != [] {
      SidesOfContexts(lines[1..]);
    }
  }

  lemma {:induction false} SidesOfRemovals<T>(lines: seq<T>)
    ensures OldSide(Removals(lines)) == lines && NewSide(Removals(lines)) == []
  {
    if lines != [] {
      SidesOfRemovals(lines[1..]);
    }
  }

  lemma {:induction false} SidesOfAdditions<T>(lines: seq<T>)
    ensures OldSide(Additions(lines)) == [] && NewSide(Additions(lines)) == lines
  {
    if lines != [] {
      SidesOfAdditions(lines[1..]);
    }
  }

  lemma {:induction false} TurnedSides<T>(body: seq<Line<T>>)
    ensures OldSide(TurnedAll(body)) == NewSide(body) && NewSide(TurnedAll(body)) == OldSide(body)
  {
    if body != [] {
      TurnedSides(body[1..]);
      assert TurnedAll(body)[1..] == TurnedAll(body[1..]);
    }
  }

  lemma HunkSides<T>(p: Parts<T>)
    ensures var h := HunkFor(p);
            var start, after := ContextStart(|p.prefix|), Min(CONTEXT, |p.suffix|);
            && OldSide(h.body) == p.prefix[start..] + (p.removed + p.suffix[..after])
            && NewSide(h.body) == p.prefix[start..] + (p.added + p.suffix[..after])
  {
    var start, after := ContextStart(|p.prefix|), Min(CONTEXT, |p.suffix|);
    var c, r, a, d := Contexts(p.prefix[start..]), Removals(p.removed), Additions(p.added), Contexts(p.suffix[..after]);
    SidesOfContexts(p.prefix[start..]);
    SidesOfRemovals(p.removed);
    SidesOfAdditions(p.added);
    SidesOfContexts(p.suffix[..after]);
    SidesOfConcat(a, d);
    SidesOfConcat(r, a + d);
    SidesOfConcat(c, r + (a + d));
    assert [] + p.suffix[..after] == p.suffix[..after];
    assert [] + (p.added + p.suffix[..after]) == p.added + p.suffix[..after];
  }

  lemma Around<T>(x: seq<T>, side: seq<T>, y: seq<T>, h: Hunk<T>)
    requires h.oldStart == |x| + 1 && h.oldCount == |OldSide(h.body)| && h.newCount == |NewSide(h.body)|
    ensures ApplyHunk(x + (OldSide(h.body) + y), h) == Some(x + (NewSide(h.body) + y))
  {
    var lines := x + (OldSide(h.body) + y);
    assert lines[..|x|] == x && lines[|x|..|x| + h.oldCount] == OldSide(h.body) && lines[|x| + h.oldCount..] == y;
    assert x + NewSide(h.body) + y == x + (NewSide(h.body) + y);
  }

  lemma Regroup<T>(p: seq<T>, m: seq<T>, s: seq<T>, start: nat, after: nat)
    requires start <= |p| && after <= |s|
    ensures p[..start] + ((p[start..] + (m + s[..after])) + s[after..]) == p + (m + s)
  {
    assert p == p[..start] + p[start..] && s == s[..after] + s[after..];
  }

  /** Applying the hunk to the old lines gives the new ones, applying it in reverse gives the old ones
      back, and the numbers in its header count the lines of its two sides. */
  lemma DiffRoundTrip<T>(p: Parts<T>)
    ensures var h := HunkFor(p);
            && h.oldCount == |OldSide(h.body)| && h.newCount == |NewSide(h.body)|
            && ApplyHunk(OldLines(p), h) == Some(NewLines(p)) && ApplyHunk(NewLines(p), Reversed(h)) == Some(OldLines(p))
  {
    var h := HunkFor(p);
    var start, after := ContextStart(|p.prefix|), Min(CONTEXT, |p.suffix|);
    HunkSides(p);
    TurnedSides(h.body);
    Regroup(p.prefix, p.removed, p.suffix, start, after);
    Regroup(p.prefix, p.added, p.suffix, start, after);
    hide OldSide, NewSide, ApplyHunk, TurnedAll;
    Around(p.prefix[..start], OldSide(h.body), p.suffix[after..], h);
    Around(p.prefix[..start], NewSide(h.body), p.suffix[after..], Reversed(h));
  }

  // ----- the counts -----

  function CommonPrefix<T(==)>(a: seq<T>, b: seq<T>): (n: nat)
    ensures n <= |a| && n <= |b|
  {
    if a == [] || b == [] || a[0] != b[0] then 0 else 1 + CommonPrefix(a[1..], b[1..])
  }

  function CommonSuffix<T(==)>(a: seq<T>, b: seq<T>): (n: nat)
    ensures n <= |a| && n <= |b|
  {
    if a == [] || b == [] || a[|a| - 1] != b[|b| - 1] then 0 else 1 + CommonSuffix(a[..|a| - 1], b[..|b| - 1])
  }

  /** The added and removed lines, counted by walking both texts from either end. */
  function ChangedLineCounts<T(==)>(old_: seq<T>, new_: seq<T>): (nat, nat) {
    var prefix := CommonPrefix(old_, new_);
    var suffix := CommonSuffix(old_[prefix..], new_[prefix..]);
    (|new_| - prefix - suffix, |old_| - prefix - suffix)
  }

  lemma {:induction false} PrefixIs<T>(common: seq<T>, a: seq<T>, b: seq<T>)
    requires a != [] && b != [] ==> a[0] != b[0]
    ensures CommonPrefix(common + a, common + b) == |common|
  {
    if common == [] {
      assert common + a == a && common + b == b;
    } else {
      PrefixIs(common[1..], a, b);
      assert (common + a)[1..] == common[1..] + a && (common + b)[1..] == common[1..] + b;
    }
  }

  lemma {:induction false} SuffixIs<T>(a: seq<T>, b: seq<T>, common: seq<T>)
    requires a != [] && b != [] ==> a[|a| - 1] != b[|b| - 1]
    ensures CommonSuffix(a + common, b + common) == |common|
    decreases |common|
  {
    if common == [] {
      assert a + common == a && b + common == b;
    } else {
      var n := |common| - 1;
      SuffixIs(a, b, common[..n]);
      assert (a + common)[..|a + common| - 1] == a + common[..n] && (b + common)[..|b + common| - 1] == b + common[..n];
    }
  }

  /** The lines marked as added and as removed. */
  function Marks<T>(body: seq<Line<T>>): (nat, nat) {
    if body == [] then (0, 0)
    else
      var (added, removed) := Marks(body[1..]);
      (added + if body[0].Added? then 1 else 0, removed + if body[0].Removed? then 1 else 0)
  }

  lemma {:induction false} MarksAreSides<T>(body: seq<Line<T>>)
    ensures Marks(body).0 + |OldSide(body)| == |body| && Marks(body).1 + |NewSide(body)| == |body|
  {
    if body != [] {
      MarksAreSides(body[1..]);
    }
  }

  lemma {:induction false} Lengths<T>(lines: seq<T>)
    ensures |Contexts(lines)| == |Removals(lines)| == |Additions(lines)| == |lines|
  {
    if lines != [] {
      Lengths(lines[1..]);
    }
  }

  /** The counts shown beside a change, found by another route, are the numbers of lines marked as added
      and removed in its diff. */
  lemma CountsAreMarks<T>(p: Parts<T>)
    requires Longest(p) && PrefixLongest(p)
    ensures ChangedLineCounts(OldLines(p), NewLines(p)) == Marks(HunkFor(p).body)
  {
    hide OldSide, NewSide, Marks, CommonPrefix, CommonSuffix, Contexts, Removals, Additions;
    PrefixIs(p.prefix, p.removed + p.suffix, p.added + p.suffix);
    assert OldLines(p)[|p.prefix|..] == p.removed + p.suffix && NewLines(p)[|p.prefix|..] == p.added + p.suffix;
    SuffixIs(p.removed, p.added, p.suffix);
    HunkSides(p);
    MarksAreSides(HunkFor(p).body);
    Lengths(p.prefix[ContextStart(|p.prefix|)..]);
    Lengths(p.removed);
    Lengths(p.added);
    Lengths(p.suffix[..Min(CONTEXT, |p.suffix|)]);
  }
}
