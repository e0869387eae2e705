/** File-name globs of the workspace tools.

    The repository matches a glob in two ways: `glob_match_bytes` is a direct
    recursion on the pattern that ignores the case of ASCII letters
    (`MatchesFolded` here), `glob_match` is a loop that respects case and
    remembers only the last `*` it passed.  `Matches` is the recursion with
    case respected, `Search` is the loop written as a recursion on the same
    four variables, and `GlobMatch` is the loop itself. */
module Glob {

  /** One character stands for one byte. */
  type Text = seq<char>

  /** The relation that the recursive matcher decides. */
  predicate Matches(p: Text, t: Text)
    decreases |p| + |t|
  {
    if p == [] then
      t == []
    else if p[0] == '*' then
      Matches(p[1..], t) || (t != [] && Matches(p, t[1..]))
    else
      t != [] && (p[0] == '?' || p[0] == t[0]) && Matches(p[1..], t[1..])
  }

  // ----- what a pattern means -----

  function Joined(pieces: seq<Text>): Text {
    if pieces == [] then [] else pieces[0] + Joined(pieces[1..])
  }

  predicate Stands(c: char, piece: Text) {
    c == '*' || (|piece| == 1 && (c == '?' || piece[0] == c))
  }

  /** The text can be cut into a piece for each character of the pattern: any piece for a `*`, any one character
      for a `?`, and that character for another. */
  predicate CutsInto(p: Text, t: Text, pieces: seq<Text>) {
    |pieces| == |p| && Joined(pieces) == t && forall k :: 0 <= k < |p| ==> Stands(p[k], pieces[k])
  }

  lemma {:induction false} PiecesMatch(p: Text, t: Text, pieces: seq<Text>)
    requires CutsInto(p, t, pieces)
    ensures Matches(p, t)
  {
    if p != [] {
      var rest := Joined(pieces[1..]);
      PiecesMatch(p[1..], rest, pieces[1..]);
      if p[0] == '*' {
        StarTakes(p, pieces[0], rest);
      } else {
        assert t[1..] == rest;
      }
    }
  }

  lemma {:induction false} StarTakes(p: Text, piece: Text, rest: Text)
    requires p != [] && p[0] == '*' && Matches(p[1..], rest)
    ensures Matches(p, piece + rest)
  {
    if piece == [] {
      assert piece + rest == rest;
    } else {
      StarTakes(p, piece[1..], rest);
      assert (piece + rest)[1..] == piece[1..] + rest;
    }
  }

  lemma {:induction false} MatchPieces(p: Text, t: Text) returns (pieces: seq<Text>)
    requires Matches(p, t)
    ensures CutsInto(p, t, pieces)
    decreases |p| + |t|
  {
    if p == [] {
      pieces := [];
    } else if p[0] == '*' && Matches(p[1..], t) {
      var rest := MatchPieces(p[1..], t);
      pieces := [[]] + rest;
      assert pieces[1..] == rest;
    } else if p[0] == '*' {
      var more := MatchPieces(p, t[1..]);
      pieces := [[t[0]] + more[0]] + more[1..];
      assert pieces[1..] == more[1..];
      assert [t[0]] + t[1..] == t && [t[0]] + (more[0] + Joined(more[1..])) == ([t[0]] + more[0]) + Joined(more[1..]);
    } else {
      var rest := MatchPieces(p[1..], t[1..]);
      pieces := [[t[0]]] + rest;
      assert pieces[1..] == rest && [t[0]] + t[1..] == t;
    }
  }

  /** The relation is that one. */
  lemma MatchesIff(p: Text, t: Text)
    ensures Matches(p, t) <==> exists pieces :: CutsInto(p, t, pieces)
  {
    hide Matches, CutsInto;
    if Matches(p, t) {
      var pieces := MatchPieces(p, t);
    } else if pieces :| CutsInto(p, t, pieces) {
      PiecesMatch(p, t, pieces);
    }
  }

  /** The position of the last `*` passed, or none yet. */
  datatype Star = NoStar | At(pos: nat)

  /** The loop's variables stay inside the two texts. */
  predicate InRange(p: Text, t: Text, i: nat, j: nat, star: Star, retry: nat) {
    && i <= |p|
    && retry <= j <= |t|
    && (star.At? ==> star.pos < i)
  }

  predicate OnlyStars(p: Text) {
    forall k :: 0 <= k < |p| ==> p[k] == '*'
  }

  /** What the loop of `glob_match` answers when it is entered with these variables.
      A literal or `?` test comes before the test for `*`. */
  predicate Search(p: Text, t: Text, i: nat, j: nat, star: Star, retry: nat)
    requires InRange(p, t, i, j, star, retry)
    decreases |t| - retry, if star.At? then |p| - star.pos else |p| + 1, |p| + |t| - i - j
  {
    if j == |t| then
      OnlyStars(p[i..])
    else if i < |p| && (p[i] == '?' || p[i] == t[j]) then
      Search(p, t, i + 1, j + 1, star, retry)
    else if i < |p| && p[i] == '*' then
      Search(p, t, i + 1, j, At(i), j)
    else if star.At? then
      Search(p, t, star.pos + 1, retry + 1, star, retry + 1)
    else
      false
  }

  predicate Decides(p: Text, t: Text) {
    Search(p, t, 0, 0, NoStar, 0)
  }

  method GlobMatch(p: Text, t: Text) returns (matched: bool)
    ensures matched == Decides(p, t)
  {
    var i: nat, j: nat, star, retry: nat := 0, 0, NoStar, 0;
    while j < |t|
      invariant InRange(p, t, i, j, star, retry)
      invariant Search(p, t, i, j, star, retry) == Decides(p, t)
      decreases |t| - retry, if star.At? then |p| - star.pos else |p| + 1, |p| + |t| - i - j
    {
      if i < |p| && (p[i] == '?' || p[i] == t[j]) {
        i, j := i + 1, j + 1;
      } else if i < |p| && p[i] == '*' {
        star, i, retry := At(i), i + 1, j;
      } else if star.At? {
        retry := retry + 1;
        j := retry;
        i := star.pos + 1;
      } else {
        return false;
      }
    }
    ghost var entry := i;
    while i < |p| && p[i] == '*'
      invariant entry <= i <= |p|
      invariant forall k :: entry <= k < i ==> p[k] == '*'
    {
      i := i + 1;
    }
    assert i < |p| ==> p[entry..][i - entry] == p[i];
    matched := i == |p|;
  }

  // ----- facts about the relation -----

  lemma {:induction false} EmptyText(p: Text)
    ensures Matches(p, []) <==> OnlyStars(p)
  {
    if p != [] {
      EmptyText(p[1..]);
      assert p == [p[0]] + p[1..];
      if OnlyStars(p[1..]) && p[0] == '*' {
        assert forall k :: 0 < k < |p| ==> p[k] == p[1..][k - 1];
      }
      if OnlyStars(p) {
        assert forall k :: 0 <= k < |p[1..]| ==> p[1..][k] == p[k + 1];
      }
    }
  }

  /** A pattern that starts with `*` may skip any number of characters. */
  lemma {:induction false} StarSkips(p: Text, t: Text, n: nat)
    requires p != [] && p[0] == '*' && n <= |t|
    requires Matches(p, t[n..])
    ensures Matches(p, t)
  {
    if n == 0 {
      assert t[0..] == t;
    } else {
      assert t[1..][n - 1..] == t[n..];
      StarSkips(p, t[1..], n - 1);
    }
  }

  /** `seg` holds no `*` and fits the start of `t` character by character. */
  predicate Fits(seg: Text, t: Text) {
    && |seg| <= |t|
    && forall k :: 0 <= k < |seg| ==> seg[k] != '*' && (seg[k] == '?' || seg[k] == t[k])
  }

  lemma {:induction false} FitConsumes(seg: Text, rest: Text, t: Text)
    requires Fits(seg, t)
    ensures Matches(seg + rest, t) <==> Matches(rest, t[|seg|..])
  {
    if seg == [] {
      assert seg + rest == rest && t[0..] == t;
    } else {
      assert (seg + rest)[1..] == seg[1..] + rest;
      assert t[1..][|seg| - 1..] == t[|seg|..];
      FitConsumes(seg[1..], rest, t[1..]);
    }
  }

  /** A star-free segment that heads a match fits, and the rest matches what it left. */
  lemma {:induction false} MatchedSegmentFits(seg: Text, rest: Text, t: Text)
    requires forall k :: 0 <= k < |seg| ==> seg[k] != '*'
    requires Matches(seg + rest, t)
    ensures Fits(seg, t) && Matches(rest, t[|seg|..])
  {
    if seg == [] {
      assert seg + rest == rest && t[0..] == t;
    } else {
      assert (seg + rest)[1..] == seg[1..] + rest;
      MatchedSegmentFits(seg[1..], rest, t[1..]);
      assert t[1..][|seg| - 1..] == t[|seg|..];
      assert forall k :: 0 < k < |seg| ==> seg[k] == seg[1..][k - 1] && t[k] == t[1..][k - 1];
    }
  }

  /** Some number of skipped characters lets the text after a `*` match. */
  lemma {:induction false} StarSplits(p: Text, t: Text) returns (n: nat)
    requires p != [] && p[0] == '*'
    requires Matches(p, t)
    ensures n <= |t| && Matches(p[1..], t[n..])
  {
    if Matches(p[1..], t) {
      n := 0;
      assert t[0..] == t;
    } else {
      var m := StarSplits(p, t[1..]);
      n := m + 1;
      assert t[1..][m..] == t[n..];
    }
  }

  /** Committing to the leftmost place where the segment between two stars fits
      loses no match: the reason one remembered star is enough. */
  lemma LeftmostFitSuffices(seg: Text, rest: Text, t: Text)
    requires rest != [] && rest[0] == '*'
    requires Fits(seg, t)
    ensures Matches(['*'] + seg + rest, t) <==> Matches(rest, t[|seg|..])
  {
    var p := ['*'] + seg + rest;
    assert p[1..] == seg + rest;
    if Matches(rest, t[|seg|..]) {
      FitConsumes(seg, rest, t);
    }
    if Matches(p, t) {
      var n := StarSplits(p, t);
      MatchedSegmentFits(seg, rest, t[n..]);
      assert t[n..][|seg|..] == t[|seg|..][n..];
      StarSkips(rest, t[|seg|..], n);
    }
  }

  // ----- the loop against the relation -----

  /** What the loop has already established about the text before its position, for a text
      without `*`: the whole question has become the question about the remembered star. */
  ghost predicate Reduced(p: Text, t: Text, i: nat, j: nat, star: Star, retry: nat)
    requires InRange(p, t, i, j, star, retry)
  {
    match star
    case NoStar =>
      Matches(p, t) <==> Matches(p[i..], t[j..])
    case At(s) =>
      && p[s] == '*'
      && i - s - 1 == j - retry
      && Fits(p[s + 1..i], t[retry..])
      && (Matches(p, t) <==> Matches(p[s..], t[retry..]))
  }

  /** Under a remembered star, a match from here on is a match of the whole. */
  lemma ReducedSuffix(p: Text, t: Text, i: nat, j: nat, s: nat, retry: nat)
    requires InRange(p, t, i, j, At(s), retry) && Reduced(p, t, i, j, At(s), retry)
    ensures Matches(p[s + 1..], t[retry..]) <==> Matches(p[i..], t[j..])
    ensures i < |p| && p[i] == '*' ==> (Matches(p, t) <==> Matches(p[i..], t[j..]))
  {
    var seg, rest := p[s + 1..i], p[i..];
    assert p[s + 1..] == seg + rest;
    assert t[retry..][|seg|..] == t[j..];
    FitConsumes(seg, rest, t[retry..]);
    if i < |p| && p[i] == '*' {
      assert p[s..] == ['*'] + seg + rest;
      LeftmostFitSuffices(seg, rest, t[retry..]);
    }
  }

  lemma {:induction false} SearchDecides(p: Text, t: Text, i: nat, j: nat, star: Star, retry: nat)
    requires '*' !in t
    requires InRange(p, t, i, j, star, retry) && Reduced(p, t, i, j, star, retry)
    ensures Search(p, t, i, j, star, retry) <==> Matches(p, t)
    decreases |t| - retry, if star.At? then |p| - star.pos else |p| + 1, |p| + |t| - i - j
  {
    if star.At? {
      ReducedSuffix(p, t, i, j, star.pos, retry);
    }
    if j == |t| {
      assert t[j..] == [];
      EmptyText(p[i..]);
      if star.At? {
        AtEnd(p, t, i, j, star.pos, retry);
      }
    } else if i < |p| && (p[i] == '?' || p[i] == t[j]) {
      assert p[i] != '*';
      assert p[i..][1..] == p[i + 1..] && t[j..][1..] == t[j + 1..];
      if star.At? {
        assert p[star.pos + 1..i + 1] == p[star.pos + 1..i] + [p[i]];
        assert t[retry..][j - retry] == t[j];
      }
      SearchDecides(p, t, i + 1, j + 1, star, retry);
    } else if i < |p| && p[i] == '*' {
      assert p[i + 1..i + 1] == [];
      SearchDecides(p, t, i + 1, j, At(i), j);
    } else if star.At? {
      assert !Matches(p[i..], t[j..]);
      assert p[star.pos..][1..] == p[star.pos + 1..];
      assert t[retry..][1..] == t[retry + 1..];
      assert p[star.pos + 1..star.pos + 1] == [];
      SearchDecides(p, t, star.pos + 1, retry + 1, star, retry + 1);
    }
  }

  /** When the text is used up, retrying the star further right cannot help. */
  lemma AtEnd(p: Text, t: Text, i: nat, j: nat, s: nat, retry: nat)
    requires InRange(p, t, i, j, At(s), retry) && Reduced(p, t, i, j, At(s), retry)
    requires j == |t|
    ensures Matches(p, t) <==> Matches(p[i..], t[j..])
  {
    ReducedSuffix(p, t, i, j, s, retry);
    assert p[s..][1..] == p[s + 1..];
    if Matches(p[s..], t[retry..]) {
      var n := StarSplits(p[s..], t[retry..]);
      var seg, rest := p[s + 1..i], p[i..];
      assert p[s + 1..] == seg + rest;
      MatchedSegmentFits(seg, rest, t[retry..][n..]);
      assert n == 0;
    }
  }

  /** Whatever the value holds, the loop never accepts what the relation rejects. */
  lemma {:induction false} SearchSound(p: Text, t: Text, i: nat, j: nat, star: Star, retry: nat)
    requires InRange(p, t, i, j, star, retry)
    requires star.At? ==> p[star.pos] == '*'
    requires Matches(p[i..], t[j..]) ==> Matches(p, t)
    requires star.At? ==> (Matches(p[star.pos..], t[retry..]) ==> Matches(p, t))
    requires Search(p, t, i, j, star, retry)
    ensures Matches(p, t)
    decreases |t| - retry, if star.At? then |p| - star.pos else |p| + 1, |p| + |t| - i - j
  {
    if j == |t| {
      assert t[j..] == [];
      EmptyText(p[i..]);
    } else if i < |p| && (p[i] == '?' || p[i] == t[j]) {
      assert p[i..][1..] == p[i + 1..] && t[j..][1..] == t[j + 1..];
      if Matches(p[i + 1..], t[j + 1..]) && p[i] == '*' {
        StarTakesOne(p[i..], t[j..]);
      }
      SearchSound(p, t, i + 1, j + 1, star, retry);
    } else if i < |p| && p[i] == '*' {
      assert p[i..][1..] == p[i + 1..];
      SearchSound(p, t, i + 1, j, At(i), j);
    } else {
      assert p[star.pos..][1..] == p[star.pos + 1..];
      assert t[retry..][1..] == t[retry + 1..];
      if Matches(p[star.pos + 1..], t[retry + 1..]) {
        StarTakesOne(p[star.pos..], t[retry..]);
      }
      SearchSound(p, t, star.pos + 1, retry + 1, star, retry + 1);
    }
  }

  lemma StarTakesOne(p: Text, t: Text)
    requires p != [] && p[0] == '*' && t != []
    requires Matches(p[1..], t[1..])
    ensures Matches(p, t)
  {
    assert Matches(p, t[1..]);
  }

  /** The loop decides the relation for every pattern and every value without a `*`,
      and for any value it accepts only what the relation accepts. */
  lemma DecidesMatches(p: Text, t: Text)
    ensures Decides(p, t) ==> Matches(p, t)
    ensures '*' !in t ==> (Decides(p, t) <==> Matches(p, t))
  {
    assert p[0..] == p && t[0..] == t;
    if Decides(p, t) {
      SearchSound(p, t, 0, 0, NoStar, 0);
    }
    if '*' !in t {
      SearchDecides(p, t, 0, 0, NoStar, 0);
    }
  }

  // ----- the exact limit of the loop -----

  function Questions(n: nat): (q: Text)
    ensures |q| == n && forall k :: 0 <= k < n ==> q[k] == '?'
  {
    if n == 0 then [] else ['?'] + Questions(n - 1)
  }

  /** A pattern that the relation matches against `t` and the loop does not. */
  function Breaker(t: Text, k: nat): Text
    requires k < |t|
  {
    Questions(k) + ['*'] + Questions(|t| - k)
  }

  lemma {:induction false} BreakerSearch(t: Text, k: nat, j: nat)
    requires k < |t| && t[k] == '*' && j <= |t|
    ensures !Search(Breaker(t, k), t, j, j, NoStar, 0)
    decreases |t| - j
  {
    var p := Breaker(t, k);
    if j == |t| {
      assert p[j..][0] == p[j] == '?';
    } else {
      assert p[j] == '?' || p[j] == t[j];
      BreakerSearch(t, k, j + 1);
    }
  }

  lemma BreakerMatches(t: Text, k: nat)
    requires k < |t|
    ensures Matches(Breaker(t, k), t)
  {
    var tail := Questions(|t| - k);
    assert Breaker(t, k) == Questions(k) + (['*'] + tail);
    FitConsumes(Questions(k), ['*'] + tail, t);
    assert (['*'] + tail)[1..] == tail;
    FitConsumes(tail, [], t[k..]);
    assert tail + [] == tail;
    assert t[k..][|tail|..] == [];
  }

  /** The loop agrees with the relation on every pattern exactly for the values without a `*`:
      testing literal equality before testing for `*` is what the condition pays for. */
  lemma AgreesIffNoStar(t: Text)
    ensures (forall p :: Decides(p, t) <==> Matches(p, t)) <==> '*' !in t
  {
    if '*' !in t {
      forall p ensures Decides(p, t) <==> Matches(p, t) {
        DecidesMatches(p, t);
      }
    } else {
      var k: nat :| k < |t| && t[k] == '*';
      BreakerSearch(t, k, 0);
      BreakerMatches(t, k);
      assert !(Decides(Breaker(t, k), t) <==> Matches(Breaker(t, k), t));
    }
  }

  // ----- the recursive matcher -----

  function Lower(c: char): char {
    if 'A' <= c <= 'Z' then c - 'A' + 'a' else c
  }

  function LowerAll(t: Text): (r: Text)
    ensures |r| == |t| && forall k :: 0 <= k < |t| ==> r[k] == Lower(t[k])
  {
    seq(|t|, k requires 0 <= k < |t| => Lower(t[k]))
  }

  predicate MatchesFolded(p: Text, t: Text)
    decreases |p| + |t|
  {
    if p == [] then
      t == []
    else if p[0] == '*' then
      MatchesFolded(p[1..], t) || (t != [] && MatchesFolded(p, t[1..]))
    else
      t != [] && (p[0] == '?' || Lower(p[0]) == Lower(t[0])) && MatchesFolded(p[1..], t[1..])
  }

  /** `b` is the small letter of the capital `a` of the ASCII alphabet. */
  predicate SmallOf(a: char, b: char) {
    65 <= a as int <= 90 && b as int == a as int + 32
  }

  /** Two characters are lowered to the same one exactly when they are the same or the two forms of a letter. */
  lemma LowerIsCaseless(a: char, b: char)
    ensures Lower(a) == Lower(b) <==> a == b || SmallOf(a, b) || SmallOf(b, a)
  {
    assert 'A' as int == 65 && 'Z' as int == 90 && 'a' as int == 97;
  }

  /** Ignoring case is matching the lowered texts. */
  lemma {:induction false} FoldedIsLowered(p: Text, t: Text)
    ensures MatchesFolded(p, t) <==> Matches(LowerAll(p), LowerAll(t))
    decreases |p| + |t|
  {
    if p != [] {
      assert LowerAll(p)[1..] == LowerAll(p[1..]);
      if p[0] == '*' {
        FoldedIsLowered(p[1..], t);
      }
      if t != [] {
        assert LowerAll(t)[1..] == LowerAll(t[1..]);
        FoldedIsLowered(p, t[1..]);
        FoldedIsLowered(p[1..], t[1..]);
      }
    }
  }

  /** So on lowered texts the loop accepts nothing that the recursive matcher of the code rejects, and
      the two agree when the value holds no `*`. */
  lemma LoopAgreesWithRecursion(p: Text, t: Text)
    ensures Decides(LowerAll(p), LowerAll(t)) ==> MatchesFolded(p, t)
    ensures '*' !in t ==> (Decides(LowerAll(p), LowerAll(t)) <==> MatchesFolded(p, t))
  {
    FoldedIsLowered(p, t);
    DecidesMatches(LowerAll(p), LowerAll(t));
    assert '*' !in t ==> '*' !in LowerAll(t) by {
      assert forall k :: 0 <= k < |t| && LowerAll(t)[k] == '*' ==> t[k] == '*';
    }
  }
}
