/** Sharing the characters that a model may see of attached files. */
module AttachmentBudget {
  /** A block of context: only the files sent with the message itself are cut. */
  datatype Block = Image | Stored(content: string) | Inline(content: string) | Other(content: string)

  // ----- cutting one text -----

  const SHORTEST_WITH_TAIL := 32

  /** The characters kept of a text, without the note put between, and whether any were left out. */
  datatype Excerpt = Excerpt(head: string, tail: string, truncated: bool)

  function ExcerptOf(content: string, maxChars: nat): Excerpt {
    if |content| <= maxChars then Excerpt(content, "", false)
    else if maxChars < SHORTEST_WITH_TAIL then Excerpt(content[..maxChars], "", true)
    else
      var head := maxChars * 2 / 5;
      Excerpt(content[..head], content[|content| - (maxChars - head)..], true)
  }

  /** What is kept is a beginning and an end of the text that do not overlap, of exactly the length
      allowed if the text is longer. */
  lemma ExcerptIsDisjoint(content: string, maxChars: nat)
    ensures var e := ExcerptOf(content, maxChars);
            && e.head <= content && |e.head| + |e.tail| <= |content|
            && e.tail == content[|content| - |e.tail|..]
            && |e.head| + |e.tail| == Min(|content|, maxChars)
            && (e.truncated <==> |content| > maxChars)
            && (|content| > maxChars >= SHORTEST_WITH_TAIL ==> e.head != "" && e.tail != "")
  {
    if |content| > maxChars >= SHORTEST_WITH_TAIL {
      assert 0 < maxChars * 2 / 5 < maxChars;
    }
  }

  function Min(a: nat, b: nat): nat {
    if a < b then a else b
  }

  function Max(a: nat, b: nat): nat {
    if a < b then b else a
  }

  // ----- sharing the budget -----

  predicate IsFile(b: Block) {
    b.Stored? || b.Inline?
  }

  function Files(blocks: seq<Block>): (n: nat)
    ensures n <= |blocks|
  {
    if blocks == [] then 0 else Files(blocks[..|blocks| - 1]) + if IsFile(blocks[|blocks| - 1]) then 1 else 0
  }

  function ShareOf(chars: nat, count: nat): nat
    requires count > 0
  {
    Max(chars / count, 1)
  }

  /** Shares of what is left among the files that are left: no file gets less than an equal share of what
      was there, and taking at most a share leaves as good a share for the next. */
  lemma NextShare(chars: nat, count: nat, used: nat)
    requires count > 0 && used <= ShareOf(chars, count)
    ensures used + Max(Rest(chars, used), count - 1) <= Max(chars, count)
    ensures count > 1 ==> ShareOf(Rest(chars, used), count - 1) >= ShareOf(chars, count)
  {
    var share := chars / count;
    assert share * count <= chars;
    if share >= 1 {
      assert share * count == share * (count - 1) + share;
      assert share * (count - 1) >= count - 1 by {
        Times(share, count - 1);
      }
      if count > 1 {
        var left := chars - used;
        assert left >= share * (count - 1);
        AtLeast(left, count - 1, share);
      }
    }
  }

  lemma Times(a: nat, b: nat)
    requires a >= 1
    ensures a * b >= b
  {
    assert (a - 1) * b >= 0;
  }

  lemma AtLeast(chars: nat, count: nat, share: nat)
    requires count > 0 && chars >= share * count
    ensures chars / count >= share
  {
    if chars / count < share {
      assert chars < (chars / count + 1) * count;
      assert (chars / count + 1) * count <= share * count by {
        Scaled(chars / count + 1, share, count);
      }
    }
  }

  lemma Scaled(a: nat, b: nat, c: nat)
    requires a <= b
    ensures a * c <= b * c
  {
    assert (b - a) * c >= 0;
  }

  function Rest(budget: nat, used: nat): nat {
    if used <= budget then budget - used else 0
  }

  function InlineOf(blocks: seq<Block>): (contents: seq<string>)
    ensures |contents| <= Files(blocks)
  {
    if blocks == [] then []
    else InlineOf(blocks[..|blocks| - 1]) + if blocks[|blocks| - 1].Inline? then [blocks[|blocks| - 1].content] else []
  }

  function Kept(excerpts: seq<Excerpt>): nat {
    if excerpts == [] then 0
    else Kept(excerpts[..|excerpts| - 1]) + |excerpts[|excerpts| - 1].head| + |excerpts[|excerpts| - 1].tail|
  }

  lemma KeptNone()
    ensures Kept([]) == 0
  {
  }

  lemma KeptThen(excerpts: seq<Excerpt>, content: string, allocation: nat)
    ensures Kept(excerpts + [ExcerptOf(content, allocation)]) == Kept(excerpts) + Min(|content|, allocation)
  {
    assert (excerpts + [ExcerptOf(content, allocation)])[..|excerpts|] == excerpts;
    ExcerptIsDisjoint(content, allocation);
  }

  lemma {:induction false} FilesAhead(blocks: seq<Block>, i: nat)
    requires i <= |blocks|
    ensures Files(blocks[..i]) <= Files(blocks)
    decreases |blocks|
  {
    if i < |blocks| {
      FilesAhead(blocks[..|blocks| - 1], i);
      assert blocks[..|blocks| - 1][..i] == blocks[..i];
    } else {
      assert blocks[..i] == blocks;
    }
  }

  /** Each inline file gets its share of what the earlier ones left, among the files not yet served.  The
      stored files are counted among those to the end, although they take nothing. */
  predicate Fair(budget: nat, files: nat, contents: seq<string>, excerpts: seq<Excerpt>, allocations: seq<nat>) {
    && |excerpts| == |allocations| == |contents| <= files
    && (forall i :: 0 <= i < |contents| ==> excerpts[i] == ExcerptOf(contents[i], allocations[i]))
    && (forall i :: 0 <= i < |contents| ==> allocations[i] == ShareOf(Rest(budget, Kept(excerpts[..i])), files - i))
  }

  lemma FairNext(budget: nat, files: nat, contents: seq<string>, excerpts: seq<Excerpt>, allocations: seq<nat>,
          content: string)
    requires Fair(budget, files, contents, excerpts, allocations) && |contents| < files
    ensures var share := ShareOf(Rest(budget, Kept(excerpts)), files - |contents|);
            Fair(budget, files, contents + [content], excerpts + [ExcerptOf(content, share)], allocations + [share])
  {
    hide ExcerptOf, Kept, Rest, ShareOf;
    var share := ShareOf(Rest(budget, Kept(excerpts)), files - |contents|);
    var more := excerpts + [ExcerptOf(content, share)];
    assert forall i :: 0 <= i <= |excerpts| ==> more[..i] == excerpts[..i];
    assert excerpts[..|excerpts|] == excerpts;
  }

  lemma FairButLast(budget: nat, files: nat, contents: seq<string>, excerpts: seq<Excerpt>, allocations: seq<nat>)
    requires Fair(budget, files, contents, excerpts, allocations) && contents != []
    ensures var n := |contents| - 1;
            && Fair(budget, files, contents[..n], excerpts[..n], allocations[..n])
            && allocations[n] == ShareOf(Rest(budget, Kept(excerpts[..n])), files - n)
            && Kept(excerpts) == Kept(excerpts[..n]) + Min(|contents[n]|, allocations[n])
  {
    hide ExcerptOf, Rest, ShareOf, Kept;
    var n := |contents| - 1;
    assert forall i :: 0 <= i <= n ==> excerpts[..n][..i] == excerpts[..i];
    assert excerpts == excerpts[..n] + [excerpts[n]];
    KeptThen(excerpts[..n], contents[n], allocations[n]);
  }

  /** Together the excerpts keep at most the budget, or one character for each file if that is more. */
  lemma {:induction false} FairKeepsBudget(budget: nat, files: nat, contents: seq<string>,
          excerpts: seq<Excerpt>, allocations: seq<nat>)
    requires Fair(budget, files, contents, excerpts, allocations)
    ensures Kept(excerpts) + Max(Rest(budget, Kept(excerpts)), files - |contents|) <= Max(budget, files)
    decreases |contents|
  {
    if contents == [] {
      KeptNone();
    } else {
      var n := |contents| - 1;
      FairButLast(budget, files, contents, excerpts, allocations);
      FairKeepsBudget(budget, files, contents[..n], excerpts[..n], allocations[..n]);
      RestAfter(budget, Kept(excerpts[..n]), Min(|contents[n]|, allocations[n]));
      hide Kept, ShareOf, Fair, Rest;
      NextShare(Rest(budget, Kept(excerpts[..n])), files - n, Min(|contents[n]|, allocations[n]));
    }
  }

  lemma {:induction false} FairPrefix(budget: nat, files: nat, contents: seq<string>, excerpts: seq<Excerpt>,
          allocations: seq<nat>, i: nat)
    requires Fair(budget, files, contents, excerpts, allocations) && i <= |contents|
    ensures Fair(budget, files, contents[..i], excerpts[..i], allocations[..i])
    decreases |contents|
  {
    hide Fair;
    if i == |contents| {
      assert contents[..i] == contents && excerpts[..i] == excerpts && allocations[..i] == allocations by {
        FairLengths(budget, files, contents, excerpts, allocations);
      }
    } else {
      var n := |contents| - 1;
      FairLengths(budget, files, contents, excerpts, allocations);
      FairButLast(budget, files, contents, excerpts, allocations);
      FairPrefix(budget, files, contents[..n], excerpts[..n], allocations[..n], i);
      assert contents[..n][..i] == contents[..i] && excerpts[..n][..i] == excerpts[..i] && allocations[..n][..i] == allocations[..i];
    }
  }

  lemma RestAfter(budget: nat, a: nat, b: nat)
    ensures Rest(Rest(budget, a), b) == Rest(budget, a + b)
  {
  }

  lemma FairLengths(budget: nat, files: nat, contents: seq<string>, excerpts: seq<Excerpt>, allocations: seq<nat>)
    requires Fair(budget, files, contents, excerpts, allocations)
    ensures |excerpts| == |allocations| == |contents| <= files
  {
  }

  /** The share of the next file, after those of `contents`. */
  lemma {:induction false} NextIsNoLess(budget: nat, files: nat, contents: seq<string>, excerpts: seq<Excerpt>,
          allocations: seq<nat>)
    requires Fair(budget, files, contents, excerpts, allocations) && |contents| < files
    ensures var next := ShareOf(Rest(budget, Kept(excerpts)), files - |contents|);
            next >= ShareOf(budget, files) && (contents != [] ==> next >= allocations[|contents| - 1])
    decreases |contents|
  {
    hide ShareOf, ExcerptOf, Fair, Kept;
    FairLengths(budget, files, contents, excerpts, allocations);
    if contents == [] {
      KeptNone();
      assert excerpts == [];
    } else {
      var n := |contents| - 1;
      FairButLast(budget, files, contents, excerpts, allocations);
      hide Rest;
      NextIsNoLess(budget, files, contents[..n], excerpts[..n], allocations[..n]);
      RestAfter(budget, Kept(excerpts[..n]), Min(|contents[n]|, allocations[n]));
      NextShare(Rest(budget, Kept(excerpts[..n])), files - n, Min(|contents[n]|, allocations[n]));
    }
  }

  lemma FairAt(budget: nat, files: nat, contents: seq<string>, excerpts: seq<Excerpt>, allocations: seq<nat>, i: nat)
    requires Fair(budget, files, contents, excerpts, allocations) && i < |contents|
    ensures |excerpts| == |allocations| == |contents| <= files
    ensures allocations[i] == ShareOf(Rest(budget, Kept(excerpts[..i])), files - i)
  {
    hide ShareOf, Kept, ExcerptOf;
  }

  /** Every file is allowed at least an equal share of the budget, and no less than the one before. */
  lemma FairSharesGrow(budget: nat, files: nat, contents: seq<string>, excerpts: seq<Excerpt>,
          allocations: seq<nat>, i: nat)
    requires Fair(budget, files, contents, excerpts, allocations) && i < |contents|
    ensures allocations[i] >= ShareOf(budget, files) && (i > 0 ==> allocations[i] >= allocations[i - 1])
  {
    FairAt(budget, files, contents, excerpts, allocations, i);
    FairPrefix(budget, files, contents, excerpts, allocations, i);
    hide Fair, Kept, ShareOf, Rest;
    NextIsNoLess(budget, files, contents[..i], excerpts[..i], allocations[..i]);
  }

  // ----- what the stored files take -----

  /** Together the excerpts keep at most the budget, or one character for each inline file if that is more. */
  lemma {:induction false} KeptWithinInline(budget: nat, files: nat, contents: seq<string>,
          excerpts: seq<Excerpt>, allocations: seq<nat>)
    requires Fair(budget, files, contents, excerpts, allocations)
    ensures Kept(excerpts) <= Max(budget, |contents|)
    decreases |contents|
  {
    hide Fair, Kept, ExcerptOf;
    FairLengths(budget, files, contents, excerpts, allocations);
    if contents == [] {
      assert excerpts == [];
      KeptNone();
    } else {
      var n := |contents| - 1;
      FairButLast(budget, files, contents, excerpts, allocations);
      KeptWithinInline(budget, files, contents[..n], excerpts[..n], allocations[..n]);
      FairKeepsBudget(budget, files, contents[..n], excerpts[..n], allocations[..n]);
      ShareWithin(Rest(budget, Kept(excerpts[..n])), files - n);
      hide ShareOf;
    }
  }

  lemma ShareWithin(chars: nat, count: nat)
    requires count > 0
    ensures ShareOf(chars, count) <= Max(chars, 1)
  {
    var share := chars / count;
    assert share * count <= chars;
    Scaled(1, count, share);
  }

  lemma FairFirst(budget: nat, files: nat, contents: seq<string>, excerpts: seq<Excerpt>, allocations: seq<nat>)
    requires Fair(budget, files, contents, excerpts, allocations) && contents != []
    ensures |allocations| == |contents| <= files && allocations[0] == ShareOf(budget, files)
  {
    FairAt(budget, files, contents, excerpts, allocations, 0);
    assert excerpts[..0] == [];
    KeptNone();
  }

  /** For one budget: every inline file is allowed an equal share among the inline files exactly when an
      equal share among all files, stored ones counted, is as large. */
  lemma InlineShareIff(budget: nat, files: nat, contents: seq<string>, excerpts: seq<Excerpt>, allocations: seq<nat>)
    requires Fair(budget, files, contents, excerpts, allocations) && contents != []
    ensures |allocations| == |contents| <= files
    ensures (forall i :: 0 <= i < |contents| ==> allocations[i] >= ShareOf(budget, |contents|)) <==>
            ShareOf(budget, files) >= ShareOf(budget, |contents|)
  {
    hide ShareOf, Kept, ExcerptOf, Fair;
    FairFirst(budget, files, contents, excerpts, allocations);
    forall i | 0 <= i < |contents| ensures allocations[i] >= ShareOf(budget, files) {
      FairSharesGrow(budget, files, contents, excerpts, allocations, i);
    }
  }

  lemma {:induction false} FairExists(budget: nat, files: nat, contents: seq<string>)
    returns (excerpts: seq<Excerpt>, allocations: seq<nat>)
    requires |contents| <= files
    ensures Fair(budget, files, contents, excerpts, allocations)
    decreases |contents|
  {
    hide Fair, ExcerptOf, ShareOf, Kept, Rest;
    if contents == [] {
      excerpts, allocations := [], [];
      FairNone(budget, files);
    } else {
      var n := |contents| - 1;
      excerpts, allocations := FairExists(budget, files, contents[..n]);
      FairNext(budget, files, contents[..n], excerpts, allocations, contents[n]);
      assert contents == contents[..n] + [contents[n]];
      var share := ShareOf(Rest(budget, Kept(excerpts)), files - n);
      excerpts, allocations := excerpts + [ExcerptOf(contents[n], share)], allocations + [share];
    }
  }

  /** An equal share among the inline files is promised to each of them. */
  ghost predicate InlineSharesPromised(files: nat, contents: seq<string>)
    requires contents != []
  {
    forall budget: nat, excerpts, allocations ::
      Fair(budget, files, contents, excerpts, allocations) ==>
      forall i :: 0 <= i < |contents| ==> allocations[i] >= ShareOf(budget, |contents|)
  }

  /** Over all budgets that is so exactly when no file is stored. */
  lemma InlineSharesPromisedIff(blocks: seq<Block>)
    requires InlineOf(blocks) != []
    ensures InlineSharesPromised(Files(blocks), InlineOf(blocks)) <==> forall b <- blocks :: !b.Stored?
  {
    var files, contents := Files(blocks), InlineOf(blocks);
    NoStoredIff(blocks);
    if files == |contents| {
      forall budget: nat, excerpts, allocations | Fair(budget, files, contents, excerpts, allocations)
        ensures forall i :: 0 <= i < |contents| ==> allocations[i] >= ShareOf(budget, |contents|)
      {
        InlineShareIff(budget, files, contents, excerpts, allocations);
      }
    } else {
      var budget := 2 * |contents|;
      var excerpts, allocations := FairExists(budget, files, contents);
      TwoEach(|contents|, files);
      InlineShareIff(budget, files, contents, excerpts, allocations);
    }
  }

  lemma TwoEach(n: nat, files: nat)
    requires 0 < n < files
    ensures ShareOf(2 * n, n) == 2 && ShareOf(2 * n, files) == 1
  {
    var share := 2 * n / files;
    assert share * files <= 2 * n < 2 * files;
    Unscaled(share, 2, files);
  }

  lemma Unscaled(a: nat, b: nat, c: nat)
    requires a * c < b * c
    ensures a < b
  {
    if a >= b {
      Scaled(b, a, c);
    }
  }

  lemma {:induction false} NoStoredIff(blocks: seq<Block>)
    ensures Files(blocks) == |InlineOf(blocks)| <==> forall b <- blocks :: !b.Stored?
  {
    if blocks != [] {
      var n := |blocks| - 1;
      NoStoredIff(blocks[..n]);
      assert blocks == blocks[..n] + [blocks[n]];
    }
  }

  /** A stored file beside an inline one halves what the inline one is allowed. */
  lemma StoredHalves(stored: string, content: string, excerpts: seq<Excerpt>, allocations: seq<nat>)
    requires Fair(100, Files([Stored(stored), Inline(content)]), InlineOf([Stored(stored), Inline(content)]), excerpts, allocations)
    ensures allocations == [50] && ShareOf(100, 1) == 100
  {
    var blocks := [Stored(stored), Inline(content)];
    assert blocks[..1] == [Stored(stored)] && blocks[..1][..0] == [];
    assert Files(blocks[..1]) == 1 && InlineOf(blocks[..1]) == [];
    assert Files(blocks) == 2 && InlineOf(blocks) == [content];
    FairFirst(100, 2, [content], excerpts, allocations);
  }

  method Share(blocks: seq<Block>, budget: nat) returns (excerpts: seq<Excerpt>, allocations: seq<nat>)
    ensures Fair(budget, Files(blocks), InlineOf(blocks), excerpts, allocations)
  {
    hide ExcerptOf, Kept, Fair, InlineOf, Files;
    var remainingFiles, remainingChars := Files(blocks), budget;
    excerpts, allocations := [], [];
    assert blocks[..0] == [] && InlineOf([]) == [] && Kept([]) == 0 && Fair(budget, Files(blocks), [], [], []) by {
      KeptNone();
      FairNone(budget, Files(blocks));
    }
    for i := 0 to |blocks|
      invariant |excerpts| == |InlineOf(blocks[..i])| <= Files(blocks)
      invariant remainingFiles == Files(blocks) - |excerpts| && remainingChars == Rest(budget, Kept(excerpts))
      invariant Fair(budget, Files(blocks), InlineOf(blocks[..i]), excerpts, allocations)
    {
      InlineThen(blocks, i);
      FilesAhead(blocks, i + 1);
      if blocks[i].Inline? {
        var content := blocks[i].content;
        var allocation := if remainingFiles == 0 then 0 else Max(remainingChars / remainingFiles, 1);
        FairNext(budget, Files(blocks), InlineOf(blocks[..i]), excerpts, allocations, content);
        KeptThen(excerpts, content, allocation);
        excerpts, allocations := excerpts + [ExcerptOf(content, allocation)], allocations + [allocation];
        remainingFiles := if remainingFiles == 0 then 0 else remainingFiles - 1;
        remainingChars := Rest(remainingChars, Min(|content|, allocation));
      }
    }
    assert blocks[..|blocks|] == blocks;
  }

  lemma InlineThen(blocks: seq<Block>, i: nat)
    requires i < |blocks|
    ensures InlineOf(blocks[..i + 1]) == InlineOf(blocks[..i]) + if blocks[i].Inline? then [blocks[i].content] else []
    ensures !blocks[i].Inline? ==> InlineOf(blocks[..i + 1]) == InlineOf(blocks[..i])
  {
    assert blocks[..i + 1][..i] == blocks[..i];
  }

  lemma FairNone(budget: nat, files: nat)
    ensures Fair(budget, files, [], [], []) && InlineOf([]) == []
  {
  }
}
