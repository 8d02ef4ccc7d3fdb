/** When the result of `_apply` does not depend on the order of its list. */
module SpliceOrder {
  import opened Outcomes
  import opened Sequences
  import opened Utf8
  import opened StableSort
  import opened Splice

  /** Every order of the sites gives the same result, or the same refusal. */
  ghost predicate OrderIrrelevant(source: Text, sites: seq<Site>)
    requires InSource(source, sites)
  {
    forall shuffled | InSource(source, shuffled) && multiset(shuffled) == multiset(sites) ::
      ApplySites(source, shuffled) == ApplySites(source, sites)
  }

  /** Two sites that start together are insertions that may be made in either order. */
  predicate TieCommutes(a: Site, b: Site) {
    a.start == b.start ==>
      a.end == a.start && b.end == b.start && a.replacement + b.replacement == b.replacement + a.replacement
  }

  ghost predicate TiesCommute(sites: seq<Site>) {
    Pairwise(sites, TieCommutes)
  }

  // ----- Exchanging two insertions -----

  lemma SpliceCons(source: Text, site: Site, rest: seq<Site>, cursor: nat)
    requires InSource(source, rest) && cursor <= site.start <= site.end <= |source| && Chained(rest, site.end)
    ensures InSource(source, [site] + rest) && Chained([site] + rest, cursor)
    ensures SpliceFrom(source, [site] + rest, cursor)
         == source[cursor..site.start] + site.replacement + SpliceFrom(source, rest, site.end)
  {
    assert ([site] + rest)[1..] == rest;
  }

  lemma TwoInsertions(source: Text, a: Site, b: Site, rest: seq<Site>, cursor: nat)
    requires cursor <= a.start == a.end == b.start == b.end <= |source|
    requires InSource(source, rest) && Chained(rest, a.start)
    ensures InSource(source, [a] + ([b] + rest)) && Chained([a] + ([b] + rest), cursor)
    ensures SpliceFrom(source, [a] + ([b] + rest), cursor)
         == source[cursor..a.start] + ((a.replacement + b.replacement) + SpliceFrom(source, rest, a.start))
  {
    SpliceCons(source, b, rest, a.start);
    SpliceCons(source, a, [b] + rest, cursor);
    var tail := SpliceFrom(source, rest, a.start);
    assert source[a.start..a.start] == "";
    hide *;
    assert "" + b.replacement == b.replacement;
    AppendAssociates(a.replacement, b.replacement, tail);
    AppendAssociates(source[cursor..a.start], a.replacement, b.replacement + tail);
  }

  /** Two insertions at one place may be exchanged exactly when their texts commute. */
  lemma ExchangeIff(source: Text, a: Site, b: Site, rest: seq<Site>, cursor: nat)
    requires cursor <= a.start == a.end == b.start == b.end <= |source|
    requires InSource(source, rest) && Chained(rest, a.start)
    ensures InSource(source, [a] + ([b] + rest)) && Chained([a] + ([b] + rest), cursor)
    ensures InSource(source, [b] + ([a] + rest)) && Chained([b] + ([a] + rest), cursor)
    ensures SpliceFrom(source, [a] + ([b] + rest), cursor) == SpliceFrom(source, [b] + ([a] + rest), cursor)
       <==> a.replacement + b.replacement == b.replacement + a.replacement
  {
    TwoInsertions(source, a, b, rest, cursor);
    TwoInsertions(source, b, a, rest, cursor);
    var ab, ba, tail := a.replacement + b.replacement, b.replacement + a.replacement, SpliceFrom(source, rest, a.start);
    hide *;
    CancelPrefix(source[cursor..a.start], ab + tail, ba + tail);
    if ab + tail == ba + tail {
      assert ab == (ab + tail)[..|ab|] && ba == (ba + tail)[..|ab|];
    }
  }

  // ----- Commuting ties do not matter -----

  lemma {:induction false} MoveToFront(source: Text, before: seq<Site>, x: Site, after: seq<Site>, cursor: nat)
    requires InSource(source, before + ([x] + after)) && Chained(before + ([x] + after), cursor) && cursor <= |source|
    requires forall y | y in before :: y.start == x.start && TieCommutes(y, x)
    ensures InSource(source, [x] + (before + after)) && Chained([x] + (before + after), cursor)
    ensures SpliceFrom(source, [x] + (before + after), cursor) == SpliceFrom(source, before + ([x] + after), cursor)
    decreases |before|
  {
    if before == [] {
      assert [] + after == after && [] + ([x] + after) == [x] + after;
    } else {
      var h, rest := before[0], before[1..];
      assert before == [h] + rest && h in before;
      var was, moved := rest + ([x] + after), [x] + (rest + after);
      AppendAssociates([h], rest, [x] + after);
      AppendAssociates([h], rest, after);
      SpliceHead(source, [h] + was, cursor);
      assert ([h] + was)[1..] == was;
      assert forall y | y in rest :: y in before;
      hide Chained, SpliceFrom, InSource;
      MoveToFront(source, rest, x, after, h.end);
      ExchangeFront(source, h, x, rest + after, was, cursor);
    }
  }

  lemma ExchangeFront(source: Text, h: Site, x: Site, others: seq<Site>, was: seq<Site>, cursor: nat)
    requires cursor <= h.start == x.start <= h.end <= |source| && TieCommutes(h, x)
    requires InSource(source, was) && Chained(was, h.end)
    requires InSource(source, [x] + others) && Chained([x] + others, h.end)
    requires SpliceFrom(source, [x] + others, h.end) == SpliceFrom(source, was, h.end)
    ensures InSource(source, [h] + was) && Chained([h] + was, cursor)
    ensures InSource(source, [x] + ([h] + others)) && Chained([x] + ([h] + others), cursor)
    ensures SpliceFrom(source, [x] + ([h] + others), cursor) == SpliceFrom(source, [h] + was, cursor)
  {
    SpliceHead(source, [x] + others, h.end);
    assert ([x] + others)[1..] == others;
    hide Chained, SpliceFrom, InSource;
    SpliceCons(source, h, was, cursor);
    SpliceCons(source, h, [x] + others, cursor);
    ExchangeIff(source, h, x, others, cursor);
  }

  lemma {:induction false} SortedBefore(before: seq<Site>, x: Site, after: seq<Site>)
    requires Sorted(before + ([x] + after), StartsNoLater)
    ensures forall y | y in before :: y.start <= x.start
  {
    if before != [] {
      var s := before + ([x] + after);
      assert s[1..] == before[1..] + ([x] + after);
      assert x in s[1..];
      SortedBefore(before[1..], x, after);
      assert forall y | y in before :: y == before[0] || y in before[1..];
    }
  }

  /** The head of one ordered list is in the other, behind sites that start with it. */
  lemma LeastInBoth(x: Site, later: seq<Site>, b: seq<Site>) returns (before: seq<Site>, after: seq<Site>)
    requires Sorted([x] + later, StartsNoLater) && Sorted(b, StartsNoLater) && multiset([x] + later) == multiset(b)
    ensures b == before + ([x] + after) && multiset(later) == multiset(before + after)
    ensures forall y | y in before :: y.start == x.start && y in later
  {
    assert ([x] + later)[1..] == later;
    assert forall y | y in later :: x.start <= y.start;
    hide Sorted;
    before, after := TakeOutHead([x] + later, b);
    MultisetMembers(later, before + after);
    assert forall y | y in before :: y in before + after;
    SortedBefore(before, x, after);
  }

  /** Two ordered lists of the same sites give the same text when their ties commute. */
  lemma {:induction false} SameOutput(source: Text, a: seq<Site>, b: seq<Site>, cursor: nat)
    requires InSource(source, a) && InSource(source, b) && cursor <= |source|
    requires Sorted(a, StartsNoLater) && Sorted(b, StartsNoLater) && multiset(a) == multiset(b)
    requires Chained(a, cursor) && Chained(b, cursor) && TiesCommute(a)
    ensures SpliceFrom(source, a, cursor) == SpliceFrom(source, b, cursor)
    decreases |a|
  {
    assert |a| == |multiset(a)| && |b| == |multiset(b)|;
    if a != [] {
      var x, later := a[0], a[1..];
      assert a == [x] + later;
      hide *;
      var before, after := LeastInBoth(x, later, b);
      TiesWithHead(x, later, before);
      MoveToFront(source, before, x, after, cursor);
      var others := before + after;
      Unchain(source, x, later, cursor);
      Unchain(source, x, others, cursor);
      SameOutput(source, later, others, x.end);
    }
  }

  lemma TiesWithHead(x: Site, later: seq<Site>, before: seq<Site>)
    requires TiesCommute([x] + later) && forall y | y in before :: y in later
    ensures TiesCommute(later) && forall y | y in before :: TieCommutes(y, x)
  {
    hide Pairwise;
    PairwiseCons(x, later, TieCommutes);
  }

  lemma Unchain(source: Text, x: Site, rest: seq<Site>, cursor: nat)
    requires InSource(source, [x] + rest) && Chained([x] + rest, cursor) && cursor <= |source|
    ensures cursor <= x.start <= x.end <= |source|
    ensures InSource(source, rest) && Chained(rest, x.end) && Sorted(rest, StartsNoLater)
    ensures SpliceFrom(source, [x] + rest, cursor)
         == source[cursor..x.start] + x.replacement + SpliceFrom(source, rest, x.end)
  {
    SpliceHead(source, [x] + rest, cursor);
    assert ([x] + rest)[1..] == rest;
    ChainedIsSorted(rest, x.end);
  }

  lemma TieSymmetric(a: Site, b: Site)
    ensures TieCommutes(a, b) <==> TieCommutes(b, a)
    ensures Apart(a, b) <==> Apart(b, a)
  {
  }

  lemma CommutingOrderIrrelevant(source: Text, sites: seq<Site>, shuffled: seq<Site>)
    requires InSource(source, sites) && InSource(source, shuffled) && multiset(shuffled) == multiset(sites)
    requires NoOverlap(sites) && TiesCommute(sites)
    ensures ApplySites(source, shuffled) == ApplySites(source, sites)
  {
    var a, b := SortByStart(sites), SortByStart(shuffled);
    SymmetricShuffled(sites, shuffled);
    SymmetricShuffled(sites, a);
    CommutingFit(source, sites);
    CommutingFit(source, shuffled);
    SortInSource(source, sites);
    SortInSource(source, shuffled);
    hide *;
    ApplyRaisesIff(source, sites);
    ApplyRaisesIff(source, shuffled);
    AppliedIsSpliced(source, sites);
    AppliedIsSpliced(source, shuffled);
    SameOutput(source, a, b, 0);
  }

  lemma AppliedIsSpliced(source: Text, sites: seq<Site>)
    requires InSource(source, sites) && ApplySites(source, sites).Ok?
    ensures var sorted := SortByStart(sites);
      && InSource(source, sorted) && Chained(sorted, 0) && Sorted(sorted, StartsNoLater)
      && ApplySites(source, sites) == Ok(SpliceFrom(source, sorted, 0))
  {
    SortInSource(source, sites);
  }

  lemma SymmetricShuffled(sites: seq<Site>, shuffled: seq<Site>)
    requires multiset(shuffled) == multiset(sites)
    ensures NoOverlap(sites) <==> NoOverlap(shuffled)
    ensures TiesCommute(sites) <==> TiesCommute(shuffled)
  {
    forall x, y ensures (TieCommutes(x, y) <==> TieCommutes(y, x)) && (Apart(x, y) <==> Apart(y, x)) {
      TieSymmetric(x, y);
    }
    hide Pairwise, TieCommutes, Apart;
    if NoOverlap(sites) {
      PairwiseShuffled(sites, shuffled, Apart);
    } else if NoOverlap(shuffled) {
      PairwiseShuffled(shuffled, sites, Apart);
    }
    if TiesCommute(sites) {
      PairwiseShuffled(sites, shuffled, TieCommutes);
    } else if TiesCommute(shuffled) {
      PairwiseShuffled(shuffled, sites, TieCommutes);
    }
  }

  lemma CommutingFit(source: Text, sites: seq<Site>)
    requires InSource(source, sites) && NoOverlap(sites) && TiesCommute(sites)
    ensures Pairwise(sites, Fits)
  {
    forall i, j | 0 <= i < j < |sites| ensures Fits(sites[i], sites[j]) {
      assert sites[i] in sites && sites[j] in sites;
      assert Apart(sites[i], sites[j]) && TieCommutes(sites[i], sites[j]);
      FitsIffApart(sites[i], sites[j]);
    }
  }

  // ----- Other ties do -----

  function Insertions(sites: seq<Site>): seq<Site> {
    if sites == [] then []
    else (if sites[0].start == sites[0].end then [sites[0]] else []) + Insertions(sites[1..])
  }

  function Replacements(sites: seq<Site>): seq<Site> {
    if sites == [] then []
    else (if sites[0].start != sites[0].end then [sites[0]] else []) + Replacements(sites[1..])
  }

  lemma InsertionsHead(x: Site, rest: seq<Site>)
    ensures Insertions([x] + rest) == (if x.start == x.end then [x] else []) + Insertions(rest)
    ensures Replacements([x] + rest) == (if x.start == x.end then [] else [x]) + Replacements(rest)
  {
    assert ([x] + rest)[1..] == rest;
  }

  lemma {:induction false} InsertionsShuffle(sites: seq<Site>)
    ensures multiset(Insertions(sites) + Replacements(sites)) == multiset(sites)
  {
    if sites != [] {
      InsertionsShuffle(sites[1..]);
      assert sites == [sites[0]] + sites[1..];
    }
  }

  lemma InsertionsStep(x: Site, rest: seq<Site>)
    requires Pairwise(Insertions(rest) + Replacements(rest), Fits) && x.start <= x.end
    requires forall y | y in rest :: y.start <= y.end && Apart(x, y)
    ensures Pairwise(Insertions([x] + rest) + Replacements([x] + rest), Fits)
  {
    hide Pairwise, Insertions, Replacements, Apart, Fits;
    var ins, reps := Insertions(rest), Replacements(rest);
    InsertionsAreEmpty(rest);
    InsertionsHead(x, rest);
    PlaceFirst(x, ins, reps);
    hide *;
    if x.start == x.end {
      assert ([x] + ins) + ([] + reps) == [x] + (ins + reps);
    } else {
      assert ([] + ins) + ([x] + reps) == ins + ([x] + reps);
    }
  }

  /** Insertions first is an order in which sites that do not overlap always fit. */
  lemma {:induction false} InsertionsFirst(sites: seq<Site>)
    requires ForwardSpans(sites) && NoOverlap(sites)
    ensures Pairwise(Insertions(sites) + Replacements(sites), Fits)
  {
    if sites != [] {
      var x, rest := sites[0], sites[1..];
      assert sites == [x] + rest && x in sites;
      assert forall y | y in rest :: y in sites;
      hide Pairwise, Insertions, Replacements, Apart, Fits;
      PairwiseCons(x, rest, Apart);
      InsertionsFirst(rest);
      InsertionsStep(x, rest);
    }
  }

  lemma PlaceFirst(x: Site, ins: seq<Site>, reps: seq<Site>)
    requires Pairwise(ins + reps, Fits) && x.start <= x.end
    requires forall y | y in ins :: y.start == y.end && Apart(x, y)
    requires forall y | y in reps :: y.start < y.end && Apart(x, y)
    ensures Pairwise(if x.start == x.end then [x] + (ins + reps) else ins + ([x] + reps), Fits)
  {
    hide Pairwise, Fits, Apart;
    PairwiseConcat(ins, reps, Fits);
    forall y | y in ins ensures Fits(y, x) && (x.start == x.end ==> Fits(x, y)) {
      ApartFits(x, y);
    }
    forall y | y in reps ensures Fits(x, y) {
      ApartFits(x, y);
    }
    if x.start == x.end {
      PairwiseCons(x, ins + reps, Fits);
    } else {
      PairwiseCons(x, reps, Fits);
      PairwiseConcat(ins, [x] + reps, Fits);
    }
  }

  lemma ApartFits(x: Site, y: Site)
    requires x.start <= x.end && y.start <= y.end && Apart(x, y)
    ensures y.start == y.end ==> Fits(y, x)
    ensures x.start == x.end || y.start < y.end ==> Fits(x, y)
  {
  }

  lemma {:induction false} InsertionsAreEmpty(sites: seq<Site>)
    ensures forall y | y in Insertions(sites) :: y.start == y.end && y in sites
    ensures forall y | y in Replacements(sites) :: y.start != y.end && y in sites
  {
    if sites != [] {
      InsertionsAreEmpty(sites[1..]);
    }
  }

  /** Where two insertions meet other sites, exchanging them changes the text exactly when
      their texts do not commute. */
  lemma {:induction false} InsertedExchange(source: Text, a: Site, b: Site, sorted: seq<Site>, cursor: nat)
    requires a.start == a.end == b.start == b.end <= |source| && InSource(source, sorted) && cursor <= |source|
    requires Chained(Insert(a, Insert(b, sorted, StartsNoLater), StartsNoLater), cursor)
    requires Chained(Insert(b, Insert(a, sorted, StartsNoLater), StartsNoLater), cursor)
    ensures var ab := Insert(a, Insert(b, sorted, StartsNoLater), StartsNoLater);
            var ba := Insert(b, Insert(a, sorted, StartsNoLater), StartsNoLater);
      && InSource(source, ab) && InSource(source, ba)
      && (SpliceFrom(source, ab, cursor) == SpliceFrom(source, ba, cursor)
          <==> a.replacement + b.replacement == b.replacement + a.replacement)
    decreases |sorted|
  {
    var ab := Insert(a, Insert(b, sorted, StartsNoLater), StartsNoLater);
    var ba := Insert(b, Insert(a, sorted, StartsNoLater), StartsNoLater);
    if sorted == [] || a.start <= sorted[0].start {
      assert ab == [a] + ([b] + sorted) && ba == [b] + ([a] + sorted);
      assert ab[1..] == [b] + sorted && ab[1..][1..] == sorted;
      ExchangeIff(source, a, b, sorted, cursor);
    } else {
      var first, rest := sorted[0], sorted[1..];
      assert first in sorted && forall y | y in rest :: y in sorted;
      var laterAb, laterBa := ab[1..], ba[1..];
      InsertedLater(a, b, first, rest);
      InsertedLater(b, a, first, rest);
      hide Insert, StartsNoLater;
      InsertedExchange(source, a, b, rest, first.end);
      SpliceCons(source, first, laterAb, cursor);
      SpliceCons(source, first, laterBa, cursor);
      CancelPrefix(source[cursor..first.start] + first.replacement,
                   SpliceFrom(source, laterAb, first.end), SpliceFrom(source, laterBa, first.end));
    }
  }

  lemma InsertedLater(a: Site, b: Site, first: Site, rest: seq<Site>)
    requires first.start < a.start == b.start
    ensures var ab := Insert(a, Insert(b, [first] + rest, StartsNoLater), StartsNoLater);
      ab == [first] + Insert(a, Insert(b, rest, StartsNoLater), StartsNoLater)
      && ab[1..] == Insert(a, Insert(b, rest, StartsNoLater), StartsNoLater)
  {
    assert ([first] + rest)[1..] == rest;
    var inner := Insert(b, rest, StartsNoLater);
    assert ([first] + inner)[1..] == inner;
  }

  /** The two sites at `i` and `j`, moved to the front. */
  function Fronted(sites: seq<Site>, i: nat, j: nat): seq<Site>
    requires i < j < |sites|
  {
    sites[..i] + sites[i + 1..j] + sites[j + 1..]
  }

  lemma FrontedShuffles(source: Text, sites: seq<Site>, i: nat, j: nat)
    requires InSource(source, sites) && i < j < |sites|
    ensures var rest := Fronted(sites, i, j);
      && multiset([sites[i]] + ([sites[j]] + rest)) == multiset(sites)
      && multiset([sites[j]] + ([sites[i]] + rest)) == multiset(sites)
      && InSource(source, [sites[i]] + ([sites[j]] + rest)) && InSource(source, [sites[j]] + ([sites[i]] + rest))
  {
    var rest := Fronted(sites, i, j);
    assert sites == sites[..i] + [sites[i]] + sites[i + 1..j] + [sites[j]] + sites[j + 1..];
    MultisetMembers(sites, [sites[i]] + ([sites[j]] + rest));
    MultisetMembers(sites, [sites[j]] + ([sites[i]] + rest));
  }

  lemma SortCons(x: Site, rest: seq<Site>)
    ensures SortByStart([x] + rest) == Insert(x, SortByStart(rest), StartsNoLater)
  {
    assert ([x] + rest)[1..] == rest;
  }

  /** If the order is irrelevant it is accepted, since insertions first is accepted. */
  lemma IrrelevantIsAccepted(source: Text, sites: seq<Site>, shuffled: seq<Site>)
    requires InSource(source, sites) && NoOverlap(sites) && OrderIrrelevant(source, sites)
    requires InSource(source, shuffled) && multiset(shuffled) == multiset(sites)
    ensures ApplySites(source, shuffled) == ApplySites(source, sites) && ApplySites(source, shuffled).Ok?
    ensures Pairwise(shuffled, Fits)
  {
    hide ApplySites, Pairwise, Insertions, Replacements;
    var first := Insertions(sites) + Replacements(sites);
    InsertionsFirst(sites);
    InsertionsShuffle(sites);
    MultisetMembers(sites, first);
    ApplyRaisesIff(source, first);
    ApplyRaisesIff(source, shuffled);
  }

  lemma IrrelevantTieCommutes(source: Text, sites: seq<Site>, i: nat, j: nat)
    requires InSource(source, sites) && NoOverlap(sites) && OrderIrrelevant(source, sites) && i < j < |sites|
    ensures TieCommutes(sites[i], sites[j])
  {
    var a, b, rest := sites[i], sites[j], Fronted(sites, i, j);
    if a.start == b.start {
      assert a in sites && b in sites;
      FrontedShuffles(source, sites, i, j);
      hide *;
      IrrelevantIsAccepted(source, sites, [a] + ([b] + rest));
      IrrelevantIsAccepted(source, sites, [b] + ([a] + rest));
      TiedInFront(source, a, b, rest);
      TieIntro(a, b);
    }
  }

  lemma TieIntro(a: Site, b: Site)
    requires a.start == a.end == b.end && a.replacement + b.replacement == b.replacement + a.replacement
    requires a.start == b.start
    ensures TieCommutes(a, b)
  {
  }

  lemma FitsBoth(a: Site, b: Site, rest: seq<Site>)
    requires Pairwise([a] + ([b] + rest), Fits)
    ensures Fits(a, b)
  {
    PairwiseCons(a, [b] + rest, Fits);
    assert b in [b] + rest;
  }

  lemma TiedInFront(source: Text, a: Site, b: Site, rest: seq<Site>)
    requires InSource(source, [a] + ([b] + rest)) && InSource(source, [b] + ([a] + rest))
    requires a.start == b.start && a.start <= a.end <= |source| && b.start <= b.end
    requires Pairwise([a] + ([b] + rest), Fits) && Pairwise([b] + ([a] + rest), Fits)
    requires ApplySites(source, [a] + ([b] + rest)) == ApplySites(source, [b] + ([a] + rest))
    requires ApplySites(source, [a] + ([b] + rest)).Ok?
    ensures a.start == a.end == b.end && a.replacement + b.replacement == b.replacement + a.replacement
  {
    hide *;
    FitsBoth(a, b, rest);
    FitsBoth(b, a, rest);
    FitsIffApart(a, b);
    FitsIffApart(b, a);
    AppliedIsSpliced(source, [a] + ([b] + rest));
    AppliedIsSpliced(source, [b] + ([a] + rest));
    SortCons(a, [b] + rest);
    SortCons(b, rest);
    SortCons(b, [a] + rest);
    SortCons(a, rest);
    SubsetInSource(source, a, b, rest);
    InsertedExchange(source, a, b, SortByStart(rest), 0);
  }

  lemma SubsetInSource(source: Text, a: Site, b: Site, rest: seq<Site>)
    requires InSource(source, [a] + ([b] + rest))
    ensures InSource(source, SortByStart(rest))
  {
    assert forall y | y in rest :: y in [a] + ([b] + rest);
    SortInSource(source, rest);
  }

  /** The order of the list is irrelevant exactly when two sites overlap, so that every order
      is refused, or when all sites that start together are insertions with commuting texts. */
  lemma OrderIrrelevantIff(source: Text, sites: seq<Site>)
    requires InSource(source, sites)
    ensures OrderIrrelevant(source, sites) <==> (NoOverlap(sites) ==> TiesCommute(sites))
  {
    hide ApplySites;
    if NoOverlap(sites) {
      if OrderIrrelevant(source, sites) {
        forall i, j | 0 <= i < j < |sites| ensures TieCommutes(sites[i], sites[j]) {
          IrrelevantTieCommutes(source, sites, i, j);
        }
      }
      if TiesCommute(sites) {
        forall shuffled | InSource(source, shuffled) && multiset(shuffled) == multiset(sites)
          ensures ApplySites(source, shuffled) == ApplySites(source, sites)
        {
          CommutingOrderIrrelevant(source, sites, shuffled);
        }
      }
    } else {
      OverlapIsRefused(source, sites);
      forall shuffled | InSource(source, shuffled) && multiset(shuffled) == multiset(sites)
        ensures ApplySites(source, shuffled) == ApplySites(source, sites)
      {
        SymmetricShuffled(sites, shuffled);
        OverlapIsRefused(source, shuffled);
      }
    }
  }

  lemma OverlapIsRefused(source: Text, sites: seq<Site>)
    requires InSource(source, sites) && !NoOverlap(sites)
    ensures ApplySites(source, sites) == Err(OverlappingSites)
  {
    ApplyRaisesIff(source, sites);
    hide ApplySites;
    if Pairwise(sites, Fits) {
      forall i, j | 0 <= i < j < |sites| ensures Apart(sites[i], sites[j]) {
        assert Fits(sites[i], sites[j]);
      }
      assert false;
    }
    var r := ApplySites(source, sites);
    assert r == Err(OverlappingSites) by { assert r.Err?; }
  }

  /** With nonempty spans, as a rename makes them, the order is always irrelevant. */
  lemma ApplyIgnoresOrder(source: Text, sites: seq<Site>, shuffled: seq<Site>)
    requires InSource(source, sites) && NonEmptySpans(sites)
    requires multiset(sites) == multiset(shuffled)
    ensures InSource(source, shuffled)
    ensures ApplySites(source, shuffled) == ApplySites(source, sites)
  {
    hide ApplySites;
    MultisetMembers(sites, shuffled);
    if NoOverlap(sites) {
      forall i, j | 0 <= i < j < |sites| ensures TieCommutes(sites[i], sites[j]) {
        assert Apart(sites[i], sites[j]);
        assert sites[i] in sites && sites[j] in sites;
      }
    }
    OrderIrrelevantIff(source, sites);
  }

  /** A list that fails the condition: an insertion and a replacement that start together. */
  lemma EmptySpanOrderMatters() returns (source: Text, sites: seq<Site>)
    ensures InSource(source, sites) && NoOverlap(sites) && !OrderIrrelevant(source, sites)
  {
    source := "ab";
    sites := [Site(1, 1, "x", "import"), Site(1, 2, "y", "import")];
    assert Apart(sites[0], sites[1]) && !TieCommutes(sites[0], sites[1]);
    hide OrderIrrelevant;
    OrderIrrelevantIff(source, sites);
  }
}
