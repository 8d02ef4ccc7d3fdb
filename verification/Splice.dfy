/** `_apply`: splice authorized rewrite sites into a source text. */
module Splice {
  import opened Outcomes
  import opened Sequences
  import opened Utf8
  import opened StableSort

  datatype Site = Site(start: nat, end: nat, replacement: Text, kind: string)

  datatype SpliceError = OverlappingSites

  /** Sites come from spans of the same source. */
  predicate InSource(source: Text, sites: seq<Site>) {
    forall site | site in sites :: site.start <= site.end <= |source|
  }

  ghost predicate NonEmptySpans(sites: seq<Site>) {
    forall site | site in sites :: site.start < site.end
  }

  /** The sort key of `_apply`. */
  predicate StartsNoLater(a: Site, b: Site) {
    a.start <= b.start
  }

  function SortByStart(sites: seq<Site>): (sorted: seq<Site>)
    ensures Sorted(sorted, StartsNoLater) && multiset(sorted) == multiset(sites)
  {
    SortKeeps(sites, StartsNoLater);
    Sort(sites, StartsNoLater)
  }

  // ----- The splice -----

  /** No site of an ordered list starts before its predecessor's end. */
  predicate Chained(ordered: seq<Site>, cursor: nat) {
    ordered == [] || (cursor <= ordered[0].start && Chained(ordered[1..], ordered[0].end))
  }

  function SpliceFrom(source: Text, ordered: seq<Site>, cursor: nat): Text
    requires InSource(source, ordered) && Chained(ordered, cursor) && cursor <= |source|
  {
    if ordered == [] then source[cursor..]
    else
      var site := ordered[0];
      assert site in ordered;
      source[cursor..site.start] + site.replacement + SpliceFrom(source, ordered[1..], site.end)
  }

  function ApplySites(source: Text, sites: seq<Site>): Result<Text, SpliceError>
    requires InSource(source, sites)
  {
    SortInSource(source, sites);
    var ordered := SortByStart(sites);
    if Chained(ordered, 0) then Ok(SpliceFrom(source, ordered, 0)) else Err(OverlappingSites)
  }

  lemma SortInSource(source: Text, sites: seq<Site>)
    requires InSource(source, sites)
    ensures InSource(source, SortByStart(sites))
  {
    forall site | site in SortByStart(sites) ensures site in sites {
      assert site in multiset(SortByStart(sites));
    }
  }

  /** The source's loop over the sorted sites. */
  method Apply(source: Text, sites: seq<Site>) returns (result: Result<Text, SpliceError>)
    requires InSource(source, sites)
    ensures result == ApplySites(source, sites)
  {
    hide SortByStart, Chained, SpliceFrom;
    SortInSource(source, sites);
    var ordered := SortByStart(sites);
    var pieces := "";
    var cursor: nat := 0;
    assert ordered[0..] == ordered;
    for i := 0 to |ordered|
      invariant cursor <= |source|
      invariant Chained(ordered, 0) <==> Chained(ordered[i..], cursor)
      invariant Chained(ordered, 0) ==>
          SpliceFrom(source, ordered, 0) == pieces + SpliceFrom(source, ordered[i..], cursor)
    {
      var site := ordered[i];
      SpliceAt(source, ordered, i, cursor);
      if site.start < cursor {
        return Err(OverlappingSites);
      }
      if Chained(ordered, 0) {
        AppendAssociates(pieces, source[cursor..site.start] + site.replacement,
                         SpliceFrom(source, ordered[i + 1..], site.end));
        AppendAssociates(pieces, source[cursor..site.start], site.replacement);
      }
      pieces := pieces + source[cursor..site.start] + site.replacement;
      cursor := site.end;
    }
    SpliceNone(source, ordered, cursor);
    result := Ok(pieces + source[cursor..]);
  }

  lemma SpliceAt(source: Text, ordered: seq<Site>, i: nat, cursor: nat)
    requires InSource(source, ordered) && i < |ordered| && cursor <= |source|
    ensures InSource(source, ordered[i..]) && InSource(source, ordered[i + 1..])
    ensures Chained(ordered[i..], cursor) <==>
            cursor <= ordered[i].start && Chained(ordered[i + 1..], ordered[i].end)
    ensures ordered[i].start <= ordered[i].end <= |source|
    ensures Chained(ordered[i..], cursor) ==>
            SpliceFrom(source, ordered[i..], cursor)
            == source[cursor..ordered[i].start] + ordered[i].replacement
               + SpliceFrom(source, ordered[i + 1..], ordered[i].end)
  {
    assert ordered[i..][0] == ordered[i] && ordered[i..][1..] == ordered[i + 1..];
    assert ordered[i] in ordered;
    assert forall x | x in ordered[i + 1..] :: x in ordered[i..];
  }

  lemma SpliceNone(source: Text, ordered: seq<Site>, cursor: nat)
    requires cursor <= |source|
    ensures Chained(ordered[|ordered|..], cursor)
    ensures SpliceFrom(source, ordered[|ordered|..], cursor) == source[cursor..]
  {
  }

  // ----- When it raises -----

  predicate Apart(a: Site, b: Site) {
    a.end <= b.start || b.end <= a.start
  }

  ghost predicate NoOverlap(sites: seq<Site>) {
    Pairwise(sites, Apart)
  }

  ghost predicate ForwardSpans(sites: seq<Site>) {
    forall site | site in sites :: site.start <= site.end
  }

  /** `a` comes before `b` in the list: the one that starts earlier, or `a` if they start
      together, ends before the other starts. */
  predicate Fits(a: Site, b: Site) {
    if a.start <= b.start then a.end <= b.start else b.end <= a.start
  }

  lemma {:induction false} ChainedInsert(site: Site, sorted: seq<Site>, cursor: nat)
    requires Sorted(sorted, StartsNoLater) && ForwardSpans([site] + sorted)
    ensures Chained(Insert(site, sorted, StartsNoLater), cursor) <==>
            cursor <= site.start && Chained(sorted, cursor) && forall y | y in sorted :: Fits(site, y)
  {
    if sorted != [] {
      var first, rest := sorted[0], sorted[1..];
      assert sorted == [first] + rest;
      assert site in [site] + sorted && first in [site] + sorted;
      assert ForwardSpans([site] + rest) by {
        assert forall y | y in [site] + rest :: y in [site] + sorted;
      }
      assert (forall y | y in sorted :: Fits(site, y)) <==> Fits(site, first) && forall y | y in rest :: Fits(site, y);
      if site.start <= first.start {
        assert ([site] + sorted)[1..] == sorted;
      } else {
        ChainedInsert(site, rest, first.end);
        assert ([first] + Insert(site, rest, StartsNoLater))[1..] == Insert(site, rest, StartsNoLater);
      }
    } else {
      assert [site][1..] == [];
    }
  }

  lemma {:induction false} ChainedIffAllFit(sites: seq<Site>)
    requires ForwardSpans(sites)
    ensures Chained(SortByStart(sites), 0) <==> Pairwise(sites, Fits)
  {
    if sites != [] {
      var first, rest := sites[0], sites[1..];
      assert sites == [first] + rest;
      var sorted := SortByStart(rest);
      assert SortByStart(sites) == Insert(first, sorted, StartsNoLater);
      hide Fits, Pairwise, SortByStart, Sorted;
      ChainedIffAllFit(rest);
      MultisetMembers(rest, sorted);
      assert forall y | y in [first] + sorted :: y in sites;
      ChainedInsert(first, sorted, 0);
      PairwiseCons(first, rest, Fits);
    }
  }

  /** `_apply` succeeds exactly when every two sites fit in the order they are listed. */
  lemma ApplyRaisesIff(source: Text, sites: seq<Site>)
    requires InSource(source, sites)
    ensures ApplySites(source, sites).Ok? <==> Pairwise(sites, Fits)
  {
    ChainedIffAllFit(sites);
  }

  lemma FitsIffApart(a: Site, b: Site)
    requires a.start <= a.end && b.start <= b.end
    ensures Fits(a, b) ==> Apart(a, b)
    ensures a.start != b.start || (a.start < a.end && b.start < b.end) ==> (Fits(a, b) <==> Apart(a, b))
    ensures a.start == b.start == a.end == b.end ==> Fits(a, b)
    ensures a.start == b.start ==> (Fits(a, b) <==> a.start == a.end)
  {
  }

  /** With nonempty spans it raises exactly when two sites overlap. */
  lemma ApplyRaisesIffOverlap(source: Text, sites: seq<Site>)
    requires InSource(source, sites) && NonEmptySpans(sites)
    ensures ApplySites(source, sites).Ok? <==> NoOverlap(sites)
  {
    ApplyRaisesIff(source, sites);
    forall i, j | 0 <= i < j < |sites| ensures Fits(sites[i], sites[j]) <==> Apart(sites[i], sites[j]) {
      assert sites[i] in sites && sites[j] in sites;
      FitsIffApart(sites[i], sites[j]);
    }
  }

  lemma {:induction false} StrictlyLater(a: seq<Site>, cursor: nat)
    requires a != [] && Chained(a, cursor) && NonEmptySpans(a)
    ensures forall x | x in a[1..] :: a[0].end <= x.start
  {
    if |a| > 1 {
      assert a[0] in a && a[1] in a;
      assert forall x | x in a[1..] :: x in a;
      StrictlyLater(a[1..], a[0].end);
      assert a[1..][0] == a[1];
      forall x | x in a[1..] ensures a[0].end <= x.start {
        assert x == a[1] || x in a[1..][1..];
      }
    }
  }

  // ----- What the result is -----

  ghost predicate SpansWithin(source: Text, sites: set<Site>) {
    forall site | site in sites :: site.start < site.end <= |source|
  }

  /** The reference: walk the source character by character; where a site starts,
      emit its replacement and skip to its end; keep every other character. */
  ghost function Rewritten(source: Text, sites: set<Site>, at: nat): Text
    requires at <= |source| && SpansWithin(source, sites)
    decreases |source| - at
  {
    if exists site :: site in sites && site.start == at then
      var site :| site in sites && site.start == at;
      site.replacement + Rewritten(source, sites, site.end)
    else if at == |source| then ""
    else [source[at]] + Rewritten(source, sites, at + 1)
  }

  /** Between two sites the reference copies the source. */
  lemma {:induction false} RewrittenGap(source: Text, sites: set<Site>, at: nat, upTo: nat)
    requires at <= upTo <= |source| && SpansWithin(source, sites)
    requires forall site | site in sites :: !(at <= site.start < upTo)
    ensures Rewritten(source, sites, at) == source[at..upTo] + Rewritten(source, sites, upTo)
    decreases upTo - at
  {
    if at < upTo {
      RewrittenStep(source, sites, at);
      hide *;
      RewrittenGap(source, sites, at + 1, upTo);
      var tail := Rewritten(source, sites, upTo);
      AppendAssociates([source[at]], source[at + 1..upTo], tail);
      assert source[at..upTo] == [source[at]] + source[at + 1..upTo];
    } else {
      assert source[at..upTo] == "";
    }
  }

  lemma RewrittenStep(source: Text, sites: set<Site>, at: nat)
    requires at < |source| && SpansWithin(source, sites)
    requires forall site | site in sites :: site.start != at
    ensures Rewritten(source, sites, at) == [source[at]] + Rewritten(source, sites, at + 1)
  {
  }

  lemma RewrittenToEnd(source: Text, sites: set<Site>, at: nat)
    requires at <= |source| && SpansWithin(source, sites)
    requires forall site | site in sites :: site.start < at
    ensures Rewritten(source, sites, at) == source[at..]
  {
    RewrittenGap(source, sites, at, |source|);
    assert source[at..|source|] == source[at..];
    assert Rewritten(source, sites, |source|) == "";
  }

  lemma RewrittenAtSite(source: Text, sites: set<Site>, site: Site)
    requires SpansWithin(source, sites)
    requires site in sites && forall other | other in sites && other.start == site.start :: other == site
    ensures Rewritten(source, sites, site.start) == site.replacement + Rewritten(source, sites, site.end)
  {
  }

  lemma SpliceHead(source: Text, ordered: seq<Site>, cursor: nat)
    requires InSource(source, ordered) && Chained(ordered, cursor) && cursor <= |source| && ordered != []
    ensures cursor <= ordered[0].start <= ordered[0].end <= |source|
    ensures InSource(source, ordered[1..]) && Chained(ordered[1..], ordered[0].end)
    ensures SpliceFrom(source, ordered, cursor)
         == source[cursor..ordered[0].start] + ordered[0].replacement
            + SpliceFrom(source, ordered[1..], ordered[0].end)
  {
    assert ordered[0] in ordered;
    assert forall x | x in ordered[1..] :: x in ordered;
  }

  /** `ordered` holds exactly the sites that start at `cursor` or later. */
  ghost predicate Remaining(sites: set<Site>, ordered: seq<Site>, cursor: nat) {
    && (forall site | site in ordered :: site in sites)
    && (forall site | site in sites && site.start >= cursor :: site in ordered)
  }

  lemma NextSite(source: Text, sites: set<Site>, ordered: seq<Site>, cursor: nat)
    requires SpansWithin(source, sites)
    requires Remaining(sites, ordered, cursor) && ordered != []
    requires Chained(ordered, cursor)
    ensures var site := ordered[0];
      && site in sites && Remaining(sites, ordered[1..], site.end)
      && (forall other | other in sites && other.start >= cursor :: other.start >= site.start)
      && (forall other | other in sites && other.start == site.start :: other == site)
  {
    var site, rest := ordered[0], ordered[1..];
    assert NonEmptySpans(ordered);
    StrictlyLater(ordered, cursor);
    assert site in ordered;
    assert forall x | x in ordered :: x == site || x in rest;
    assert forall x | x in rest :: x in ordered;
  }

  lemma {:induction false} SpliceIsRewritten(source: Text, sites: set<Site>, ordered: seq<Site>, cursor: nat)
    requires SpansWithin(source, sites)
    requires Remaining(sites, ordered, cursor) && InSource(source, ordered)
    requires Chained(ordered, cursor) && cursor <= |source|
    ensures SpliceFrom(source, ordered, cursor) == Rewritten(source, sites, cursor)
    decreases |ordered|
  {
    if ordered == [] {
      RewrittenToEnd(source, sites, cursor);
    } else {
      SpliceHead(source, ordered, cursor);
      var site, rest := ordered[0], ordered[1..];
      hide *;
      NextSite(source, sites, ordered, cursor);
      RewrittenGap(source, sites, cursor, site.start);
      SpliceIsRewritten(source, sites, rest, site.end);
      RewrittenAtSite(source, sites, site);
      AppendAssociates(source[cursor..site.start], site.replacement, SpliceFrom(source, rest, site.end));
    }
  }

  /** Outside the sites every character is kept in order; each site becomes its
      replacement. The right-hand side never mentions an order of the sites. */
  lemma ApplyMeaning(source: Text, sites: seq<Site>)
    requires InSource(source, sites) && NonEmptySpans(sites) && NoOverlap(sites)
    ensures ApplySites(source, sites) == Ok(Rewritten(source, set site | site in sites, 0))
  {
    var all := set site | site in sites;
    ApplyRaisesIffOverlap(source, sites);
    SortInSource(source, sites);
    var ordered := SortByStart(sites);
    assert forall site :: site in ordered <==> site in multiset(ordered);
    assert forall site :: site in sites <==> site in multiset(sites);
    SpliceIsRewritten(source, all, ordered, 0);
  }

  // ----- Undoing a splice -----

  /** The site that puts the text of `site` back where its replacement now begins. */
  function Back(source: Text, site: Site, at: nat): Site
    requires site.start <= site.end <= |source|
  {
    Site(at, at + |site.replacement|, source[site.start..site.end], site.kind)
  }

  /** The sites that put the old text back, shifted to where it now belongs. */
  function Inverse(source: Text, ordered: seq<Site>, cursor: nat, shift: int): seq<Site>
    requires InSource(source, ordered) && Chained(ordered, cursor) && cursor <= |source|
    requires cursor + shift >= 0
  {
    if ordered == [] then []
    else
      var site := ordered[0];
      assert site in ordered;
      var at := site.start + shift;
      [Back(source, site, at)] + Inverse(source, ordered[1..], site.end, at + |site.replacement| - site.end)
  }

  /** Behind `before`, the inverse sites turn the spliced text back into the source from
      `cursor` on. */
  ghost predicate Undoes(source: Text, cursor: nat, before: Text, spliced: Text, inverse: seq<Site>) {
    && cursor <= |source|
    && InSource(before + spliced, inverse) && Chained(inverse, |before|)
    && SpliceFrom(before + spliced, inverse, |before|) == source[cursor..]
  }

  /** The spliced text up to the end of a site's replacement. */
  function Passed(source: Text, site: Site, cursor: nat, before: Text): (r: Text)
    requires cursor <= site.start <= |source|
    ensures |r| == |before| + site.start - cursor + |site.replacement|
  {
    before + source[cursor..site.start] + site.replacement
  }

  lemma {:induction false} InverseRestores(
    source: Text, ordered: seq<Site>, cursor: nat, shift: int, before: Text)
    requires InSource(source, ordered) && Chained(ordered, cursor) && cursor <= |source|
    requires |before| == cursor + shift
    ensures Undoes(source, cursor, before, SpliceFrom(source, ordered, cursor), Inverse(source, ordered, cursor, shift))
    decreases |ordered|
  {
    if ordered == [] {
      UndoesNothing(source, cursor, before);
    } else {
      var site, rest := ordered[0], ordered[1..];
      SpliceHead(source, ordered, cursor);
      hide *;
      var nextShift := site.start + shift + |site.replacement| - site.end;
      InverseRestores(source, rest, site.end, nextShift, Passed(source, site, cursor, before));
      InverseOneMore(source, ordered, cursor, shift, before);
    }
  }

  lemma InverseOneMore(source: Text, ordered: seq<Site>, cursor: nat, shift: int, before: Text)
    requires InSource(source, ordered) && Chained(ordered, cursor) && cursor <= |source|
    requires |before| == cursor + shift && ordered != []
    requires InSource(source, ordered[1..]) && Chained(ordered[1..], ordered[0].end)
    requires cursor <= ordered[0].start <= ordered[0].end <= |source|
    requires var site, rest := ordered[0], ordered[1..];
      Undoes(source, site.end, Passed(source, site, cursor, before), SpliceFrom(source, rest, site.end),
             Inverse(source, rest, site.end, site.start + shift + |site.replacement| - site.end))
    ensures Undoes(source, cursor, before, SpliceFrom(source, ordered, cursor), Inverse(source, ordered, cursor, shift))
  {
    var site, rest := ordered[0], ordered[1..];
    SpliceHead(source, ordered, cursor);
    InverseHead(source, ordered, cursor, shift);
    hide *;
    var at := site.start + shift;
    var later := Inverse(source, rest, site.end, at + |site.replacement| - site.end);
    InverseStep(source, site, cursor, before, SpliceFrom(source, rest, site.end), later, at,
                SpliceFrom(source, ordered, cursor), Inverse(source, ordered, cursor, shift));
  }

  lemma UndoesNothing(source: Text, cursor: nat, before: Text)
    requires cursor <= |source|
    ensures Undoes(source, cursor, before, source[cursor..], [])
  {
    assert (before + source[cursor..])[|before|..] == source[cursor..];
  }

  lemma InverseHead(source: Text, ordered: seq<Site>, cursor: nat, shift: int)
    requires InSource(source, ordered) && Chained(ordered, cursor) && cursor <= |source|
    requires cursor + shift >= 0 && ordered != []
    requires InSource(source, ordered[1..]) && Chained(ordered[1..], ordered[0].end)
    requires cursor <= ordered[0].start <= ordered[0].end <= |source|
    ensures var site := ordered[0];
      var at := site.start + shift;
      Inverse(source, ordered, cursor, shift)
      == [Back(source, site, at)] + Inverse(source, ordered[1..], site.end, at + |site.replacement| - site.end)
  {
    hide Chained, InSource;
  }

  /** One site and the text behind it, undone. */
  lemma InverseStep(
    source: Text, site: Site, cursor: nat, before: Text, spliced: Text, later: seq<Site>, at: nat,
    whole: Text, inverse: seq<Site>)
    requires cursor <= site.start <= site.end <= |source| && at == |before| + site.start - cursor
    requires Undoes(source, site.end, Passed(source, site, cursor, before), spliced, later)
    requires whole == source[cursor..site.start] + site.replacement + spliced
    requires inverse == [Back(source, site, at)] + later
    ensures Undoes(source, cursor, before, whole, inverse)
  {
    var gap := source[cursor..site.start];
    var back := Back(source, site, at);
    hide Chained, InSource, SpliceFrom;
    Regroup(before, gap, site.replacement, spliced);
    UndoOne(before + (gap + site.replacement + spliced), back, later, |before|);
    ThreeParts(source, cursor, site.start, site.end);
  }

  lemma Regroup(a: Text, b: Text, c: Text, d: Text)
    ensures a + (b + c + d) == (a + b + c) + d
    ensures (a + (b + c + d))[|a|..|a| + |b|] == b
  {
  }

  lemma ThreeParts(s: Text, i: nat, j: nat, k: nat)
    requires i <= j <= k <= |s|
    ensures s[i..] == s[i..j] + s[j..k] + s[k..]
  {
  }

  lemma UndoOne(out: Text, back: Site, later: seq<Site>, cursor: nat)
    requires cursor <= back.start <= back.end <= |out|
    requires InSource(out, later) && Chained(later, back.end)
    ensures InSource(out, [back] + later) && Chained([back] + later, cursor)
    ensures SpliceFrom(out, [back] + later, cursor)
         == out[cursor..back.start] + back.replacement + SpliceFrom(out, later, back.end)
  {
    assert ([back] + later)[1..] == later;
  }

  lemma {:induction false} ChainedIsSorted(ordered: seq<Site>, cursor: nat)
    requires Chained(ordered, cursor) && forall site | site in ordered :: site.start <= site.end
    ensures Sorted(ordered, StartsNoLater) && forall site | site in ordered :: cursor <= site.start
  {
    if ordered != [] {
      assert ordered[0] in ordered;
      assert forall site | site in ordered[1..] :: site in ordered;
      ChainedIsSorted(ordered[1..], ordered[0].end);
      assert forall site | site in ordered :: site == ordered[0] || site in ordered[1..];
    }
  }

  /** Applying the inverse sites to the result gives back the base exactly. */
  lemma ApplyUndone(source: Text, sites: seq<Site>)
    requires InSource(source, sites) && ApplySites(source, sites).Ok?
    ensures InSource(source, SortByStart(sites))
    ensures
      var out := ApplySites(source, sites).value;
      var inverse := Inverse(source, SortByStart(sites), 0, 0);
      InSource(out, inverse) && ApplySites(out, inverse) == Ok(source)
  {
    SortInSource(source, sites);
    var ordered := SortByStart(sites);
    var out := SpliceFrom(source, ordered, 0);
    var inverse := Inverse(source, ordered, 0, 0);
    InverseRestores(source, ordered, 0, 0, "");
    assert "" + out == out;
    ChainedIsSorted(inverse, 0);
    SortFixesSorted(inverse, StartsNoLater);
    assert source[0..] == source;
  }
}
