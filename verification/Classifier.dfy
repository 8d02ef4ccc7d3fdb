/** `classify_source_change` and `classify_bytes_change`: a candidate is mechanical
    only when the authorized rewrites of the base reproduce it exactly. */
module Classifier {
  import opened Outcomes
  import opened Utf8
  import opened SourceIndex
  import opened LineEndings
  import opened NamespaceRewrite

  datatype Classification =
    NewFile | Unchanged | MechanicalOnly | SemanticOrAuthoredChange | Unverifiable

  datatype Reason =
    | NoBaseRevision
    | Identical
    | NothingAuthorized
    | BaseNotPython
    | RewriteNotApplicable
    | NoSiteInBase
    | ExceedsTransformation
    | CandidateNotPython
    | EqualsTransformation
    | CandidateNotUtf8
    | BaseNotUtf8

  datatype Verdict = Verdict(
    classification: Classification, reason: Reason, appliedSites: nat, transformations: seq<string>)
  {
    predicate IsExempt() {
      classification == MechanicalOnly || classification == Unchanged
    }
  }

  /** What one registered rewrite does to a text: a result, a `SyntaxError`, or a
      `MechanicalMigrationError`. */
  datatype RewriteOutcome = Applied(source: Text, sites: nat) | NotParseable | NotApplicable

  datatype Transformation = Transformation(
    identifier: string, rewrite: (Text, Option<Text>) -> RewriteOutcome)

  function Identifiers(ts: seq<Transformation>): seq<string> {
    seq(|ts|, i requires 0 <= i < |ts| => ts[i].identifier)
  }

  /** Apply the transformations in order, adding up the sites. */
  function Fold(source: Text, ts: seq<Transformation>, path: Option<Text>): RewriteOutcome {
    if ts == [] then Applied(source, 0)
    else
      match Fold(source, ts[..|ts| - 1], path)
      case NotParseable => NotParseable
      case NotApplicable => NotApplicable
      case Applied(expected, applied) =>
        match ts[|ts| - 1].rewrite(expected, path)
        case NotParseable => NotParseable
        case NotApplicable => NotApplicable
        case Applied(next, sites) => Applied(next, applied + sites)
  }

  /** A failing prefix fails the whole fold the same way: later rewrites never run. */
  lemma {:induction false} FoldStops(source: Text, ts: seq<Transformation>, path: Option<Text>, n: nat)
    requires n <= |ts| && !Fold(source, ts[..n], path).Applied?
    ensures Fold(source, ts, path) == Fold(source, ts[..n], path)
    decreases |ts|
  {
    if n < |ts| {
      var shorter := ts[..|ts| - 1];
      assert shorter[..n] == ts[..n];
      FoldStops(source, shorter, path, n);
    } else {
      assert ts[..n] == ts;
    }
  }

  /** Each rewrite starts from what the one before it made. */
  ghost predicate Chain(
    source: Text, ts: seq<Transformation>, path: Option<Text>, texts: seq<Text>, counts: seq<nat>)
  {
    && |texts| == |ts| + 1 && |counts| == |ts| && texts[0] == source
    && forall i | 0 <= i < |ts| :: ts[i].rewrite(texts[i], path) == Applied(texts[i + 1], counts[i])
  }

  function Sum(counts: seq<nat>): nat {
    if counts == [] then 0 else Sum(counts[..|counts| - 1]) + counts[|counts| - 1]
  }

  lemma ChainGrows(
    source: Text, ts: seq<Transformation>, path: Option<Text>, texts: seq<Text>, counts: seq<nat>, t: Transformation,
    next: Text, sites: nat)
    requires Chain(source, ts, path, texts, counts) && t.rewrite(texts[|ts|], path) == Applied(next, sites)
    ensures Chain(source, ts + [t], path, texts + [next], counts + [sites])
    ensures Sum(counts + [sites]) == Sum(counts) + sites
  {
    assert (counts + [sites])[..|counts|] == counts;
  }

  /** The rewrites that succeed form a chain. */
  lemma {:induction false} AppliedIsChain(source: Text, ts: seq<Transformation>, path: Option<Text>)
    returns (texts: seq<Text>, counts: seq<nat>)
    requires Fold(source, ts, path).Applied?
    ensures Chain(source, ts, path, texts, counts)
    ensures Fold(source, ts, path) == Applied(texts[|ts|], Sum(counts))
  {
    if ts == [] {
      texts, counts := [source], [];
    } else {
      var n := |ts| - 1;
      texts, counts := AppliedIsChain(source, ts[..n], path);
      var last := ts[n].rewrite(texts[n], path);
      ChainGrows(source, ts[..n], path, texts, counts, ts[n], last.source, last.sites);
      assert ts[..n] + [ts[n]] == ts;
      texts, counts := texts + [last.source], counts + [last.sites];
    }
  }

  lemma {:induction false} ChainIsApplied(
    source: Text, ts: seq<Transformation>, path: Option<Text>, texts: seq<Text>, counts: seq<nat>)
    requires Chain(source, ts, path, texts, counts)
    ensures Fold(source, ts, path) == Applied(texts[|ts|], Sum(counts))
    decreases |ts|
  {
    if ts != [] {
      var n := |ts| - 1;
      ChainIsApplied(source, ts[..n], path, texts[..n + 1], counts[..n]);
    }
  }

  lemma {:induction false} FailureEndsChain(source: Text, ts: seq<Transformation>, path: Option<Text>)
    returns (i: nat, texts: seq<Text>, counts: seq<nat>)
    requires !Fold(source, ts, path).Applied?
    ensures i < |ts| && Chain(source, ts[..i], path, texts, counts)
    ensures Fold(source, ts, path) == ts[i].rewrite(texts[i], path)
  {
    var n := |ts| - 1;
    if Fold(source, ts[..n], path).Applied? {
      i := n;
      texts, counts := AppliedIsChain(source, ts[..n], path);
    } else {
      i, texts, counts := FailureEndsChain(source, ts[..n], path);
      assert ts[..n][..i] == ts[..i];
    }
  }

  /** The fold without recursion: it succeeds exactly when the rewrites form a chain from the
      source, with the last text and all their sites; otherwise it fails as the rewrite does
      at which the chain ends. */
  lemma FoldIsChain(source: Text, ts: seq<Transformation>, path: Option<Text>)
    ensures forall out, n :: Fold(source, ts, path) == Applied(out, n) <==>
      exists texts, counts :: Chain(source, ts, path, texts, counts) && texts[|ts|] == out && Sum(counts) == n
    ensures !Fold(source, ts, path).Applied? ==> exists i, texts, counts ::
      && 0 <= i < |ts| && Chain(source, ts[..i], path, texts, counts)
      && Fold(source, ts, path) == ts[i].rewrite(texts[i], path)
  {
    hide Chain, Fold, Sum;
    forall texts, counts | Chain(source, ts, path, texts, counts)
      ensures |texts| == |ts| + 1 && Fold(source, ts, path) == Applied(texts[|ts|], Sum(counts))
    {
      ChainLength(source, ts, path, texts, counts);
      ChainIsApplied(source, ts, path, texts, counts);
    }
    if Fold(source, ts, path).Applied? {
      var texts, counts := AppliedIsChain(source, ts, path);
    } else {
      var i, texts, counts := FailureEndsChain(source, ts, path);
    }
  }

  lemma ChainLength(
    source: Text, ts: seq<Transformation>, path: Option<Text>, texts: seq<Text>, counts: seq<nat>)
    requires Chain(source, ts, path, texts, counts)
    ensures |texts| == |ts| + 1
  {
  }

  function Authored(reason: Reason, applied: nat, ids: seq<string>): Verdict {
    Verdict(SemanticOrAuthoredChange, reason, applied, ids)
  }

  /** The verdict a fold leads to. */
  function FoldVerdict(
    outcome: RewriteOutcome, candidate: Text, parses: Text -> bool, ids: seq<string>): Verdict
  {
    match outcome
    case NotParseable => Authored(BaseNotPython, 0, [])
    case NotApplicable => Authored(RewriteNotApplicable, 0, [])
    case Applied(expected, applied) =>
      if applied == 0 then Authored(NoSiteInBase, 0, ids)
      else if expected != candidate then Authored(ExceedsTransformation, applied, ids)
      else if !parses(candidate) then Authored(CandidateNotPython, 0, ids)
      else Verdict(MechanicalOnly, EqualsTransformation, applied, ids)
  }

  function SourceVerdict(
    base: Option<Text>, candidate: Text, ts: seq<Transformation>, path: Option<Text>,
    parses: Text -> bool): Verdict
  {
    if base.None? then Verdict(NewFile, NoBaseRevision, 0, [])
    else if base.value == candidate then Verdict(Unchanged, Identical, 0, [])
    else if ts == [] then Authored(NothingAuthorized, 0, [])
    else FoldVerdict(Fold(base.value, ts, path), candidate, parses, Identifiers(ts))
  }

  /** The source's function, with its loop over the transformations. */
  method ClassifySourceChange(
    base: Option<Text>, candidate: Text, ts: seq<Transformation>, path: Option<Text>,
    parses: Text -> bool)
    returns (verdict: Verdict)
    ensures verdict == SourceVerdict(base, candidate, ts, path, parses)
  {
    if base.None? {
      return Verdict(NewFile, NoBaseRevision, 0, []);
    }
    if base.value == candidate {
      return Verdict(Unchanged, Identical, 0, []);
    }
    if ts == [] {
      return Authored(NothingAuthorized, 0, []);
    }
    var identifiers := Identifiers(ts);
    var expected := base.value;
    var applied := 0;
    for i := 0 to |ts|
      invariant Fold(base.value, ts[..i], path) == Applied(expected, applied)
    {
      assert ts[..i + 1][..i] == ts[..i];
      match ts[i].rewrite(expected, path) {
        case NotParseable =>
          FoldStops(base.value, ts, path, i + 1);
          return Authored(BaseNotPython, 0, []);
        case NotApplicable =>
          FoldStops(base.value, ts, path, i + 1);
          return Authored(RewriteNotApplicable, 0, []);
        case Applied(next, sites) =>
          expected := next;
          applied := applied + sites;
      }
    }
    assert ts[..|ts|] == ts;
    if applied == 0 {
      return Authored(NoSiteInBase, 0, identifiers);
    }
    if expected != candidate {
      return Authored(ExceedsTransformation, applied, identifiers);
    }
    if !parses(candidate) {
      return Authored(CandidateNotPython, 0, identifiers);
    }
    verdict := Verdict(MechanicalOnly, EqualsTransformation, applied, identifiers);
  }

  /** `classify_bytes_change`: undecodable bytes fail closed. */
  function BytesVerdict(
    base: Option<Bytes>, candidate: Bytes, ts: seq<Transformation>, path: Option<Text>,
    parses: Text -> bool): Verdict
  {
    match Decode(candidate)
    case None => Verdict(Unverifiable, CandidateNotUtf8, 0, [])
    case Some(after) =>
      if base.None? then SourceVerdict(None, after, ts, path, parses)
      else
        match Decode(base.value)
        case None => Verdict(Unverifiable, BaseNotUtf8, 0, [])
        case Some(before) => SourceVerdict(Some(before), after, ts, path, parses)
  }

  // ----- What a verdict proves -----

  /** A comparison is unverifiable exactly when one of its sides does not decode. */
  lemma UnverifiableIffUndecodable(
    base: Option<Bytes>, candidate: Bytes, ts: seq<Transformation>, path: Option<Text>, parses: Text -> bool)
    ensures BytesVerdict(base, candidate, ts, path, parses).classification == Unverifiable
            <==> Decode(candidate).None? || (base.Some? && Decode(base.value).None?)
    ensures BytesVerdict(base, candidate, ts, path, parses).classification == NewFile
            <==> base.None? && Decode(candidate).Some?
    ensures var v := BytesVerdict(base, candidate, ts, path, parses);
      && (v.reason == CandidateNotUtf8 <==> Decode(candidate).None?)
      && (v.reason == BaseNotUtf8 <==> v.classification == Unverifiable && Decode(candidate).Some?)
      && (v.classification in {Unverifiable, NewFile, Unchanged} ==> v.appliedSites == 0 && v.transformations == [])
  {
    hide Decode, Fold;
  }

  /** What the reason and the count of a verdict on two different texts tell: whether anything
      was authorized, how the rewrites of the base ended, and whether the candidate is their
      result. */
  lemma ReasonTells(
    base: Text, candidate: Text, ts: seq<Transformation>, path: Option<Text>, parses: Text -> bool)
    requires base != candidate
    ensures var v, rebuilt := SourceVerdict(Some(base), candidate, ts, path, parses), Fold(base, ts, path);
      && (v.reason == NothingAuthorized <==> ts == [])
      && (v.reason == BaseNotPython <==> rebuilt.NotParseable?)
      && (v.reason == RewriteNotApplicable <==> rebuilt.NotApplicable?)
      && (v.reason == NoSiteInBase <==> ts != [] && rebuilt.Applied? && rebuilt.sites == 0)
      && (v.reason == ExceedsTransformation <==> rebuilt.Applied? && rebuilt.sites > 0 && rebuilt.source != candidate)
      && (v.reason == CandidateNotPython <==>
            rebuilt.Applied? && rebuilt.sites > 0 && rebuilt.source == candidate && !parses(candidate))
      && (v.reason == EqualsTransformation <==> v.classification == MechanicalOnly)
      && (v.classification == MechanicalOnly || v.classification == SemanticOrAuthoredChange)
      && (v.appliedSites > 0 <==> v.reason == ExceedsTransformation || v.classification == MechanicalOnly)
      && (v.appliedSites > 0 ==> v.appliedSites == rebuilt.sites)
      && (v.transformations != [] <==> ts != [] && rebuilt.Applied?)
      && (v.transformations != [] ==>
            (|v.transformations| == |ts| && forall i | 0 <= i < |ts| :: v.transformations[i] == ts[i].identifier))
  {
    if ts != [] {
      assert Identifiers(ts)[0] == ts[0].identifier;
    }
  }

  /** "Strict UTF-8 decoding is injective, so equal decoded texts mean equal bytes." */
  lemma UnchangedIffSameBytes(
    base: Bytes, candidate: Bytes, ts: seq<Transformation>, path: Option<Text>, parses: Text -> bool)
    ensures BytesVerdict(Some(base), candidate, ts, path, parses).classification == Unchanged
            <==> Decode(base).Some? && Decode(candidate).Some? && base == candidate
  {
    hide Decode, Fold;
    if Decode(base).Some? && Decode(candidate).Some? {
      DecodeInjective(base, candidate);
    }
  }

  /** Exactly when a change is mechanical, on bytes: both sides decode, they differ,
      and the candidate is the encoding of the rewritten base. */
  lemma MechanicalIffRebuilt(
    base: Bytes, candidate: Bytes, ts: seq<Transformation>, path: Option<Text>, parses: Text -> bool)
    ensures BytesVerdict(Some(base), candidate, ts, path, parses).classification == MechanicalOnly
            <==>
            && Decode(base).Some? && base != candidate && ts != []
            && Fold(Decode(base).value, ts, path).Applied?
            && Fold(Decode(base).value, ts, path).sites > 0
            && candidate == Encode(Fold(Decode(base).value, ts, path).source)
            && parses(Fold(Decode(base).value, ts, path).source)
  {
    hide Encode, Decode;
    if Decode(base).Some? && Fold(Decode(base).value, ts, path).Applied? {
      DecodeEncode(Fold(Decode(base).value, ts, path).source);
    }
    if Decode(candidate).Some? {
      EncodeDecode(candidate);
      if Decode(base).Some? {
        DecodeInjective(base, candidate);
      }
    }
  }

  /** On texts: a change is exempt when there is none, or when the candidate is the rewritten
      base. */
  lemma ExemptSourceIff(
    base: Text, candidate: Text, ts: seq<Transformation>, path: Option<Text>, parses: Text -> bool)
    ensures SourceVerdict(Some(base), candidate, ts, path, parses).IsExempt()
            <==>
            base == candidate
            || (&& ts != [] && Fold(base, ts, path).Applied? && Fold(base, ts, path).sites > 0
                && candidate == Fold(base, ts, path).source && parses(candidate))
  {
    hide Fold;
  }

  /** For one base there is at most one candidate besides the base itself that any
      set of authorizations exempts. */
  lemma OneExemptCandidate(
    base: Bytes, a: Bytes, b: Bytes, ts: seq<Transformation>, path: Option<Text>, parses: Text -> bool)
    requires BytesVerdict(Some(base), a, ts, path, parses).IsExempt() && a != base
    requires BytesVerdict(Some(base), b, ts, path, parses).IsExempt() && b != base
    ensures a == b
  {
    UnchangedIffSameBytes(base, a, ts, path, parses);
    UnchangedIffSameBytes(base, b, ts, path, parses);
    MechanicalIffRebuilt(base, a, ts, path, parses);
    MechanicalIffRebuilt(base, b, ts, path, parses);
  }

  /** Without a base, without decodable bytes or without authority nothing changed is
      exempt. */
  lemma ExemptNeedsProof(
    base: Option<Bytes>, candidate: Bytes, ts: seq<Transformation>, path: Option<Text>, parses: Text -> bool)
    requires BytesVerdict(base, candidate, ts, path, parses).IsExempt()
    ensures base.Some? && Decode(base.value).Some? && Decode(candidate).Some?
    ensures candidate != base.value ==> ts != []
  {
    if base.Some? {
      UnchangedIffSameBytes(base.value, candidate, ts, path, parses);
    }
  }

  // ----- Provisional worktree classification -----

  /** After provisional normalisation "unchanged" means: both sides decode and have
      the same lines, whatever their terminators are. */
  lemma ProvisionallyUnchangedIffSameLines(
    base: Bytes, candidate: Bytes, ts: seq<Transformation>, path: Option<Text>, parses: Text -> bool)
    ensures BytesVerdict(Some(ProvisionalLineEndings(base)), ProvisionalLineEndings(candidate), ts, path, parses)
              .classification == Unchanged
            <==>
            && Decode(base).Some? && Decode(candidate).Some?
            && Bodies(Lines(Decode(base).value)) == Bodies(Lines(Decode(candidate).value))
  {
    hide Decode, ProvisionalLineEndings, Lines, NormaliseText;
    ProvisionalDecode(base);
    ProvisionalDecode(candidate);
    if Decode(base).Some? && Decode(candidate).Some? {
      NormaliseEqualIffSameLines(Decode(base).value, Decode(candidate).value);
    }
  }

  // ----- The registered namespace rename -----

  /** `namespace_transformation`, with `ast.parse` and SHA-256 as parameters. */
  function NamespaceTransformation(
    identifier: string, rename: Rename, audited: seq<AuditedSite>,
    parse: Text -> Option<seq<Node>>, sha256: Text -> Text): Transformation
  {
    Transformation(identifier, (source, path) => RenameOutcome(rename, audited, parse, sha256, source, path))
  }

  function RenameOutcome(
    rename: Rename, audited: seq<AuditedSite>, parse: Text -> Option<seq<Node>>, sha256: Text -> Text,
    source: Text, path: Option<Text>): RewriteOutcome
  {
    match parse(source)
    case None => NotParseable
    case Some(nodes) =>
      match RewriteOf(rename, audited, source, path, nodes, sha256(source))
      case Err(_) => NotApplicable
      case Ok(r) => Applied(r.source, |r.sites|)
  }

  /** A file exempted as a namespace rename differs from its base in at least one
      place, only in places that read as the legacy name, and only by that name. */
  lemma RenameExemption(
    base: Bytes, candidate: Bytes, path: Option<Text>, parses: Text -> bool,
    identifier: string, rename: Rename, audited: seq<AuditedSite>,
    parse: Text -> Option<seq<Node>>, sha256: Text -> Text)
    requires BytesVerdict(Some(base), candidate,
                          [NamespaceTransformation(identifier, rename, audited, parse, sha256)], path, parses)
               .classification == MechanicalOnly
    ensures exists pieces: seq<Text> ::
      && |pieces| >= 2
      && base == Encode(Interleave(pieces, rename.legacy))
      && candidate == Encode(Interleave(pieces, rename.canonical))
  {
    hide Encode, Decode, Interleave, RewriteOf;
    var t := NamespaceTransformation(identifier, rename, audited, parse, sha256);
    MechanicalIffRebuilt(base, candidate, [t], path, parses);
    var before := Decode(base).value;
    assert [t][..0] == [];
    assert Fold(before, [t], path) == RenameOutcome(rename, audited, parse, sha256, before, path);
    EncodeDecode(base);
    RewriteRenames(rename, audited, before, path, parse(before).value, sha256(before));
  }
}
