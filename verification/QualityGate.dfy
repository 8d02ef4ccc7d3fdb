/** The selection of the incremental gate: which changed files a proven mechanical
    migration exempts, and which stay gated. Git and the file system are inputs. */
module QualityGate {
  import opened Outcomes
  import opened Utf8
  import opened LineEndings
  import opened Classifier

  type Path = string

  datatype GateError = Inconclusive(reason: string)

  // ----- Authority -----

  /** A committed authorization record, after parsing. */
  datatype Record = Record(source: string, transformation: string, baseCommit: string)

  predicate Registered(registry: seq<Transformation>, id: string) {
    exists t | t in Identifiers(registry) :: t == id
  }

  ghost predicate ValidRegistry(registry: seq<Transformation>) {
    forall i, j | 0 <= i < j < |registry| :: registry[i].identifier != registry[j].identifier
  }

  /** `part` arises from `whole` by leaving elements out. */
  ghost predicate InOrder<T>(part: seq<T>, whole: seq<T>) {
    part == [] ||
    (whole != [] &&
     ((part[0] == whole[0] && InOrder(part[1..], whole[1..])) || InOrder(part, whole[1..])))
  }

  /** The registered transformations among `requested`, in registry order. */
  function InRegistryOrder(registry: seq<Transformation>, requested: set<string>): seq<Transformation> {
    if registry == [] then []
    else
      (if registry[0].identifier in requested then [registry[0]] else [])
      + InRegistryOrder(registry[1..], requested)
  }

  /** `resolve_transformations` */
  method ResolveTransformations(registry: seq<Transformation>, identifiers: seq<string>)
    returns (result: Result<seq<Transformation>, GateError>)
    ensures result.Ok? <==> forall id | id in identifiers :: Registered(registry, id)
    ensures result.Ok? ==> result.value == InRegistryOrder(registry, set id | id in identifiers)
  {
    var requested := {};
    for i := 0 to |identifiers|
      invariant forall id | id in identifiers[..i] :: Registered(registry, id)
      invariant requested == set id | id in identifiers[..i]
    {
      if identifiers[i] !in Identifiers(registry) {
        assert identifiers[i] in identifiers;
        return Err(Inconclusive("Unregistered mechanical migration"));
      }
      assert identifiers[..i + 1] == identifiers[..i] + [identifiers[i]];
      requested := requested + {identifiers[i]};
    }
    assert identifiers[..|identifiers|] == identifiers;
    result := Ok(InRegistryOrder(registry, requested));
  }

  function RecordIdentifiers(records: seq<Record>, mergeBase: string): seq<string> {
    if records == [] then []
    else
      (if records[0].baseCommit == mergeBase then [records[0].transformation] else [])
      + RecordIdentifiers(records[1..], mergeBase)
  }

  lemma {:induction false} RecordIdentifierIff(records: seq<Record>, mergeBase: string, id: string)
    ensures id in RecordIdentifiers(records, mergeBase) <==>
            exists r | r in records :: r.baseCommit == mergeBase && r.transformation == id
  {
    if records != [] {
      RecordIdentifierIff(records[1..], mergeBase, id);
      assert forall r :: r in records <==> r == records[0] || r in records[1..];
    }
  }

  /** `_active_transformations`: manual requests plus the records bound to this merge
      base. */
  method ActiveTransformations(
    registry: seq<Transformation>, manual: seq<string>, records: seq<Record>, mergeBase: string)
    returns (result: Result<seq<Transformation>, GateError>)
    requires ValidRegistry(registry)
    ensures result.Ok? <==> forall id | HasAuthority(id, manual, records, mergeBase) :: Registered(registry, id)
    ensures result.Ok? ==> forall t :: t in result.value <==>
              t in registry && HasAuthority(t.identifier, manual, records, mergeBase)
    ensures result.Ok? ==> ValidRegistry(result.value) && InOrder(result.value, registry)
  {
    hide InRegistryOrder, RecordIdentifiers, InOrder;
    var identifiers := manual + RecordIdentifiers(records, mergeBase);
    result := ResolveTransformations(registry, identifiers);
    forall id ensures id in identifiers <==> HasAuthority(id, manual, records, mergeBase) {
      RecordIdentifierIff(records, mergeBase, id);
    }
    if result.Ok? {
      var requested := set id | id in identifiers;
      InRegistryOrderKeeps(registry, requested);
      RegistryOrder(registry, requested);
      forall t: Transformation
        ensures t.identifier in requested <==> HasAuthority(t.identifier, manual, records, mergeBase)
      {
        RecordIdentifierIff(records, mergeBase, t.identifier);
      }
    }
  }

  ghost predicate HasAuthority(id: string, manual: seq<string>, records: seq<Record>, mergeBase: string) {
    id in manual || exists r | r in records :: r.baseCommit == mergeBase && r.transformation == id
  }

  lemma {:induction false} RegistryOrder(registry: seq<Transformation>, requested: set<string>)
    ensures InOrder(InRegistryOrder(registry, requested), registry)
  {
    if registry != [] {
      RegistryOrder(registry[1..], requested);
      var later := InRegistryOrder(registry[1..], requested);
      assert ([registry[0]] + later)[1..] == later && [] + later == later;
    }
  }

  lemma {:induction false} InRegistryOrderKeeps(registry: seq<Transformation>, requested: set<string>)
    requires ValidRegistry(registry)
    ensures var active := InRegistryOrder(registry, requested);
      && ValidRegistry(active)
      && forall t :: t in active <==> t in registry && t.identifier in requested
  {
    if registry != [] {
      var first, rest := registry[0], registry[1..];
      assert ValidRegistry(rest) by {
        assert forall i | 0 <= i < |rest| :: rest[i] == registry[i + 1];
      }
      InRegistryOrderKeeps(rest, requested);
      var later := InRegistryOrder(rest, requested);
      forall t | t in later ensures t.identifier != first.identifier {
        assert t in rest;
        var k :| 0 <= k < |rest| && rest[k] == t;
        assert registry[k + 1] == t;
      }
      assert forall t :: t in registry <==> t == first || t in rest;
    }
  }

  // ----- Classification of the selection -----

  /** One comparison: the blobs at the merge base, the candidate bytes of the delivery
      commit or of the worktree. `None` is a failed read. */
  datatype Comparison = Comparison(
    relative: Path -> string, tracked: set<string>,
    baseBlob: string -> Option<Bytes>, candidateBytes: string -> Option<Bytes>, delivery: bool)

  datatype ClassifiedFile = ClassifiedFile(path: Path, relative: string, verdict: Verdict)

  /** What the gate concludes about one file. */
  function ClassifyFile(
    cmp: Comparison, path: Path, ts: seq<Transformation>, parses: Text -> bool): Result<ClassifiedFile, GateError>
  {
    var relative := cmp.relative(path);
    var tracked := relative in cmp.tracked;
    if tracked && cmp.baseBlob(relative).None? then Err(Inconclusive("base blob"))
    else if cmp.candidateBytes(relative).None? then Err(Inconclusive("candidate bytes"))
    else
      var base := if tracked then cmp.baseBlob(relative) else None;
      var candidate := cmp.candidateBytes(relative).value;
      var verdict :=
        if cmp.delivery then BytesVerdict(base, candidate, ts, Some(relative), parses)
        else
          BytesVerdict(if base.Some? then Some(ProvisionalLineEndings(base.value)) else None,
                       ProvisionalLineEndings(candidate), ts, Some(relative), parses);
      Ok(ClassifiedFile(path, relative, verdict))
  }

  /** A blob or file the comparison needs could not be read. */
  predicate ReadFails(cmp: Comparison, path: Path) {
    var relative := cmp.relative(path);
    (relative in cmp.tracked && cmp.baseBlob(relative).None?) || cmp.candidateBytes(relative).None?
  }

  /** What was read of one of the sides is not UTF-8; an untracked file has only one. */
  predicate Undecodable(cmp: Comparison, path: Path)
    requires !ReadFails(cmp, path)
  {
    var relative := cmp.relative(path);
    || Decode(cmp.candidateBytes(relative).value).None?
    || (relative in cmp.tracked && Decode(cmp.baseBlob(relative).value).None?)
  }

  /** A comparison is made exactly when its reads succeed, and is unverifiable exactly when
      one of its sides does not decode, in a delivery and in the worktree alike. */
  lemma UnverifiableIffNotUtf8(cmp: Comparison, path: Path, ts: seq<Transformation>, parses: Text -> bool)
    ensures ClassifyFile(cmp, path, ts, parses).Ok? <==> !ReadFails(cmp, path)
    ensures !ReadFails(cmp, path) ==>
      (ClassifyFile(cmp, path, ts, parses).value.verdict.classification == Unverifiable <==> Undecodable(cmp, path))
  {
    if !ReadFails(cmp, path) {
      hide Decode, BytesVerdict, ProvisionalLineEndings;
      var relative := cmp.relative(path);
      var candidate := cmp.candidateBytes(relative).value;
      var base := if relative in cmp.tracked then cmp.baseBlob(relative) else None;
      ProvisionalDecode(candidate);
      UnverifiableIffUndecodable(base, candidate, ts, Some(relative), parses);
      var normalised := if base.Some? then Some(ProvisionalLineEndings(base.value)) else None;
      if base.Some? {
        ProvisionalDecode(base.value);
      }
      UnverifiableIffUndecodable(normalised, ProvisionalLineEndings(candidate), ts, Some(relative), parses);
    }
  }

  ghost predicate Classifies(
    cmp: Comparison, files: seq<Path>, ts: seq<Transformation>, parses: Text -> bool,
    classified: seq<ClassifiedFile>)
  {
    && |classified| == |files|
    && forall i | 0 <= i < |files| :: ClassifyFile(cmp, files[i], ts, parses) == Ok(classified[i])
  }

  /** `_classify_selection` */
  method ClassifySelection(
    cmp: Comparison, files: seq<Path>, ts: seq<Transformation>, parses: Text -> bool)
    returns (result: Result<seq<ClassifiedFile>, GateError>)
    ensures ts == [] ==> result == Ok([])
    ensures result.Ok? && ts != [] ==> Classifies(cmp, files, ts, parses, result.value)
    ensures result.Ok? <==> ts == [] || forall f | f in files :: !ReadFails(cmp, f)
  {
    hide ClassifyFile, ReadFails;
    if ts == [] || files == [] {
      return Ok([]);
    }
    var classified: seq<ClassifiedFile> := [];
    for i := 0 to |files|
      invariant Classifies(cmp, files[..i], ts, parses, classified)
    {
      var one := ClassifyFile(cmp, files[i], ts, parses);
      UnverifiableIffNotUtf8(cmp, files[i], ts, parses);
      if one.Err? {
        assert files[i] in files;
        return Err(one.error);
      }
      classified := classified + [one.value];
    }
    assert files[..|files|] == files;
    forall f | f in files ensures !ReadFails(cmp, f) {
      UnverifiableIffNotUtf8(cmp, f, ts, parses);
    }
    result := Ok(classified);
  }

  // ----- Gating -----

  function ExemptPaths(classified: seq<ClassifiedFile>): set<Path> {
    set item | item in classified && item.verdict.IsExempt() :: item.path
  }

  /** The files for which `exempt` membership equals `keep`, in order. */
  function Select(files: seq<Path>, exempt: set<Path>, keep: bool): seq<Path> {
    if files == [] then []
    else (if (files[0] in exempt) == keep then [files[0]] else []) + Select(files[1..], exempt, keep)
  }

  /** `_gated_files` */
  function GatedFiles(files: seq<Path>, classified: seq<ClassifiedFile>): seq<Path> {
    if classified == [] then files else Select(files, ExemptPaths(classified), false)
  }

  /** The status of `_report_unverifiable`. */
  function UnverifiableStatus(classified: seq<ClassifiedFile>): nat {
    if exists item | item in classified :: item.verdict.classification == Unverifiable then 1 else 0
  }

  /** `_report_unverifiable`: count the files that could not be classified. */
  method ReportUnverifiable(classified: seq<ClassifiedFile>) returns (status: nat)
    ensures status == UnverifiableStatus(classified)
  {
    var reported := 0;
    for i := 0 to |classified|
      invariant reported > 0 <==> exists item | item in classified[..i] :: item.verdict.classification == Unverifiable
    {
      assert classified[..i + 1] == classified[..i] + [classified[i]];
      if classified[i].verdict.classification == Unverifiable {
        reported := reported + 1;
      }
    }
    assert classified[..|classified|] == classified;
    status := if reported > 0 then 1 else 0;
  }

  /** The exit status of `main` for a completed selection. */
  function ExitStatus(ruff: nat, classified: seq<ClassifiedFile>): nat {
    var unverifiable := UnverifiableStatus(classified);
    if ruff > unverifiable then ruff else unverifiable
  }

  lemma {:induction false} SelectInOrder(files: seq<Path>, exempt: set<Path>, keep: bool)
    ensures InOrder(Select(files, exempt, keep), files)
  {
    if files != [] {
      SelectInOrder(files[1..], exempt, keep);
      var later := Select(files[1..], exempt, keep);
      assert ([files[0]] + later)[1..] == later;
      assert [] + later == later;
    }
  }

  lemma {:induction false} SelectMembers(files: seq<Path>, exempt: set<Path>, keep: bool, f: Path)
    ensures f in Select(files, exempt, keep) <==> f in files && ((f in exempt) == keep)
  {
    if files != [] {
      SelectMembers(files[1..], exempt, keep, f);
      assert f in files <==> f == files[0] || f in files[1..];
    }
  }

  lemma {:induction false} SelectCounts(files: seq<Path>, exempt: set<Path>)
    ensures multiset(files) == multiset(Select(files, exempt, true)) + multiset(Select(files, exempt, false))
  {
    if files != [] {
      SelectCounts(files[1..], exempt);
      assert files == [files[0]] + files[1..];
    }
  }

  /** `ChangeSelection.exempt` */
  function ExemptFiles(classified: seq<ClassifiedFile>): seq<Path> {
    if classified == [] then []
    else
      (if classified[0].verdict.IsExempt() then [classified[0].path] else []) + ExemptFiles(classified[1..])
  }

  /** The verdict of a path is the same wherever the path occurs. */
  lemma SamePathSameVerdict(
    cmp: Comparison, files: seq<Path>, ts: seq<Transformation>, parses: Text -> bool,
    classified: seq<ClassifiedFile>, i: nat)
    requires Classifies(cmp, files, ts, parses, classified) && i < |files|
    ensures classified[i].path == files[i]
    ensures files[i] in ExemptPaths(classified) <==> classified[i].verdict.IsExempt()
  {
    hide ClassifyFile;
    OwnPath(cmp, files[i], ts, parses);
    assert ClassifyFile(cmp, files[i], ts, parses) == Ok(classified[i]);
    if files[i] in ExemptPaths(classified) {
      var item :| item in classified && item.verdict.IsExempt() && item.path == files[i];
      var k :| 0 <= k < |classified| && classified[k] == item;
      OwnPath(cmp, files[k], ts, parses);
      assert ClassifyFile(cmp, files[k], ts, parses) == Ok(item);
    } else {
      assert classified[i] in classified;
    }
  }

  lemma OwnPath(cmp: Comparison, path: Path, ts: seq<Transformation>, parses: Text -> bool)
    ensures ClassifyFile(cmp, path, ts, parses).Ok? ==> ClassifyFile(cmp, path, ts, parses).value.path == path
  {
  }

  lemma {:induction false} ExemptFilesAreSelected(
    files: seq<Path>, classified: seq<ClassifiedFile>, exempt: set<Path>)
    requires |files| == |classified|
    requires forall i | 0 <= i < |files| :: classified[i].path == files[i]
    requires forall i | 0 <= i < |files| :: files[i] in exempt <==> classified[i].verdict.IsExempt()
    ensures ExemptFiles(classified) == Select(files, exempt, true)
  {
    if files != [] {
      assert forall i | 0 <= i < |files| - 1 ::
          classified[1..][i] == classified[i + 1] && files[1..][i] == files[i + 1];
      ExemptFilesAreSelected(files[1..], classified[1..], exempt);
    }
  }

  /** Kept and exempt files partition the selection, in order:
      changed == exempt + gated. */
  lemma GatePartitions(
    cmp: Comparison, files: seq<Path>, ts: seq<Transformation>, parses: Text -> bool,
    classified: seq<ClassifiedFile>)
    requires if ts == [] then classified == [] else Classifies(cmp, files, ts, parses, classified)
    ensures var exempt := ExemptFiles(classified);
      var gated := GatedFiles(files, classified);
      && InOrder(exempt, files) && InOrder(gated, files)
      && multiset(files) == multiset(exempt) + multiset(gated)
      && |files| == |exempt| + |gated|
      && forall f :: !(f in exempt && f in gated)
  {
    hide ClassifyFile, Select, InOrder;
    var paths := ExemptPaths(classified);
    if classified == [] {
      SelectNothing(files);
      assert paths == {};
    } else {
      forall i | 0 <= i < |files|
        ensures classified[i].path == files[i]
        ensures files[i] in paths <==> classified[i].verdict.IsExempt()
      {
        SamePathSameVerdict(cmp, files, ts, parses, classified, i);
      }
      ExemptFilesAreSelected(files, classified, paths);
    }
    SelectInOrder(files, paths, true);
    SelectInOrder(files, paths, false);
    SelectCounts(files, paths);
    Cardinalities(files, Select(files, paths, true), Select(files, paths, false));
    forall f | f in Select(files, paths, true) ensures f !in Select(files, paths, false) {
      SelectMembers(files, paths, true, f);
      SelectMembers(files, paths, false, f);
    }
  }

  lemma Cardinalities(whole: seq<Path>, a: seq<Path>, b: seq<Path>)
    requires multiset(whole) == multiset(a) + multiset(b)
    ensures |whole| == |a| + |b|
  {
    assert |multiset(whole)| == |multiset(a)| + |multiset(b)|;
  }

  lemma {:induction false} SelectNothing(files: seq<Path>)
    ensures Select(files, {}, true) == [] && Select(files, {}, false) == files
  {
    if files != [] {
      SelectNothing(files[1..]);
      assert files == [files[0]] + files[1..];
    }
  }

  /** A selected file leaves the gate exactly when its own verdict is an exemption. */
  lemma LeavesGateIffExempt(
    cmp: Comparison, files: seq<Path>, ts: seq<Transformation>, parses: Text -> bool,
    classified: seq<ClassifiedFile>, i: nat)
    requires ts != [] && Classifies(cmp, files, ts, parses, classified) && i < |files|
    ensures files[i] !in GatedFiles(files, classified) <==> classified[i].verdict.IsExempt()
  {
    hide ClassifyFile;
    SamePathSameVerdict(cmp, files, ts, parses, classified, i);
    SelectMembers(files, ExemptPaths(classified), false, files[i]);
  }

  /** A file with a side that does not decode stays gated and the run fails, whatever Ruff
      says. */
  lemma UnverifiableFailsClosed(
    cmp: Comparison, files: seq<Path>, ts: seq<Transformation>, parses: Text -> bool,
    classified: seq<ClassifiedFile>, i: nat, ruff: nat)
    requires ts != [] && Classifies(cmp, files, ts, parses, classified) && i < |files|
    requires !ReadFails(cmp, files[i]) && Undecodable(cmp, files[i])
    ensures classified[i].verdict.classification == Unverifiable
    ensures files[i] in GatedFiles(files, classified) && ExitStatus(ruff, classified) > 0
  {
    hide ClassifyFile, Undecodable, ReadFails;
    UnverifiableIffNotUtf8(cmp, files[i], ts, parses);
    LeavesGateIffExempt(cmp, files, ts, parses, classified, i);
    assert classified[i] in classified;
  }

  /** What a comparison sees of a blob: its text, with line endings normalised when the
      verdict is provisional. */
  function Seen(cmp: Comparison, data: Bytes): Option<Text> {
    match Decode(data)
    case None => None
    case Some(text) => Some(if cmp.delivery then text else NormaliseText(text))
  }

  /** The proof an exemption rests on: the file existed at the merge base, both revisions
      decode, and what is seen of the candidate is what is seen of the base, or the result of
      the active rewrites on it with at least one site. */
  predicate Proven(cmp: Comparison, path: Path, ts: seq<Transformation>, parses: Text -> bool) {
    var relative := cmp.relative(path);
    && relative in cmp.tracked && cmp.baseBlob(relative).Some? && cmp.candidateBytes(relative).Some?
    && Seen(cmp, cmp.baseBlob(relative).value).Some? && Seen(cmp, cmp.candidateBytes(relative).value).Some?
    && var before := Seen(cmp, cmp.baseBlob(relative).value).value;
       var after := Seen(cmp, cmp.candidateBytes(relative).value).value;
       var rebuilt := Fold(before, ts, Some(relative));
       before == after
       || (rebuilt.Applied? && rebuilt.sites > 0 && after == rebuilt.source && parses(after))
  }

  /** In a delivery and in the worktree alike, a file is exempt exactly when that proof
      exists. */
  lemma ExemptIffProven(cmp: Comparison, path: Path, ts: seq<Transformation>, parses: Text -> bool)
    requires ts != [] && ClassifyFile(cmp, path, ts, parses).Ok?
    ensures ClassifyFile(cmp, path, ts, parses).value.verdict.IsExempt() <==> Proven(cmp, path, ts, parses)
  {
    hide Decode, Fold, SourceVerdict, NormaliseText, ProvisionalLineEndings;
    var relative := cmp.relative(path);
    var candidate := cmp.candidateBytes(relative).value;
    ProvisionalDecode(candidate);
    if relative in cmp.tracked {
      var base := cmp.baseBlob(relative).value;
      ProvisionalDecode(base);
      if Seen(cmp, base).Some? && Seen(cmp, candidate).Some? {
        ExemptSourceIff(Seen(cmp, base).value, Seen(cmp, candidate).value, ts, Some(relative), parses);
      }
    } else {
      NewFileNotExempt(candidate, ts, relative, parses);
    }
  }

  lemma NewFileNotExempt(candidate: Bytes, ts: seq<Transformation>, relative: string, parses: Text -> bool)
    ensures !BytesVerdict(None, candidate, ts, Some(relative), parses).IsExempt()
    ensures !BytesVerdict(None, ProvisionalLineEndings(candidate), ts, Some(relative), parses).IsExempt()
  {
    hide Decode, Fold, ProvisionalLineEndings;
  }

  /** What a delivery exemption proves about the stored blobs: the file existed at the
      merge base and either has the same bytes or is the encoded result of the active
      rewrites with at least one site. */
  lemma DeliveryExemption(
    cmp: Comparison, files: seq<Path>, ts: seq<Transformation>, parses: Text -> bool,
    classified: seq<ClassifiedFile>, i: nat)
    requires cmp.delivery && ts != [] && Classifies(cmp, files, ts, parses, classified) && i < |files|
    requires files[i] !in GatedFiles(files, classified)
    ensures var relative := cmp.relative(files[i]);
      && relative in cmp.tracked
      && cmp.baseBlob(relative).Some? && cmp.candidateBytes(relative).Some?
      && Decode(cmp.baseBlob(relative).value).Some?
      && (cmp.candidateBytes(relative) == cmp.baseBlob(relative)
          || (var rebuilt := Fold(Decode(cmp.baseBlob(relative).value).value, ts, Some(relative));
              && rebuilt.Applied? && rebuilt.sites > 0
              && cmp.candidateBytes(relative) == Some(Encode(rebuilt.source))))
  {
    hide BytesVerdict, Decode, Encode, Fold;
    LeavesGateIffExempt(cmp, files, ts, parses, classified, i);
    var relative := cmp.relative(files[i]);
    assert ClassifyFile(cmp, files[i], ts, parses) == Ok(classified[i]);
    var base := if relative in cmp.tracked then cmp.baseBlob(relative) else None;
    var candidate := cmp.candidateBytes(relative).value;
    ExemptNeedsProof(base, candidate, ts, Some(relative), parses);
    UnchangedIffSameBytes(base.value, candidate, ts, Some(relative), parses);
    MechanicalIffRebuilt(base.value, candidate, ts, Some(relative), parses);
  }

  // ----- The gate from end to end -----

  /** The selection, Ruff and the exit status of `main`. Without an active transformation every
      selected file is gated and the status is Ruff's. Otherwise exactly the files with a proof
      leave, in order, and the gate passes exactly when everything was read, every side
      decodes, and Ruff passes on the rest. `ruff` says whether a list of files passes. */
  method RunGate(
    cmp: Comparison, files: seq<Path>, ts: seq<Transformation>, parses: Text -> bool, ruff: seq<Path> -> bool)
    returns (gated: seq<Path>, status: nat)
    ensures ts == [] ==> gated == files && status == if files == [] || ruff(files) then 0 else 1
    ensures ts != [] && (exists f | f in files :: ReadFails(cmp, f)) ==> status == 2
    ensures ts != [] && (forall f | f in files :: !ReadFails(cmp, f)) ==>
      && InOrder(gated, files)
      && (forall f :: f in gated <==> f in files && !Proven(cmp, f, ts, parses))
      && status <= 1
      && (status == 0 <==> (gated == [] || ruff(gated)) && forall f | f in files :: !Undecodable(cmp, f))
  {
    hide ClassifyFile, Proven, InOrder, Select, ReadFails, Undecodable;
    var result := ClassifySelection(cmp, files, ts, parses);
    if result.Err? {
      return [], 2;
    }
    var classified := result.value;
    var unverifiable := ReportUnverifiable(classified);
    gated := GatedFiles(files, classified);
    var linted := if gated == [] || ruff(gated) then 0 else 1;
    status := if linted > unverifiable then linted else unverifiable;
    if ts != [] {
      GatedIffUnproven(cmp, files, ts, parses, classified);
      UnverifiableIff(cmp, files, ts, parses, classified);
    }
  }

  lemma GatedIffUnproven(
    cmp: Comparison, files: seq<Path>, ts: seq<Transformation>, parses: Text -> bool, classified: seq<ClassifiedFile>)
    requires ts != [] && Classifies(cmp, files, ts, parses, classified)
    ensures InOrder(GatedFiles(files, classified), files)
    ensures forall f :: f in GatedFiles(files, classified) <==> f in files && !Proven(cmp, f, ts, parses)
  {
    hide ClassifyFile, Proven;
    if files == [] {
      assert InOrder([], files);
    } else {
      SelectInOrder(files, ExemptPaths(classified), false);
    }
    forall f ensures f in GatedFiles(files, classified) <==> f in files && !Proven(cmp, f, ts, parses) {
      SelectMembers(files, ExemptPaths(classified), false, f);
      if f in files {
        var i :| 0 <= i < |files| && files[i] == f;
        LeavesGateIffExempt(cmp, files, ts, parses, classified, i);
        ExemptIffProven(cmp, f, ts, parses);
      }
    }
  }

  lemma UnverifiableIff(
    cmp: Comparison, files: seq<Path>, ts: seq<Transformation>, parses: Text -> bool, classified: seq<ClassifiedFile>)
    requires ts != [] && Classifies(cmp, files, ts, parses, classified)
    ensures forall f | f in files :: !ReadFails(cmp, f)
    ensures UnverifiableStatus(classified) == 0 <==> forall f | f in files :: !Undecodable(cmp, f)
  {
    hide ClassifyFile, ReadFails, Undecodable;
    forall f | f in files ensures !ReadFails(cmp, f) {
      var i :| 0 <= i < |files| && files[i] == f;
      assert ClassifyFile(cmp, files[i], ts, parses) == Ok(classified[i]);
      UnverifiableIffNotUtf8(cmp, f, ts, parses);
    }
    if UnverifiableStatus(classified) != 0 {
      var item :| item in classified && item.verdict.classification == Unverifiable;
      var i :| 0 <= i < |classified| && classified[i] == item;
      UnverifiableIffNotUtf8(cmp, files[i], ts, parses);
      assert ClassifyFile(cmp, files[i], ts, parses) == Ok(classified[i]);
      assert files[i] in files && Undecodable(cmp, files[i]);
    } else {
      forall f | f in files ensures !Undecodable(cmp, f) {
        var i :| 0 <= i < |files| && files[i] == f;
        assert classified[i] in classified;
        UnverifiableIffNotUtf8(cmp, f, ts, parses);
        assert ClassifyFile(cmp, files[i], ts, parses) == Ok(classified[i]);
      }
    }
  }
}
