/** The rewrite closure of `_build_namespace_rewrite`: which sites of a parsed file
    a namespace rename may touch, and what the rewritten text is. `ast.parse` and
    SHA-256 stay outside: the nodes and the fingerprint are inputs. */
module NamespaceRewrite {
  import opened Outcomes
  import opened Utf8
  import opened SourceIndex
  import opened Splice
  import opened StableSort

  // ----- Parsed nodes, in the order `_scoped_nodes` yields them -----

  datatype Position = Position(line: int, column: nat, endLine: int, endColumn: nat)

  datatype Func = Name(id: Text) | Attribute(value: Func, attr: Text) | OtherFunc

  datatype Value = StringConstant(text: Text, at: Position) | Starred | OtherExpr

  datatype Keyword = Keyword(name: Option<Text>, value: Value)

  datatype Alias = Alias(name: Text, at: Option<Position>)

  datatype Node =
    | Import(names: seq<Alias>)
    | ImportFrom(level: nat, moduleName: Option<Text>, at: Option<Position>)
    | Call(scope: Text, func: Func, args: seq<Value>, keywords: seq<Keyword>)
    | OtherNode

  /** The two namespaces of a rename. */
  datatype Rename = Rename(legacy: Text, canonical: Text)

  // ----- Site recognition -----

  /** `_span` */
  function Span(index: Index, at: Option<Position>): Option<(nat, nat)>
    requires index.Valid()
  {
    match at
    case None => None
    case Some(p) =>
      match (index.Offset(p.line, p.column), index.Offset(p.endLine, p.endColumn))
      case (Some(start), Some(end)) => if end < start then None else Some((start, end))
      case _ => None
  }

  lemma SpanInSource(index: Index, at: Option<Position>)
    requires index.Valid() && Span(index, at).Some?
    ensures Span(index, at).value.0 <= Span(index, at).value.1 <= |index.source|
  {
    hide Lines, Advance, LineStart;
    var p := at.value;
    OffsetInverse(index, p.line - 1, p.column);
    OffsetInverse(index, p.endLine - 1, p.endColumn);
    LineSlice(index, p.endLine - 1);
  }

  function IsNamespaceReference(value: Text, legacy: Text): bool {
    value == legacy || legacy + "." <= value
  }

  function TailIsABoundary(tail: Text): bool {
    tail == "" || tail[0] in ". \t\\\r\n"
  }

  /** `_alias_site` */
  function AliasSite(index: Index, alias: Alias, rename: Rename): Option<Site>
    requires index.Valid()
  {
    var legacy := rename.legacy;
    if !IsNamespaceReference(alias.name, legacy) then None
    else
      match Span(index, alias.at)
      case None => None
      case Some((start, end)) =>
        SpanInSource(index, alias.at);
        var segment := index.source[start..end];
        if legacy <= segment && TailIsABoundary(segment[|legacy|..]) then
          Some(Site(start, start + |legacy|, rename.canonical, "import"))
        else None
  }

  function BlankRun(s: Text): nat {
    if s != [] && s[0] in " \t" then 1 + BlankRun(s[1..]) else 0
  }

  /** The greedy `[ \t]+` gives back blanks until the namespace follows. */
  function Backtrack(segment: Text, legacy: Text, blanks: nat): (end: Option<nat>)
    ensures end.Some? ==> |legacy| <= end.value <= |segment|
                          && segment[end.value - |legacy|..end.value] == legacy
  {
    if blanks == 0 then None
    else if 4 + blanks <= |segment| && legacy <= segment[4 + blanks..] then Some(4 + blanks + |legacy|)
    else Backtrack(segment, legacy, blanks - 1)
  }

  /** The end of a match of `from[ \t]+<legacy>` at the front of a segment. */
  function FromMatch(segment: Text, legacy: Text): Option<nat> {
    if "from" <= segment then Backtrack(segment, legacy, BlankRun(segment[4..])) else None
  }

  /** `_module_site` */
  function ModuleSite(index: Index, node: Node, rename: Rename): Option<Site>
    requires index.Valid() && node.ImportFrom?
  {
    var legacy := rename.legacy;
    if node.level != 0 || node.moduleName.None? || !IsNamespaceReference(node.moduleName.value, legacy) then None
    else
      match Span(index, node.at)
      case None => None
      case Some((start, end)) =>
        SpanInSource(index, node.at);
        var segment := index.source[start..end];
        match FromMatch(segment, legacy)
        case None => None
        case Some(matched) =>
          if TailIsABoundary(segment[matched..]) then
            Some(Site(start + matched - |legacy|, start + matched, rename.canonical, "from"))
          else None
  }

  predicate IsModuleCharacter(c: char) {
    'A' <= c <= 'Z' || 'a' <= c <= 'z' || '0' <= c <= '9' || c == '_' || c == '.'
  }

  /** `_PLAIN_MODULE_LITERAL.fullmatch(segment)` with group 2 equal to `value`. */
  function IsPlainLiteral(segment: Text, value: Text): bool {
    && |segment| == |value| + 2
    && segment[0] in "'\"" && segment[|segment| - 1] == segment[0]
    && segment[1..|segment| - 1] == value
    && forall i | 0 <= i < |value| :: IsModuleCharacter(value[i])
  }

  /** `_literal_site` */
  function LiteralSite(index: Index, value: Value, rename: Rename): Option<Site>
    requires index.Valid()
  {
    if !value.StringConstant? || !IsNamespaceReference(value.text, rename.legacy) then None
    else
      match Span(index, Some(value.at))
      case None => None
      case Some((start, end)) =>
        SpanInSource(index, Some(value.at));
        if IsPlainLiteral(index.source[start..end], value.text) then
          Some(Site(start + 1, start + 1 + |rename.legacy|, rename.canonical, "call-argument"))
        else None
  }

  // ----- Dynamic call sites -----

  datatype Slot = Positional(position: nat) | Named(name: Text)

  datatype Key = Key(scope: Text, callee: Text, argument: Slot, literal: Text)

  datatype Entry = Entry(key: Key, occurrence: nat)

  datatype Candidate = Candidate(key: Key, value: Value)

  datatype AuditedSite = AuditedSite(path: Text, baseSha256: Text, entry: Entry)

  /** `_DYNAMIC_CALL_CONSTRUCTS`: the keyword that may name a module, if any; the
      recognized position is always the first. */
  function Construct(callee: Text): Option<Option<Text>> {
    if callee in {"__import__", "import_module", "importlib.import_module", "find_spec",
                  "importlib.util.find_spec"} then Some(Some("name"))
    else if callee in {"patch", "mock.patch", "unittest.mock.patch"} then Some(Some("target"))
    else if callee in {"monkeypatch.setattr", "monkeypatch.delattr"} then Some(None)
    else None
  }

  /** `_callee_name` */
  function CalleeName(func: Func): Option<Text> {
    match func
    case Name(id) => Some(id)
    case OtherFunc => None
    case Attribute(value, attr) =>
      match CalleeName(value)
      case None => None
      case Some(prefix) => Some(prefix + "." + attr)
  }

  function NamedArguments(keywords: seq<Keyword>, accepted: Option<Text>): seq<(Slot, Value)> {
    if keywords == [] then []
    else
      var k := keywords[0];
      (if k.name.Some? && k.name == accepted then [(Named(k.name.value), k.value)] else [])
      + NamedArguments(keywords[1..], accepted)
  }

  function References(scope: Text, callee: Text, arguments: seq<(Slot, Value)>, legacy: Text): seq<Candidate> {
    if arguments == [] then []
    else
      var (slot, value) := arguments[0];
      (if value.StringConstant? && IsNamespaceReference(value.text, legacy)
       then [Candidate(Key(scope, callee, slot, value.text), value)] else [])
      + References(scope, callee, arguments[1..], legacy)
  }

  /** `_dynamic_candidates` */
  function DynamicCandidates(call: Node, legacy: Text): seq<Candidate>
    requires call.Call?
  {
    match CalleeName(call.func)
    case None => []
    case Some(callee) =>
      match Construct(callee)
      case None => []
      case Some(keyword) =>
        var positional :=
          if call.args != [] && !call.args[0].Starred? then [(Positional(0), call.args[0])] else [];
        References(call.scope, callee, positional + NamedArguments(call.keywords, keyword), legacy)
  }

  function AllCandidates(nodes: seq<Node>, legacy: Text): seq<Candidate> {
    if nodes == [] then []
    else
      (if nodes[0].Call? then DynamicCandidates(nodes[0], legacy) else [])
      + AllCandidates(nodes[1..], legacy)
  }

  /** The sort key of the candidates: (lineno, col_offset). */
  predicate NotAfter(a: Candidate, b: Candidate) {
    if a.value.StringConstant? && b.value.StringConstant? then
      a.value.at.line < b.value.at.line
      || (a.value.at.line == b.value.at.line && a.value.at.column <= b.value.at.column)
    else b.value.StringConstant? || !a.value.StringConstant?
  }

  /** The audited entries of one path at one exact base text. */
  function Authorized(audited: seq<AuditedSite>, path: Option<Text>, fingerprint: Text): set<Entry> {
    if path.None? || path.value == "" then {}
    else set site | site in audited && site.path == path.value && site.baseSha256 == fingerprint :: site.entry
  }

  // ----- Occurrences -----

  function CountKey(candidates: seq<Candidate>, key: Key): nat {
    if candidates == [] then 0
    else CountKey(candidates[..|candidates| - 1], key)
         + if candidates[|candidates| - 1].key == key then 1 else 0
  }

  /** The entry candidate `i` claims: its key and how many earlier ones share it. */
  function EntryAt(candidates: seq<Candidate>, i: nat): Entry
    requires i < |candidates|
  {
    Entry(candidates[i].key, CountKey(candidates[..i], candidates[i].key))
  }

  /** The sites of the first `n` candidates. */
  function DynamicSites(
    index: Index, candidates: seq<Candidate>, n: nat, authorized: set<Entry>, rename: Rename): seq<Site>
    requires index.Valid() && n <= |candidates|
  {
    if n == 0 then []
    else
      DynamicSites(index, candidates, n - 1, authorized, rename)
      + if EntryAt(candidates, n - 1) in authorized then
          ToSeq(LiteralSite(index, candidates[n - 1].value, rename))
        else []
  }

  function ToSeq(site: Option<Site>): seq<Site> {
    if site.Some? then [site.value] else []
  }

  function AliasSites(index: Index, names: seq<Alias>, rename: Rename): seq<Site>
    requires index.Valid()
  {
    if names == [] then []
    else AliasSites(index, names[..|names| - 1], rename) + ToSeq(AliasSite(index, names[|names| - 1], rename))
  }

  /** The import sites of the nodes, in order. */
  function ImportSites(index: Index, nodes: seq<Node>, rename: Rename): seq<Site>
    requires index.Valid()
  {
    if nodes == [] then []
    else
      var last := nodes[|nodes| - 1];
      ImportSites(index, nodes[..|nodes| - 1], rename)
      + match last
        case Import(names) => AliasSites(index, names, rename)
        case ImportFrom(_, _, _) => ToSeq(ModuleSite(index, last, rename))
        case _ => []
  }

  function AllSites(
    index: Index, nodes: seq<Node>, authorized: set<Entry>, rename: Rename): seq<Site>
    requires index.Valid()
  {
    var candidates := Sort(AllCandidates(nodes, rename.legacy), NotAfter);
    ImportSites(index, nodes, rename)
    + DynamicSites(index, candidates, |candidates|, authorized, rename)
  }

  datatype RewriteResult = RewriteResult(source: Text, sites: seq<Site>)

  /** The specification of the closure. */
  function RewriteOf(rename: Rename, audited: seq<AuditedSite>, source: Text, path: Option<Text>,
                     nodes: seq<Node>, fingerprint: Text): Result<RewriteResult, SpliceError>
  {
    var index := IndexOf(source);
    var authorized := Authorized(audited, path, fingerprint);
    var sites := AllSites(index, nodes, authorized, rename);
    AllSitesNameLegacy(index, nodes, authorized, rename);
    SitesInSource(source, sites, rename);
    match ApplySites(source, sites)
    case Ok(out) => Ok(RewriteResult(out, sites))
    case Err(e) => Err(e)
  }

  // ----- The closure -----

  /** `rewrite`: collect import sites, then the audited dynamic sites by occurrence,
      then splice. */
  method Rewrite(rename: Rename, audited: seq<AuditedSite>, source: Text, path: Option<Text>,
                 nodes: seq<Node>, fingerprint: Text)
    returns (result: Result<RewriteResult, SpliceError>)
    ensures result == RewriteOf(rename, audited, source, path, nodes, fingerprint)
  {
    hide Lines, IndexOf;
    var index := BuildIndex(source);
    var sites := CollectImports(index, nodes, rename);
    var authorized := Authorized(audited, path, fingerprint);
    var candidates := Sort(AllCandidates(nodes, rename.legacy), NotAfter);
    if authorized != {} {
      var dynamic := CollectDynamic(index, candidates, authorized, rename);
      sites := sites + dynamic;
    } else {
      NoAuthorityNoDynamicSites(index, candidates, |candidates|, rename);
    }
    assert sites == AllSites(index, nodes, authorized, rename);
    AllSitesNameLegacy(index, nodes, authorized, rename);
    SitesInSource(source, sites, rename);
    var spliced := Apply(source, sites);
    match spliced {
      case Ok(out) => result := Ok(RewriteResult(out, sites));
      case Err(e) => result := Err(e);
    }
  }

  method CollectImports(index: Index, nodes: seq<Node>, rename: Rename) returns (sites: seq<Site>)
    requires index.Valid()
    ensures sites == ImportSites(index, nodes, rename)
  {
    hide ModuleSite, AliasSite;
    sites := [];
    for i := 0 to |nodes|
      invariant sites == ImportSites(index, nodes[..i], rename)
    {
      assert nodes[..i + 1][..i] == nodes[..i];
      match nodes[i] {
        case Import(names) =>
          ghost var before := sites;
          for j := 0 to |names|
            invariant sites == before + AliasSites(index, names[..j], rename)
          {
            assert names[..j + 1][..j] == names[..j];
            sites := sites + ToSeq(AliasSite(index, names[j], rename));
          }
          assert names[..|names|] == names;
        case ImportFrom(_, _, _) =>
          sites := sites + ToSeq(ModuleSite(index, nodes[i], rename));
        case _ =>
      }
    }
    assert nodes[..|nodes|] == nodes;
  }

  /** The occurrence counter of the source: before candidate `i` every key maps to the
      number of earlier candidates with that key. */
  method CollectDynamic(
    index: Index, candidates: seq<Candidate>, authorized: set<Entry>, rename: Rename)
    returns (sites: seq<Site>)
    requires index.Valid()
    ensures sites == DynamicSites(index, candidates, |candidates|, authorized, rename)
  {
    hide LiteralSite;
    sites := [];
    var occurrences: map<Key, nat> := map[];
    for i := 0 to |candidates|
      invariant sites == DynamicSites(index, candidates, i, authorized, rename)
      invariant forall key :: CountKey(candidates[..i], key) == if key in occurrences then occurrences[key] else 0
    {
      var key := candidates[i].key;
      var occurrence := if key in occurrences then occurrences[key] else 0;
      occurrences := occurrences[key := occurrence + 1];
      assert candidates[..i + 1][..i] == candidates[..i];
      if Entry(key, occurrence) in authorized {
        sites := sites + ToSeq(LiteralSite(index, candidates[i].value, rename));
      }
    }
  }

  // ----- Every site names the legacy namespace -----

  ghost predicate NamesLegacy(source: Text, site: Site, rename: Rename) {
    && site.start <= site.end <= |source|
    && source[site.start..site.end] == rename.legacy
    && site.replacement == rename.canonical
  }

  lemma SliceOfSlice(source: Text, start: nat, end: nat, i: nat, j: nat)
    requires start <= end <= |source| && i <= j <= end - start
    ensures source[start..end][i..j] == source[start + i..start + j]
  {
    var inner, outer := source[start..end][i..j], source[start + i..start + j];
    assert forall k | 0 <= k < j - i :: inner[k] == source[start + i + k] == outer[k];
  }

  lemma AliasSiteNamesLegacy(index: Index, alias: Alias, rename: Rename)
    requires index.Valid() && AliasSite(index, alias, rename).Some?
    ensures NamesLegacy(index.source, AliasSite(index, alias, rename).value, rename)
  {
    hide Lines, Advance, LineStart;
    var (start, end) := Span(index, alias.at).value;
    SpanInSource(index, alias.at);
    SliceOfSlice(index.source, start, end, 0, |rename.legacy|);
  }

  /** Past the blanks, the match ends with the legacy name. */
  lemma FromMatchEnds(segment: Text, legacy: Text)
    requires FromMatch(segment, legacy).Some?
    ensures var matched := FromMatch(segment, legacy).value;
      |legacy| <= matched <= |segment| && segment[matched - |legacy|..matched] == legacy
  {
    hide BlankRun;
  }

  /** What a found module site is, in terms of that match. */
  lemma ModuleSiteForm(index: Index, node: Node, rename: Rename) returns (start: nat, end: nat, matched: nat)
    requires index.Valid() && node.ImportFrom? && ModuleSite(index, node, rename).Some?
    ensures start <= end <= |index.source|
    ensures FromMatch(index.source[start..end], rename.legacy) == Some(matched) && |rename.legacy| <= matched
    ensures ModuleSite(index, node, rename).value
         == Site(start + matched - |rename.legacy|, start + matched, rename.canonical, "from")
  {
    hide FromMatch, Span, IsNamespaceReference, TailIsABoundary, Lines, Advance, LineStart;
    SpanInSource(index, node.at);
    start, end := Span(index, node.at).value.0, Span(index, node.at).value.1;
    matched := FromMatch(index.source[start..end], rename.legacy).value;
    FromMatchEnds(index.source[start..end], rename.legacy);
  }

  lemma ModuleSiteNamesLegacy(index: Index, node: Node, rename: Rename)
    requires index.Valid() && node.ImportFrom? && ModuleSite(index, node, rename).Some?
    ensures NamesLegacy(index.source, ModuleSite(index, node, rename).value, rename)
  {
    hide *;
    var start, end, matched := ModuleSiteForm(index, node, rename);
    CoversLegacy(index.source, start, end, matched, rename);
  }

  /** The covering step: what matched inside the segment stands in the source. */
  lemma CoversLegacy(source: Text, start: nat, end: nat, matched: nat, rename: Rename)
    requires start <= end <= |source| && |rename.legacy| <= matched
    requires FromMatch(source[start..end], rename.legacy) == Some(matched)
    ensures NamesLegacy(
      source, Site(start + matched - |rename.legacy|, start + matched, rename.canonical, "from"), rename)
  {
    hide FromMatch;
    FromMatchEnds(source[start..end], rename.legacy);
    SliceOfSlice(source, start, end, matched - |rename.legacy|, matched);
  }

  lemma LiteralSiteNamesLegacy(index: Index, value: Value, rename: Rename)
    requires index.Valid() && LiteralSite(index, value, rename).Some?
    ensures NamesLegacy(index.source, LiteralSite(index, value, rename).value, rename)
  {
    hide Lines, Advance, LineStart;
    var (start, end) := Span(index, Some(value.at)).value;
    SpanInSource(index, Some(value.at));
    var n := |rename.legacy|;
    SliceOfSlice(index.source, start, end, 1, end - start - 1);
    assert rename.legacy <= value.text;
    assert value.text == index.source[start + 1..end - 1];
    SliceOfSlice(index.source, start + 1, end - 1, 0, n);
  }

  lemma {:induction false} AliasSitesNameLegacy(index: Index, names: seq<Alias>, rename: Rename)
    requires index.Valid()
    ensures forall site | site in AliasSites(index, names, rename) :: NamesLegacy(index.source, site, rename)
  {
    if names != [] {
      var last := names[|names| - 1];
      AliasSitesNameLegacy(index, names[..|names| - 1], rename);
      if AliasSite(index, last, rename).Some? {
        AliasSiteNamesLegacy(index, last, rename);
      }
    }
  }

  lemma {:induction false} ImportSitesNameLegacy(index: Index, nodes: seq<Node>, rename: Rename)
    requires index.Valid()
    ensures forall site | site in ImportSites(index, nodes, rename) :: NamesLegacy(index.source, site, rename)
  {
    hide NamesLegacy;
    if nodes != [] {
      var last := nodes[|nodes| - 1];
      ImportSitesNameLegacy(index, nodes[..|nodes| - 1], rename);
      match last
      case Import(names) => AliasSitesNameLegacy(index, names, rename);
      case ImportFrom(_, _, _) =>
        if ModuleSite(index, last, rename).Some? {
          ModuleSiteNamesLegacy(index, last, rename);
        }
      case _ =>
    }
  }

  lemma {:induction false} DynamicSitesNameLegacy(
    index: Index, candidates: seq<Candidate>, n: nat, authorized: set<Entry>, rename: Rename)
    requires index.Valid() && n <= |candidates|
    ensures forall site | site in DynamicSites(index, candidates, n, authorized, rename) ::
              NamesLegacy(index.source, site, rename)
  {
    hide NamesLegacy;
    if n > 0 {
      DynamicSitesNameLegacy(index, candidates, n - 1, authorized, rename);
      if LiteralSite(index, candidates[n - 1].value, rename).Some? {
        LiteralSiteNamesLegacy(index, candidates[n - 1].value, rename);
      }
    }
  }

  /** A rename only ever touches text that reads as the legacy namespace, and puts
      the canonical namespace there. */
  lemma AllSitesNameLegacy(index: Index, nodes: seq<Node>, authorized: set<Entry>, rename: Rename)
    requires index.Valid()
    ensures forall site | site in AllSites(index, nodes, authorized, rename) ::
              NamesLegacy(index.source, site, rename)
  {
    hide NamesLegacy;
    var candidates := Sort(AllCandidates(nodes, rename.legacy), NotAfter);
    ImportSitesNameLegacy(index, nodes, rename);
    DynamicSitesNameLegacy(index, candidates, |candidates|, authorized, rename);
  }

  lemma SitesInSource(source: Text, sites: seq<Site>, rename: Rename)
    requires forall site | site in sites :: NamesLegacy(source, site, rename)
    ensures InSource(source, sites)
    ensures rename.legacy != [] ==> NonEmptySpans(sites)
  {
    forall site | site in sites
      ensures site.start <= site.end <= |source| && (rename.legacy != [] ==> site.start < site.end)
    {
      assert NamesLegacy(source, site, rename);
    }
  }

  // ----- The rewritten text -----

  /** `texts` with `joint` between each two neighbours. */
  function Interleave(texts: seq<Text>, joint: Text): Text
    requires texts != []
  {
    if |texts| == 1 then texts[0] else texts[0] + joint + Interleave(texts[1..], joint)
  }

  /** The pieces of the source between the sites. */
  function Gaps(source: Text, ordered: seq<Site>, cursor: nat): (gaps: seq<Text>)
    requires InSource(source, ordered) && Chained(ordered, cursor) && cursor <= |source|
    ensures |gaps| == |ordered| + 1
  {
    if ordered == [] then [source[cursor..]]
    else
      SpliceHead(source, ordered, cursor);
      [source[cursor..ordered[0].start]] + Gaps(source, ordered[1..], ordered[0].end)
  }

  lemma {:induction false} GapsInterleave(source: Text, ordered: seq<Site>, cursor: nat, rename: Rename)
    requires InSource(source, ordered) && Chained(ordered, cursor) && cursor <= |source|
    requires forall site | site in ordered :: NamesLegacy(source, site, rename)
    ensures source[cursor..] == Interleave(Gaps(source, ordered, cursor), rename.legacy)
    ensures SpliceFrom(source, ordered, cursor) == Interleave(Gaps(source, ordered, cursor), rename.canonical)
  {
    if ordered != [] {
      var site, rest := ordered[0], ordered[1..];
      assert site in ordered && forall x | x in rest :: x in ordered;
      SpliceHead(source, ordered, cursor);
      GapsInterleave(source, rest, site.end, rename);
      var gap := source[cursor..site.start];
      var later := Gaps(source, rest, site.end);
      assert Gaps(source, ordered, cursor) == [gap] + later && ([gap] + later)[1..] == later;
      ThreeParts(source, cursor, site.start, site.end);
      hide *;
    }
  }

  /** What a successful rewrite did: one list of pieces, joined by the legacy name in
      the base and by the canonical name in the result, one joint per site. */
  lemma RewriteMeaning(source: Text, sites: seq<Site>, rename: Rename)
    requires forall site | site in sites :: NamesLegacy(source, site, rename)
    requires InSource(source, sites) && ApplySites(source, sites).Ok?
    ensures exists pieces: seq<Text> ::
      && |pieces| == |sites| + 1
      && source == Interleave(pieces, rename.legacy)
      && ApplySites(source, sites).value == Interleave(pieces, rename.canonical)
  {
    var ordered := SortByStart(sites);
    SortInSource(source, sites);
    forall site | site in ordered ensures NamesLegacy(source, site, rename) {
      assert site in multiset(ordered);
    }
    assert |ordered| == |multiset(ordered)| == |multiset(sites)| == |sites|;
    hide NamesLegacy;
    GapsInterleave(source, ordered, 0, rename);
    assert source[0..] == source;
    assert |Gaps(source, ordered, 0)| == |sites| + 1;
  }

  /** The rename as a whole: a successful rewrite joins the same pieces with the
      canonical name that the base joins with the legacy name. */
  lemma RewriteRenames(rename: Rename, audited: seq<AuditedSite>, source: Text, path: Option<Text>,
                       nodes: seq<Node>, fingerprint: Text)
    requires RewriteOf(rename, audited, source, path, nodes, fingerprint).Ok?
    ensures var r := RewriteOf(rename, audited, source, path, nodes, fingerprint).value;
      exists pieces: seq<Text> ::
        && |pieces| == |r.sites| + 1
        && source == Interleave(pieces, rename.legacy)
        && r.source == Interleave(pieces, rename.canonical)
  {
    hide Interleave, NamesLegacy, IndexOf, AllSites;
    var index := IndexOf(source);
    var authorized := Authorized(audited, path, fingerprint);
    AllSitesNameLegacy(index, nodes, authorized, rename);
    var sites := AllSites(index, nodes, authorized, rename);
    SitesInSource(source, sites, rename);
    RewriteMeaning(source, sites, rename);
  }

  // ----- Occurrence authority -----

  /** Candidates are counted in source order and none is lost by sorting them. */
  lemma CandidatesInSourceOrder(nodes: seq<Node>, legacy: Text)
    ensures var found := AllCandidates(nodes, legacy);
            Sorted(Sort(found, NotAfter), NotAfter) && multiset(Sort(found, NotAfter)) == multiset(found)
  {
    SortKeeps(AllCandidates(nodes, legacy), NotAfter);
  }

  lemma {:induction false} CountGrows(candidates: seq<Candidate>, i: nat, j: nat, key: Key)
    requires i <= j <= |candidates|
    ensures CountKey(candidates[..i], key) <= CountKey(candidates[..j], key)
  {
    if i < j {
      CountGrows(candidates, i, j - 1, key);
      assert candidates[..j][..j - 1] == candidates[..j - 1];
    }
  }

  /** No two candidates claim the same audited entry. */
  lemma EntriesDistinct(candidates: seq<Candidate>, i: nat, j: nat)
    requires i < j < |candidates|
    ensures EntryAt(candidates, i) != EntryAt(candidates, j)
  {
    var key := candidates[i].key;
    CountGrows(candidates, i + 1, j, key);
    assert candidates[..i + 1][..i] == candidates[..i];
  }

  /** The authorized entries claimed by the first `n` candidates. */
  function Claimed(candidates: seq<Candidate>, n: nat, authorized: set<Entry>): set<Entry>
    requires n <= |candidates|
  {
    set i | 0 <= i < n && EntryAt(candidates, i) in authorized :: EntryAt(candidates, i)
  }

  lemma {:induction false} OneSitePerEntry(
    index: Index, candidates: seq<Candidate>, n: nat, authorized: set<Entry>, rename: Rename)
    requires index.Valid() && n <= |candidates|
    ensures |DynamicSites(index, candidates, n, authorized, rename)| <= |Claimed(candidates, n, authorized)|
  {
    hide EntryAt, LiteralSite, CountKey;
    if n > 0 {
      OneSitePerEntry(index, candidates, n - 1, authorized, rename);
      var e := EntryAt(candidates, n - 1);
      var before, after := Claimed(candidates, n - 1, authorized), Claimed(candidates, n, authorized);
      if e in authorized {
        forall i | 0 <= i < n - 1 ensures EntryAt(candidates, i) != e {
          EntriesDistinct(candidates, i, n - 1);
        }
        assert after == before + {e} && e !in before;
      } else {
        assert after == before;
      }
    }
  }

  lemma SubsetCardinality<T>(a: set<T>, b: set<T>)
    requires a <= b
    ensures |a| <= |b|
  {
    assert b == a + (b - a) && a !! (b - a);
  }

  /** Each audited entry authorizes at most one literal, so the dynamic rewrites of a
      file never outnumber its audited entries. */
  lemma DynamicSitesBounded(index: Index, candidates: seq<Candidate>, authorized: set<Entry>, rename: Rename)
    requires index.Valid()
    ensures |DynamicSites(index, candidates, |candidates|, authorized, rename)| <= |authorized|
  {
    OneSitePerEntry(index, candidates, |candidates|, authorized, rename);
    SubsetCardinality(Claimed(candidates, |candidates|, authorized), authorized);
  }

  lemma {:induction false} NoAuthorityNoDynamicSites(
    index: Index, candidates: seq<Candidate>, n: nat, rename: Rename)
    requires index.Valid() && n <= |candidates|
    ensures DynamicSites(index, candidates, n, {}, rename) == []
  {
    if n > 0 {
      NoAuthorityNoDynamicSites(index, candidates, n - 1, rename);
    }
  }

  /** A file whose path or exact base text was not audited has import sites only. */
  lemma UnknownBaseRewritesImportsOnly(index: Index, nodes: seq<Node>, rename: Rename,
                                       audited: seq<AuditedSite>, path: Option<Text>, fingerprint: Text)
    requires index.Valid()
    requires path.None? || path.value == ""
             || forall site | site in audited :: site.path != path.value || site.baseSha256 != fingerprint
    ensures AllSites(index, nodes, Authorized(audited, path, fingerprint), rename)
         == ImportSites(index, nodes, rename)
  {
    assert Authorized(audited, path, fingerprint) == {};
    var candidates := Sort(AllCandidates(nodes, rename.legacy), NotAfter);
    NoAuthorityNoDynamicSites(index, candidates, |candidates|, rename);
  }
}
