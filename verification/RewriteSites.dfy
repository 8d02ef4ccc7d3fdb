/** Which sites a rewrite has, told from the parsed nodes and the source text alone: every
    place that should be renamed is found, once, and no other. */
module RewriteSites {
  import opened Outcomes
  import opened SourceIndex
  import opened Splice
  import opened StableSort
  import opened NamespaceRewrite
  import opened Utf8
  import C = Classifier

  // ----- What should be renamed -----

  /** A part of a node: an alias of an import, the module of a `from` import (part 0), or an
      argument of a call: the first positional one (part 0) or keyword `part - 1`. */
  datatype Spot = Spot(node: nat, part: nat)

  /** `name` is the namespace or a module inside it. */
  predicate Refers(name: Text, legacy: Text) {
    |legacy| <= |name| && name[..|legacy|] == legacy && (|name| == |legacy| || name[|legacy|] == '.')
  }

  /** A position with both its offsets, in order. */
  ghost predicate Covers(source: Text, at: Option<Position>, start: nat, end: nat) {
    && at.Some? && start <= end
    && IndexOf(source).Offset(at.value.line, at.value.column) == Some(start)
    && IndexOf(source).Offset(at.value.endLine, at.value.endColumn) == Some(end)
  }

  /** From `p` on, and not beyond `end`, the source reads `name`, and no dotted name goes on
      behind it except by a dot. */
  predicate ReadsName(source: Text, p: nat, end: nat, name: Text) {
    && p + |name| <= end <= |source| && source[p..p + |name|] == name
    && (p + |name| == end || source[p + |name|] in {'.', ' ', '\t', '\\', '\r', '\n'})
  }

  /** `from`, `blanks` blanks, and the name. */
  predicate ReadsFrom(source: Text, start: nat, end: nat, blanks: nat, name: Text) {
    && start + 4 + blanks + |name| <= end <= |source| && source[start..start + 4] == "from" && blanks > 0
    && (forall i | start + 4 <= i < start + 4 + blanks :: source[i] == ' ' || source[i] == '\t')
    && source[start + 4 + blanks..start + 4 + blanks + |name|] == name
  }

  ghost predicate AliasRenamed(source: Text, alias: Alias, rename: Rename, site: Site) {
    && Refers(alias.name, rename.legacy)
    && exists start: nat, end: nat ::
         && Covers(source, alias.at, start, end) && ReadsName(source, start, end, rename.legacy)
         && site == Site(start, start + |rename.legacy|, rename.canonical, "import")
  }

  ghost predicate ModuleRenamed(source: Text, node: Node, rename: Rename, site: Site)
    requires node.ImportFrom?
  {
    && node.level == 0 && node.moduleName.Some? && Refers(node.moduleName.value, rename.legacy)
    && exists start: nat, end: nat, blanks: nat ::
         && Covers(source, node.at, start, end) && ReadsFrom(source, start, end, blanks, rename.legacy)
         && (forall more: nat | more > blanks :: !ReadsFrom(source, start, end, more, rename.legacy))
         && ReadsName(source, start + 4 + blanks, end, rename.legacy)
         && site == Site(start + 4 + blanks, start + 4 + blanks + |rename.legacy|, rename.canonical, "from")
  }

  lemma RefersIff(name: Text, legacy: Text)
    ensures IsNamespaceReference(name, legacy) <==> Refers(name, legacy)
  {
    if Refers(name, legacy) && |name| == |legacy| {
      assert name[..|legacy|] == name;
    }
    if Refers(name, legacy) && |name| > |legacy| {
      assert name[..|legacy| + 1] == legacy + ".";
    }
    if legacy + "." <= name {
      assert name[..|legacy| + 1] == legacy + "." && name[..|legacy|] == name[..|legacy| + 1][..|legacy|];
      assert name[|legacy|] == name[..|legacy| + 1][|legacy|];
    }
  }

  lemma CoversIff(source: Text, at: Option<Position>, start: nat, end: nat)
    ensures Covers(source, at, start, end) <==> Span(IndexOf(source), at) == Some((start, end))
    ensures Covers(source, at, start, end) ==> end <= |source|
  {
    if Span(IndexOf(source), at).Some? {
      SpanInSource(IndexOf(source), at);
    }
  }

  lemma ReadsNameIff(source: Text, start: nat, end: nat, p: nat, name: Text)
    requires start <= p <= end <= |source|
    ensures var rest := source[start..end][p - start..];
      ReadsName(source, p, end, name) <==> name <= rest && TailIsABoundary(rest[|name|..])
  {
    var rest := source[start..end][p - start..];
    assert rest == source[p..end];
    if name <= rest {
      assert rest[..|name|] == source[p..p + |name|];
      assert rest[|name|..] == source[p + |name|..end];
    }
    if ReadsName(source, p, end, name) {
      assert source[p..p + |name|] == rest[..|name|];
    }
  }

  lemma AliasSiteIff(source: Text, alias: Alias, rename: Rename, site: Site)
    ensures AliasSite(IndexOf(source), alias, rename) == Some(site) <==> AliasRenamed(source, alias, rename, site)
  {
    hide IndexOf, Span, Covers, ReadsName, TailIsABoundary, Refers, IsNamespaceReference;
    RefersIff(alias.name, rename.legacy);
    forall start: nat, end: nat | Covers(source, alias.at, start, end)
      ensures Span(IndexOf(source), alias.at) == Some((start, end)) && start <= end <= |source|
      ensures ReadsName(source, start, end, rename.legacy) <==>
        rename.legacy <= source[start..end] && TailIsABoundary(source[start..end][|rename.legacy|..])
    {
      CoversIff(source, alias.at, start, end);
      SpanInSource(IndexOf(source), alias.at);
      ReadsNameIff(source, start, end, start, rename.legacy);
      assert source[start..end][0..] == source[start..end];
    }
    if Span(IndexOf(source), alias.at).Some? {
      var (start, end) := Span(IndexOf(source), alias.at).value;
      SpanInSource(IndexOf(source), alias.at);
      CoversIff(source, alias.at, start, end);
    }
  }

  lemma {:induction false} BlankRunIs(s: Text)
    ensures BlankRun(s) <= |s| && forall i | 0 <= i < BlankRun(s) :: s[i] == ' ' || s[i] == '\t'
    ensures BlankRun(s) < |s| ==> !(s[BlankRun(s)] == ' ' || s[BlankRun(s)] == '\t')
  {
    if s != [] && s[0] in " \t" {
      BlankRunIs(s[1..]);
      assert forall i | 0 < i < |s| :: s[i] == s[1..][i - 1];
    }
  }

  /** With `blanks` blanks left of the match the name follows. */
  predicate Follows(segment: Text, blanks: nat, name: Text) {
    4 + blanks + |name| <= |segment| && segment[4 + blanks..4 + blanks + |name|] == name
  }

  /** The most blanks, up to `blanks`, behind which the name follows; 0 if there are none. */
  lemma {:induction false} BacktrackIs(segment: Text, name: Text, blanks: nat) returns (most: nat)
    ensures most <= blanks && forall b: nat | most < b <= blanks :: !Follows(segment, b, name)
    ensures most > 0 ==> Follows(segment, most, name)
    ensures Backtrack(segment, name, blanks) == if most > 0 then Some(4 + most + |name|) else None
  {
    most := blanks;
    if blanks > 0 {
      FollowsIff(segment, blanks, name);
      hide Follows;
      if !Follows(segment, blanks, name) {
        most := BacktrackIs(segment, name, blanks - 1);
      }
    }
  }

  lemma FollowsIff(segment: Text, blanks: nat, name: Text)
    ensures Follows(segment, blanks, name) <==> 4 + blanks <= |segment| && name <= segment[4 + blanks..]
  {
    if 4 + blanks + |name| <= |segment| {
      assert segment[4 + blanks..4 + blanks + |name|] == segment[4 + blanks..][..|name|];
    }
  }

  lemma ReadsFromIff(source: Text, start: nat, end: nat, blanks: nat, name: Text)
    requires start <= end <= |source|
    ensures var segment := source[start..end];
      ReadsFrom(source, start, end, blanks, name) <==>
        "from" <= segment && 0 < blanks <= BlankRun(segment[4..]) && Follows(segment, blanks, name)
  {
    var segment := source[start..end];
    if |segment| >= 4 {
      BlankRunIs(segment[4..]);
      assert segment[..4] == source[start..start + 4];
      assert forall i | 0 <= i < |segment| - 4 :: segment[4..][i] == source[start + 4 + i];
      if 4 + blanks + |name| <= |segment| {
        assert segment[4 + blanks..4 + blanks + |name|]
            == source[start + 4 + blanks..start + 4 + blanks + |name|];
      }
      var run := BlankRun(segment[4..]);
      assert run < |segment| - 4 ==> segment[4..][run] == source[start + 4 + run];
    }
  }

  /** The match of `_module_site`: the most blanks behind which the name still follows. */
  lemma FromMatchIff(source: Text, start: nat, end: nat, name: Text, matched: nat)
    requires start <= end <= |source|
    ensures FromMatch(source[start..end], name) == Some(matched) <==>
      exists blanks: nat :: matched == 4 + blanks + |name| && ReadsFrom(source, start, end, blanks, name)
        && forall more: nat | more > blanks :: !ReadsFrom(source, start, end, more, name)
  {
    var segment := source[start..end];
    forall b: nat
      ensures ReadsFrom(source, start, end, b, name) <==>
        "from" <= segment && 0 < b <= BlankRun(segment[4..]) && Follows(segment, b, name)
    {
      ReadsFromIff(source, start, end, b, name);
    }
    if "from" <= segment {
      var most := BacktrackIs(segment, name, BlankRun(segment[4..]));
      assert most > 0 ==> ReadsFrom(source, start, end, most, name);
    }
    hide ReadsFrom, Follows, Backtrack, BlankRun;
  }

  lemma ModuleSiteForm(source: Text, node: Node, rename: Rename, start: nat, end: nat)
    requires node.ImportFrom? && node.level == 0 && node.moduleName.Some?
    requires Refers(node.moduleName.value, rename.legacy) && Covers(source, node.at, start, end)
    ensures end <= |source|
    ensures ModuleSite(IndexOf(source), node, rename) ==
      match FromMatch(source[start..end], rename.legacy)
      case None => None
      case Some(matched) =>
        if |rename.legacy| <= matched <= end - start && TailIsABoundary(source[start..end][matched..]) then
          Some(Site(start + matched - |rename.legacy|, start + matched, rename.canonical, "from"))
        else None
  {
    hide IndexOf, Span, Covers, TailIsABoundary, Refers, IsNamespaceReference, FromMatch;
    RefersIff(node.moduleName.value, rename.legacy);
    CoversIff(source, node.at, start, end);
    SpanInSource(IndexOf(source), node.at);
    if FromMatch(source[start..end], rename.legacy).Some? {
      FromMatchEnds(source[start..end], rename.legacy);
    }
  }

  lemma ModuleSiteSome(source: Text, node: Node, rename: Rename, site: Site)
    requires node.ImportFrom? && ModuleSite(IndexOf(source), node, rename) == Some(site)
    ensures node.level == 0 && node.moduleName.Some? && Refers(node.moduleName.value, rename.legacy)
    ensures exists start: nat, end: nat :: Covers(source, node.at, start, end)
  {
    hide IndexOf, Span, Covers, TailIsABoundary, Refers, IsNamespaceReference, FromMatch;
    RefersIff(node.moduleName.value, rename.legacy);
    var (start, end) := Span(IndexOf(source), node.at).value;
    CoversIff(source, node.at, start, end);
  }

  /** What stands behind a match of `from` and blanks. */
  lemma NameEndsMatch(source: Text, start: nat, end: nat, blanks: nat, name: Text)
    requires start <= end <= |source| && ReadsFrom(source, start, end, blanks, name)
    ensures ReadsName(source, start + 4 + blanks, end, name) <==>
      TailIsABoundary(source[start..end][4 + blanks + |name|..])
  {
    var p := start + 4 + blanks;
    ReadsNameIff(source, start, end, p, name);
    assert source[start..end][p - start..] == source[p..end];
    assert source[p..end][|name|..] == source[start..end][4 + blanks + |name|..];
    assert source[p..end][..|name|] == name;
  }

  lemma ModuleSiteSound(source: Text, node: Node, rename: Rename, site: Site)
    requires node.ImportFrom? && ModuleSite(IndexOf(source), node, rename) == Some(site)
    ensures ModuleRenamed(source, node, rename, site)
  {
    hide IndexOf, Span, Covers, TailIsABoundary, Refers, IsNamespaceReference, FromMatch, ReadsFrom, ReadsName;
    hide ModuleSite;
    ModuleSiteSome(source, node, rename, site);
    var start: nat, end: nat :| Covers(source, node.at, start, end);
    ModuleSiteForm(source, node, rename, start, end);
    CoversIff(source, node.at, start, end);
    assert start <= end by { SpanInSource(IndexOf(source), node.at); }
    var matched := FromMatch(source[start..end], rename.legacy).value;
    FromMatchIff(source, start, end, rename.legacy, matched);
    var blanks: nat :| matched == 4 + blanks + |rename.legacy|
      && ReadsFrom(source, start, end, blanks, rename.legacy)
      && forall more: nat | more > blanks :: !ReadsFrom(source, start, end, more, rename.legacy);
    NameEndsMatch(source, start, end, blanks, rename.legacy);
  }

  lemma ModuleSiteComplete(source: Text, node: Node, rename: Rename, site: Site)
    requires node.ImportFrom? && ModuleRenamed(source, node, rename, site)
    ensures ModuleSite(IndexOf(source), node, rename) == Some(site)
  {
    hide IndexOf, Span, Covers, TailIsABoundary, Refers, IsNamespaceReference, FromMatch, ReadsFrom, ReadsName;
    hide ModuleSite;
    var start: nat, end: nat, blanks: nat :|
       && Covers(source, node.at, start, end) && ReadsFrom(source, start, end, blanks, rename.legacy)
       && (forall more: nat | more > blanks :: !ReadsFrom(source, start, end, more, rename.legacy))
       && ReadsName(source, start + 4 + blanks, end, rename.legacy)
       && site == Site(start + 4 + blanks, start + 4 + blanks + |rename.legacy|, rename.canonical, "from");
    ModuleSiteForm(source, node, rename, start, end);
    CoversIff(source, node.at, start, end);
    assert start <= end by { SpanInSource(IndexOf(source), node.at); }
    FromMatchIff(source, start, end, rename.legacy, 4 + blanks + |rename.legacy|);
    NameEndsMatch(source, start, end, blanks, rename.legacy);
    FromMatchEnds(source[start..end], rename.legacy);
  }

  lemma ModuleSiteIff(source: Text, node: Node, rename: Rename, site: Site)
    requires node.ImportFrom?
    ensures ModuleSite(IndexOf(source), node, rename) == Some(site) <==> ModuleRenamed(source, node, rename, site)
  {
    hide *;
    if ModuleSite(IndexOf(source), node, rename) == Some(site) {
      ModuleSiteSound(source, node, rename, site);
    }
    if ModuleRenamed(source, node, rename, site) {
      ModuleSiteComplete(source, node, rename, site);
    }
  }

  // ----- Audited literals -----

  /** The source from `start` to `end` is `text` in quotes of one kind, written out plainly. */
  predicate ReadsLiteral(source: Text, start: nat, end: nat, text: Text) {
    && end == start + |text| + 2 && end <= |source|
    && (source[start] == '\'' || source[start] == '"') && source[end - 1] == source[start]
    && source[start + 1..end - 1] == text
    && forall c | c in text :: 'A' <= c <= 'Z' || 'a' <= c <= 'z' || '0' <= c <= '9' || c == '_' || c == '.'
  }

  /** A string literal that names the namespace. */
  ghost predicate LiteralRenamed(source: Text, value: Value, rename: Rename, site: Site) {
    && value.StringConstant? && Refers(value.text, rename.legacy)
    && exists start: nat, end: nat ::
         && Covers(source, Some(value.at), start, end) && ReadsLiteral(source, start, end, value.text)
         && site == Site(start + 1, start + 1 + |rename.legacy|, rename.canonical, "call-argument")
  }

  lemma ReadsLiteralIff(source: Text, start: nat, end: nat, text: Text)
    requires start <= end <= |source|
    ensures IsPlainLiteral(source[start..end], text) <==> ReadsLiteral(source, start, end, text)
  {
    var segment := source[start..end];
    assert forall i | 0 <= i < |text| :: text[i] in text;
    if |segment| == |text| + 2 {
      SliceOfSlice(source, start, end, 1, end - start - 1);
    }
  }

  lemma LiteralSiteAt(source: Text, value: Value, rename: Rename, start: nat, end: nat)
    requires value.StringConstant? && Refers(value.text, rename.legacy)
    requires Covers(source, Some(value.at), start, end)
    ensures LiteralSite(IndexOf(source), value, rename) ==
      if ReadsLiteral(source, start, end, value.text) then
        Some(Site(start + 1, start + 1 + |rename.legacy|, rename.canonical, "call-argument"))
      else None
  {
    hide IndexOf, Span, Covers, Refers, IsNamespaceReference, IsPlainLiteral, ReadsLiteral;
    RefersIff(value.text, rename.legacy);
    CoversIff(source, Some(value.at), start, end);
    SpanInSource(IndexOf(source), Some(value.at));
    ReadsLiteralIff(source, start, end, value.text);
  }

  lemma LiteralSiteIff(source: Text, value: Value, rename: Rename, site: Site)
    ensures LiteralSite(IndexOf(source), value, rename) == Some(site) <==> LiteralRenamed(source, value, rename, site)
  {
    hide IndexOf, Span, Covers, Refers, IsNamespaceReference, IsPlainLiteral, ReadsLiteral;
    if LiteralSite(IndexOf(source), value, rename) == Some(site) {
      RefersIff(value.text, rename.legacy);
      var span := Span(IndexOf(source), Some(value.at)).value;
      CoversIff(source, Some(value.at), span.0, span.1);
      LiteralSiteAt(source, value, rename, span.0, span.1);
    }
    if LiteralRenamed(source, value, rename, site) {
      var start: nat, end: nat :|
        && Covers(source, Some(value.at), start, end) && ReadsLiteral(source, start, end, value.text)
        && site == Site(start + 1, start + 1 + |rename.legacy|, rename.canonical, "call-argument");
      LiteralSiteAt(source, value, rename, start, end);
    }
  }

  // ----- Arguments that name a module -----

  /** `func` is written as this dotted name. */
  ghost predicate Spells(func: Func, text: Text) {
    match func
    case Name(id) => text == id
    case Attribute(value, attr) => exists prefix :: Spells(value, prefix) && text == prefix + "." + attr
    case OtherFunc => false
  }

  /** Calls of `callee` take a module as their first positional argument, or by this keyword. */
  predicate NamesModule(callee: Text, keyword: Option<Text>) {
    || (callee in {"__import__", "import_module", "importlib.import_module", "find_spec", "importlib.util.find_spec"}
        && (keyword.None? || keyword == Some("name")))
    || (callee in {"patch", "mock.patch", "unittest.mock.patch"} && (keyword.None? || keyword == Some("target")))
    || (callee in {"monkeypatch.setattr", "monkeypatch.delattr"} && keyword.None?)
  }

  /** The spot is an argument that names the namespace, and `c` is what it is called. */
  ghost predicate IsCandidate(nodes: seq<Node>, legacy: Text, spot: Spot, c: Candidate) {
    && spot.node < |nodes| && nodes[spot.node].Call? && ArgumentNames(nodes[spot.node], legacy, spot.part, c)
  }

  ghost predicate ArgumentNames(call: Node, legacy: Text, part: nat, c: Candidate)
    requires call.Call?
  {
    && c.value.StringConstant? && Refers(c.value.text, legacy)
    && c.key.scope == call.scope && c.key.literal == c.value.text && Spells(call.func, c.key.callee)
    && if part == 0 then
         call.args != [] && c.value == call.args[0] && c.key.argument == Positional(0)
         && NamesModule(c.key.callee, None)
       else
         part <= |call.keywords| && c.value == call.keywords[part - 1].value && c.key.argument.Named?
         && call.keywords[part - 1].name == Some(c.key.argument.name)
         && NamesModule(c.key.callee, Some(c.key.argument.name))
  }

  lemma {:induction false} SpellsIff(func: Func, text: Text)
    ensures Spells(func, text) <==> CalleeName(func) == Some(text)
  {
    match func
    case Attribute(value, attr) =>
      if CalleeName(value).Some? {
        SpellsIff(value, CalleeName(value).value);
      }
      if Spells(func, text) {
        var prefix :| Spells(value, prefix) && text == prefix + "." + attr;
        SpellsIff(value, prefix);
      }
    case _ =>
  }

  /** What `_dynamic_candidates` makes of one argument. */
  function ArgumentOf(call: Node, accepted: Option<Text>, part: nat): Option<(Slot, Value)>
    requires call.Call?
  {
    if part == 0 then
      if call.args != [] && !call.args[0].Starred? then Some((Positional(0), call.args[0])) else None
    else if part <= |call.keywords| && call.keywords[part - 1].name.Some? && call.keywords[part - 1].name == accepted
    then Some((Named(call.keywords[part - 1].name.value), call.keywords[part - 1].value))
    else None
  }

  function CandidateFrom(scope: Text, callee: Text, argument: Option<(Slot, Value)>, legacy: Text): Option<Candidate> {
    match argument
    case None => None
    case Some((slot, value)) =>
      if value.StringConstant? && IsNamespaceReference(value.text, legacy)
      then Some(Candidate(Key(scope, callee, slot, value.text), value)) else None
  }

  function CandidateOf(call: Node, legacy: Text, part: nat): Option<Candidate>
    requires call.Call?
  {
    match CalleeName(call.func)
    case None => None
    case Some(callee) =>
      match Construct(callee)
      case None => None
      case Some(keyword) => CandidateFrom(call.scope, callee, ArgumentOf(call, keyword, part), legacy)
  }

  lemma ConstructIs(callee: Text, keyword: Option<Text>)
    ensures NamesModule(callee, keyword) <==>
      Construct(callee).Some? && (keyword.None? || Construct(callee).value == keyword)
  {
  }

  lemma CandidateOfIff(call: Node, legacy: Text, part: nat, c: Candidate)
    requires call.Call?
    ensures CandidateOf(call, legacy, part) == Some(c) <==> ArgumentNames(call, legacy, part, c)
  {
    hide Spells, CalleeName, Construct, NamesModule, Refers, IsNamespaceReference;
    SpellsIff(call.func, c.key.callee);
    ConstructIs(c.key.callee, None);
    if c.key.argument.Named? {
      ConstructIs(c.key.callee, Some(c.key.argument.name));
    }
    if c.value.StringConstant? {
      RefersIff(c.value.text, legacy);
    }
  }

  // ----- Candidates, in the order of the nodes -----

  ghost predicate Increasing(parts: seq<nat>) {
    forall i, j | 0 <= i < j < |parts| :: parts[i] < parts[j]
  }

  /** `parts` are the arguments of the call from part `from` on that are looked at. */
  ghost predicate ListsArguments(
    call: Node, accepted: Option<Text>, from: nat, parts: seq<nat>, arguments: seq<(Slot, Value)>)
    requires call.Call?
  {
    && |parts| == |arguments| && Increasing(parts)
    && (forall k | 0 <= k < |parts| :: parts[k] >= from && ArgumentOf(call, accepted, parts[k]) == Some(arguments[k]))
    && (forall p: nat | p >= from && ArgumentOf(call, accepted, p).Some? :: p in parts)
  }

  ghost predicate ListsCandidates(
    call: Node, callee: Text, accepted: Option<Text>, legacy: Text, from: nat, parts: seq<nat>, cs: seq<Candidate>)
    requires call.Call?
  {
    && |parts| == |cs| && Increasing(parts)
    && (forall k | 0 <= k < |parts| :: parts[k] >= from
          && CandidateFrom(call.scope, callee, ArgumentOf(call, accepted, parts[k]), legacy) == Some(cs[k]))
    && (forall p: nat | p >= from && CandidateFrom(call.scope, callee, ArgumentOf(call, accepted, p), legacy).Some? ::
          p in parts)
  }

  lemma {:induction false} NamedListed(call: Node, accepted: Option<Text>, j: nat) returns (parts: seq<nat>)
    requires call.Call? && j <= |call.keywords|
    ensures ListsArguments(call, accepted, j + 1, parts, NamedArguments(call.keywords[j..], accepted))
    decreases |call.keywords| - j
  {
    hide ListsArguments;
    if j == |call.keywords| {
      parts := [];
      NoneListed(call, accepted);
    } else {
      assert call.keywords[j..][1..] == call.keywords[j + 1..] && call.keywords[j..][0] == call.keywords[j];
      parts := NamedListed(call, accepted, j + 1);
      var later := NamedArguments(call.keywords[j + 1..], accepted);
      if ArgumentOf(call, accepted, j + 1).Some? {
        ArgumentTaken(call, accepted, j + 1, parts, later, ArgumentOf(call, accepted, j + 1).value);
        parts := [j + 1] + parts;
      } else {
        ArgumentSkipped(call, accepted, j + 1, parts, later);
        assert [] + later == later;
      }
    }
  }

  lemma NoneListed(call: Node, accepted: Option<Text>)
    requires call.Call?
    ensures ListsArguments(call, accepted, |call.keywords| + 1, [], [])
  {
  }

  lemma ArgumentSkipped(
    call: Node, accepted: Option<Text>, from: nat, parts: seq<nat>, arguments: seq<(Slot, Value)>)
    requires call.Call? && ListsArguments(call, accepted, from + 1, parts, arguments)
    requires ArgumentOf(call, accepted, from).None?
    ensures ListsArguments(call, accepted, from, parts, arguments)
  {
    hide ArgumentOf;
  }

  lemma ArgumentTaken(
    call: Node, accepted: Option<Text>, from: nat, parts: seq<nat>, arguments: seq<(Slot, Value)>,
    argument: (Slot, Value))
    requires call.Call? && ListsArguments(call, accepted, from + 1, parts, arguments)
    requires ArgumentOf(call, accepted, from) == Some(argument)
    ensures ListsArguments(call, accepted, from, [from] + parts, [argument] + arguments)
  {
    hide ArgumentOf;
    forall p: nat | p >= from && ArgumentOf(call, accepted, p).Some? ensures p in [from] + parts {
      assert p > from ==> p in parts;
    }
  }

  lemma ArgumentsListed(call: Node, accepted: Option<Text>) returns (parts: seq<nat>)
    requires call.Call?
    ensures ListsArguments(call, accepted, 0, parts,
      (if call.args != [] && !call.args[0].Starred? then [(Positional(0), call.args[0])] else [])
      + NamedArguments(call.keywords, accepted))
  {
    hide ListsArguments;
    parts := NamedListed(call, accepted, 0);
    assert call.keywords[0..] == call.keywords;
    var later := NamedArguments(call.keywords, accepted);
    if ArgumentOf(call, accepted, 0).Some? {
      ArgumentTaken(call, accepted, 0, parts, later, ArgumentOf(call, accepted, 0).value);
      parts := [0] + parts;
    } else {
      ArgumentSkipped(call, accepted, 0, parts, later);
      assert [] + later == later;
    }
  }

  lemma {:induction false} ReferencesListed(
    call: Node, callee: Text, accepted: Option<Text>, legacy: Text, from: nat, parts: seq<nat>,
    arguments: seq<(Slot, Value)>)
    returns (chosen: seq<nat>)
    requires call.Call? && ListsArguments(call, accepted, from, parts, arguments)
    ensures ListsCandidates(
      call, callee, accepted, legacy, from, chosen, References(call.scope, callee, arguments, legacy))
    decreases |arguments|
  {
    SameCount(call, accepted, from, parts, arguments);
    hide *;
    if arguments == [] {
      chosen := [];
      NoReferences(call, callee, accepted, legacy, from, parts);
    } else {
      ArgumentsTail(call, accepted, from, parts, arguments);
      chosen := ReferencesListed(call, callee, accepted, legacy, parts[0] + 1, parts[1..], arguments[1..]);
      chosen := ReferenceStep(call, callee, accepted, legacy, from, parts, arguments, chosen);
    }
  }

  lemma NoReferences(
    call: Node, callee: Text, accepted: Option<Text>, legacy: Text, from: nat, parts: seq<nat>)
    requires call.Call? && ListsArguments(call, accepted, from, parts, [])
    ensures ListsCandidates(call, callee, accepted, legacy, from, [], References(call.scope, callee, [], legacy))
  {
    hide ArgumentOf;
  }

  lemma ReferenceStep(
    call: Node, callee: Text, accepted: Option<Text>, legacy: Text, from: nat, parts: seq<nat>,
    arguments: seq<(Slot, Value)>, chosen: seq<nat>)
    returns (longer: seq<nat>)
    requires call.Call? && arguments != [] && |parts| == |arguments|
    requires ListsArguments(call, accepted, from, parts, arguments)
    requires ListsCandidates(call, callee, accepted, legacy, parts[0] + 1, chosen,
                             References(call.scope, callee, arguments[1..], legacy))
    ensures ListsCandidates(
      call, callee, accepted, legacy, from, longer, References(call.scope, callee, arguments, legacy))
  {
    hide *;
    HeadArgument(call, accepted, from, parts, arguments);
    ReferencesHead(call.scope, callee, arguments, legacy);
    var later := References(call.scope, callee, arguments[1..], legacy);
    var found := CandidateFrom(call.scope, callee, Some(arguments[0]), legacy);
    if found.Some? {
      CandidateTaken(call, callee, accepted, legacy, parts[0], chosen, later, found.value);
      CandidatesLower(
        call, callee, accepted, legacy, from, parts, arguments, [parts[0]] + chosen, [found.value] + later);
      longer := [parts[0]] + chosen;
    } else {
      CandidateSkipped(call, callee, accepted, legacy, parts[0], chosen, later);
      CandidatesLower(call, callee, accepted, legacy, from, parts, arguments, chosen, later);
      assert [] + later == later;
      longer := chosen;
    }
  }

  lemma ReferencesHead(scope: Text, callee: Text, arguments: seq<(Slot, Value)>, legacy: Text)
    requires arguments != []
    ensures References(scope, callee, arguments, legacy) ==
      (match CandidateFrom(scope, callee, Some(arguments[0]), legacy)
       case None => []
       case Some(c) => [c]) + References(scope, callee, arguments[1..], legacy)
  {
  }

  lemma HeadArgument(
    call: Node, accepted: Option<Text>, from: nat, parts: seq<nat>, arguments: seq<(Slot, Value)>)
    requires call.Call? && ListsArguments(call, accepted, from, parts, arguments) && arguments != []
    ensures parts != [] && parts[0] >= from && ArgumentOf(call, accepted, parts[0]) == Some(arguments[0])
  {
  }

  /** No argument before the first one that is looked at yields a candidate. */
  lemma CandidatesLower(
    call: Node, callee: Text, accepted: Option<Text>, legacy: Text, from: nat, parts: seq<nat>,
    arguments: seq<(Slot, Value)>, chosen: seq<nat>, cs: seq<Candidate>)
    requires call.Call? && arguments != [] && ListsArguments(call, accepted, from, parts, arguments)
    ensures ListsCandidates(call, callee, accepted, legacy, parts[0], chosen, cs) ==>
      ListsCandidates(call, callee, accepted, legacy, from, chosen, cs)
  {
    hide ArgumentOf, IsNamespaceReference;
    forall p: nat | from <= p < parts[0] ensures ArgumentOf(call, accepted, p).None? {
      assert ArgumentOf(call, accepted, p).Some? ==> p in parts;
    }
  }

  lemma CandidateTaken(
    call: Node, callee: Text, accepted: Option<Text>, legacy: Text, from: nat, chosen: seq<nat>, cs: seq<Candidate>,
    c: Candidate)
    requires call.Call? && ListsCandidates(call, callee, accepted, legacy, from + 1, chosen, cs)
    requires CandidateFrom(call.scope, callee, ArgumentOf(call, accepted, from), legacy) == Some(c)
    ensures ListsCandidates(call, callee, accepted, legacy, from, [from] + chosen, [c] + cs)
  {
    hide ArgumentOf, CandidateFrom;
    forall p: nat | p >= from && CandidateFrom(call.scope, callee, ArgumentOf(call, accepted, p), legacy).Some?
      ensures p in [from] + chosen
    {
      assert p > from ==> p in chosen;
    }
  }

  lemma CandidateSkipped(
    call: Node, callee: Text, accepted: Option<Text>, legacy: Text, from: nat, chosen: seq<nat>, cs: seq<Candidate>)
    requires call.Call? && ListsCandidates(call, callee, accepted, legacy, from + 1, chosen, cs)
    requires CandidateFrom(call.scope, callee, ArgumentOf(call, accepted, from), legacy).None?
    ensures ListsCandidates(call, callee, accepted, legacy, from, chosen, cs)
  {
    hide ArgumentOf, CandidateFrom;
  }

  lemma SameCount(
    call: Node, accepted: Option<Text>, from: nat, parts: seq<nat>, arguments: seq<(Slot, Value)>)
    requires call.Call? && ListsArguments(call, accepted, from, parts, arguments)
    ensures |parts| == |arguments|
  {
  }

  lemma ArgumentsTail(
    call: Node, accepted: Option<Text>, from: nat, parts: seq<nat>, arguments: seq<(Slot, Value)>)
    requires call.Call? && ListsArguments(call, accepted, from, parts, arguments) && arguments != []
    ensures ListsArguments(call, accepted, parts[0] + 1, parts[1..], arguments[1..])
  {
    hide ArgumentOf;
    forall p: nat | p >= parts[0] + 1 && ArgumentOf(call, accepted, p).Some? ensures p in parts[1..] {
      assert p in parts;
    }
  }

  /** The candidates of a call are those of its arguments, in order. */
  lemma CallListed(call: Node, legacy: Text) returns (parts: seq<nat>)
    requires call.Call?
    ensures |parts| == |DynamicCandidates(call, legacy)| && Increasing(parts)
    ensures forall k | 0 <= k < |parts| ::
      CandidateOf(call, legacy, parts[k]) == Some(DynamicCandidates(call, legacy)[k])
    ensures forall p: nat | CandidateOf(call, legacy, p).Some? :: p in parts
  {
    hide ArgumentOf, CandidateFrom, References, NamedArguments;
    parts := [];
    if CalleeName(call.func).Some? && Construct(CalleeName(call.func).value).Some? {
      var callee := CalleeName(call.func).value;
      var keyword := Construct(callee).value;
      var looked := ArgumentsListed(call, keyword);
      parts := ReferencesListed(call, callee, keyword, legacy, 0, looked,
        (if call.args != [] && !call.args[0].Starred? then [(Positional(0), call.args[0])] else [])
        + NamedArguments(call.keywords, keyword));
    }
  }

  predicate Earlier(a: Spot, b: Spot) {
    a.node < b.node || (a.node == b.node && a.part < b.part)
  }

  ghost predicate Ordered(spots: seq<Spot>) {
    forall i, j | 0 <= i < j < |spots| :: Earlier(spots[i], spots[j])
  }

  function CandidateAt(nodes: seq<Node>, legacy: Text, spot: Spot): Option<Candidate> {
    if spot.node < |nodes| && nodes[spot.node].Call? then CandidateOf(nodes[spot.node], legacy, spot.part) else None
  }

  lemma CandidateAtIff(nodes: seq<Node>, legacy: Text, spot: Spot, c: Candidate)
    ensures CandidateAt(nodes, legacy, spot) == Some(c) <==> IsCandidate(nodes, legacy, spot, c)
  {
    hide CandidateOf, ArgumentNames;
    if spot.node < |nodes| && nodes[spot.node].Call? {
      CandidateOfIff(nodes[spot.node], legacy, spot.part, c);
    }
  }

  /** `spots` are the candidates among the nodes from number `from` on. */
  ghost predicate ListsSpots(nodes: seq<Node>, legacy: Text, from: nat, spots: seq<Spot>, cs: seq<Candidate>) {
    && |spots| == |cs| && Ordered(spots)
    && (forall k | 0 <= k < |spots| ::
          spots[k].node >= from && CandidateAt(nodes, legacy, spots[k]) == Some(cs[k]))
    && (forall spot: Spot | spot.node >= from && CandidateAt(nodes, legacy, spot).Some? :: spot in spots)
  }

  function SpotsOf(node: nat, parts: seq<nat>): seq<Spot> {
    seq(|parts|, k requires 0 <= k < |parts| => Spot(node, parts[k]))
  }

  lemma {:induction false} NodesListed(nodes: seq<Node>, legacy: Text, n: nat) returns (spots: seq<Spot>)
    requires n <= |nodes|
    ensures ListsSpots(nodes, legacy, n, spots, AllCandidates(nodes[n..], legacy))
    decreases |nodes| - n
  {
    if n == |nodes| {
      spots := [];
    } else {
      hide ListsSpots, DynamicCandidates, CandidateOf;
      assert nodes[n..][1..] == nodes[n + 1..] && nodes[n..][0] == nodes[n];
      spots := NodesListed(nodes, legacy, n + 1);
      var later := AllCandidates(nodes[n + 1..], legacy);
      var parts := [];
      if nodes[n].Call? {
        parts := CallListed(nodes[n], legacy);
      }
      var found := if nodes[n].Call? then DynamicCandidates(nodes[n], legacy) else [];
      NodeStep(nodes, legacy, n, parts, found, spots, later);
      spots := SpotsOf(n, parts) + spots;
    }
  }

  lemma NodeStep(
    nodes: seq<Node>, legacy: Text, n: nat, parts: seq<nat>, found: seq<Candidate>, spots: seq<Spot>,
    later: seq<Candidate>)
    requires n < |nodes| && ListsSpots(nodes, legacy, n + 1, spots, later)
    requires |parts| == |found| && Increasing(parts)
    requires forall k | 0 <= k < |parts| :: CandidateAt(nodes, legacy, Spot(n, parts[k])) == Some(found[k])
    requires forall p: nat | CandidateAt(nodes, legacy, Spot(n, p)).Some? :: p in parts
    ensures ListsSpots(nodes, legacy, n, SpotsOf(n, parts) + spots, found + later)
  {
    hide CandidateAt;
    var all := SpotsOf(n, parts) + spots;
    forall spot: Spot | spot.node >= n && CandidateAt(nodes, legacy, spot).Some? ensures spot in all {
      if spot.node == n {
        assert spot == Spot(n, spot.part);
        var k :| 0 <= k < |parts| && parts[k] == spot.part;
        assert all[k] == spot;
      } else {
        assert spot in spots;
      }
    }
  }

  // ----- Occurrences -----

  /** In the text `a` begins before `b`; at one place the node that is visited first, and its
      earlier argument, counts as before. */
  predicate Comes(a: Candidate, at: Spot, b: Candidate, bt: Spot)
    requires a.value.StringConstant? && b.value.StringConstant?
  {
    var p, q := a.value.at, b.value.at;
    || p.line < q.line || (p.line == q.line && p.column < q.column)
    || (p.line == q.line && p.column == q.column && Earlier(at, bt))
  }

  ghost predicate Precedes(nodes: seq<Node>, legacy: Text, rival: Spot, spot: Spot, c: Candidate)
    requires c.value.StringConstant?
  {
    exists a :: IsCandidate(nodes, legacy, rival, a) && a.key == c.key && Comes(a, rival, c, spot)
  }

  /** The candidates of the same key that come before. */
  ghost function Rivals(nodes: seq<Node>, legacy: Text, spot: Spot, c: Candidate): set<Spot>
    requires c.value.StringConstant?
  {
    set n: nat, p: nat |
      n < |nodes| && nodes[n].Call? && p <= |nodes[n].keywords| && Precedes(nodes, legacy, Spot(n, p), spot, c) ::
      Spot(n, p)
  }

  lemma RivalsAre(nodes: seq<Node>, legacy: Text, spot: Spot, c: Candidate, rival: Spot)
    requires c.value.StringConstant?
    ensures rival in Rivals(nodes, legacy, spot, c) <==> Precedes(nodes, legacy, rival, spot, c)
  {
    assert rival == Spot(rival.node, rival.part);
  }

  /** The candidates in the order they are counted, each with its spot. */
  ghost predicate Placed(nodes: seq<Node>, legacy: Text, placed: seq<Spot>, sorted: seq<Candidate>) {
    && |placed| == |sorted| && (forall k | 0 <= k < |sorted| :: sorted[k].value.StringConstant?)
    && (forall k | 0 <= k < |placed| :: CandidateAt(nodes, legacy, placed[k]) == Some(sorted[k]))
    && (forall spot | CandidateAt(nodes, legacy, spot).Some? :: spot in placed)
    && (forall k, l | 0 <= k < l < |placed| :: Comes(sorted[k], placed[k], sorted[l], placed[l]))
  }

  lemma CandidatesAreLiterals(nodes: seq<Node>, legacy: Text, spot: Spot)
    ensures CandidateAt(nodes, legacy, spot).Some? ==> CandidateAt(nodes, legacy, spot).value.value.StringConstant?
  {
    if CandidateAt(nodes, legacy, spot).Some? {
      CandidateAtIff(nodes, legacy, spot, CandidateAt(nodes, legacy, spot).value);
    }
  }

  lemma CandidatesPlaced(nodes: seq<Node>, legacy: Text) returns (placed: seq<Spot>)
    ensures Placed(nodes, legacy, placed, Sort(AllCandidates(nodes, legacy), NotAfter))
  {
    hide CandidateAt, AllCandidates;
    var cs := AllCandidates(nodes, legacy);
    var spots := NodesListed(nodes, legacy, 0);
    assert nodes[0..] == nodes;
    var from := SortIsStable(cs, NotAfter);
    placed := PlacedBy(nodes, legacy, spots, cs, Sort(cs, NotAfter), from);
  }

  lemma PlacedBy(
    nodes: seq<Node>, legacy: Text, spots: seq<Spot>, cs: seq<Candidate>, sorted: seq<Candidate>, from: seq<nat>)
    returns (placed: seq<Spot>)
    requires ListsSpots(nodes, legacy, 0, spots, cs) && Stable(cs, sorted, from, NotAfter)
    ensures Placed(nodes, legacy, placed, sorted)
  {
    hide CandidateAt;
    placed := seq(|from|, k requires 0 <= k < |from| => spots[from[k]]);
    forall k | 0 <= k < |sorted| ensures sorted[k].value.StringConstant? {
      CandidatesAreLiterals(nodes, legacy, placed[k]);
    }
    forall spot | CandidateAt(nodes, legacy, spot).Some? ensures spot in placed {
      assert spot in spots;
      var m :| 0 <= m < |spots| && spots[m] == spot;
      assert m in from;
      var k :| 0 <= k < |from| && from[k] == m;
      assert placed[k] == spot;
    }
    forall k, l | 0 <= k < l < |placed| ensures Comes(sorted[k], placed[k], sorted[l], placed[l]) {
      assert NotAfter(sorted[k], sorted[l]);
    }
  }

  /** The spots of the first `k` placed candidates that share a key. */
  ghost function Sharing(sorted: seq<Candidate>, placed: seq<Spot>, k: nat, key: Key): set<Spot>
    requires k <= |sorted| == |placed|
  {
    set i: nat | i < k && sorted[i].key == key :: placed[i]
  }

  lemma {:induction false} SharingCounts(sorted: seq<Candidate>, placed: seq<Spot>, k: nat, key: Key)
    requires k <= |sorted| == |placed| && forall i, j | 0 <= i < j < |placed| :: placed[i] != placed[j]
    ensures |Sharing(sorted, placed, k, key)| == CountKey(sorted[..k], key)
  {
    if k > 0 {
      SharingCounts(sorted, placed, k - 1, key);
      assert sorted[..k][..k - 1] == sorted[..k - 1];
      SharingStep(sorted, placed, k, key);
    }
  }

  lemma SharingStep(sorted: seq<Candidate>, placed: seq<Spot>, k: nat, key: Key)
    requires 0 < k <= |sorted| == |placed| && forall i, j | 0 <= i < j < |placed| :: placed[i] != placed[j]
    ensures |Sharing(sorted, placed, k, key)| ==
      |Sharing(sorted, placed, k - 1, key)| + if sorted[k - 1].key == key then 1 else 0
  {
    var before, after := Sharing(sorted, placed, k - 1, key), Sharing(sorted, placed, k, key);
    if sorted[k - 1].key == key {
      assert placed[k - 1] !in before;
      assert after == before + {placed[k - 1]};
    } else {
      assert after == before;
    }
  }

  /** The number of a candidate's entry is the number of its rivals. */
  lemma OccurrenceIs(nodes: seq<Node>, legacy: Text, placed: seq<Spot>, sorted: seq<Candidate>, k: nat)
    requires Placed(nodes, legacy, placed, sorted) && k < |sorted|
    ensures EntryAt(sorted, k) == Entry(sorted[k].key, |Rivals(nodes, legacy, placed[k], sorted[k])|)
  {
    hide CandidateAt, CountKey, Rivals;
    var key := sorted[k].key;
    forall i, j | 0 <= i < j < |placed| ensures placed[i] != placed[j] {
      assert Comes(sorted[i], placed[i], sorted[j], placed[j]);
    }
    SharingCounts(sorted, placed, k, key);
    forall rival
      ensures rival in Sharing(sorted, placed, k, key) <==> rival in Rivals(nodes, legacy, placed[k], sorted[k])
    {
      RivalsAre(nodes, legacy, placed[k], sorted[k], rival);
      RivalIsSharing(nodes, legacy, placed, sorted, k, rival);
    }
    assert Sharing(sorted, placed, k, key) == Rivals(nodes, legacy, placed[k], sorted[k]);
  }

  lemma RivalIsSharing(
    nodes: seq<Node>, legacy: Text, placed: seq<Spot>, sorted: seq<Candidate>, k: nat, rival: Spot)
    requires Placed(nodes, legacy, placed, sorted) && k < |sorted|
    ensures rival in Sharing(sorted, placed, k, sorted[k].key) <==>
      Precedes(nodes, legacy, rival, placed[k], sorted[k])
  {
    hide CandidateAt, IsCandidate;
    forall a ensures CandidateAt(nodes, legacy, rival) == Some(a) <==> IsCandidate(nodes, legacy, rival, a) {
      CandidateAtIff(nodes, legacy, rival, a);
    }
    if CandidateAt(nodes, legacy, rival).Some? {
      var l :| 0 <= l < |placed| && placed[l] == rival;
      assert CandidateAt(nodes, legacy, rival) == Some(sorted[l]);
      if l < k {
        assert Comes(sorted[l], placed[l], sorted[k], placed[k]);
      } else if l > k {
        assert Comes(sorted[k], placed[k], sorted[l], placed[l]);
      }
      OnlyPlace(nodes, legacy, placed, sorted, l);
    }
  }

  lemma OnlyPlace(nodes: seq<Node>, legacy: Text, placed: seq<Spot>, sorted: seq<Candidate>, l: nat)
    requires Placed(nodes, legacy, placed, sorted) && l < |placed|
    ensures forall i | 0 <= i < |placed| && placed[i] == placed[l] :: i == l
  {
    hide CandidateAt;
    forall i | 0 <= i < |placed| && placed[i] == placed[l] ensures i == l {
      assert i < l ==> Comes(sorted[i], placed[i], sorted[l], placed[l]);
      assert l < i ==> Comes(sorted[l], placed[l], sorted[i], placed[i]);
    }
  }

  // ----- Every place that should be renamed, once -----

  /** What a rewrite is given. */
  datatype Job = Job(
    rename: Rename, audited: seq<AuditedSite>, source: Text, path: Option<Text>, nodes: seq<Node>, fingerprint: Text)
  {
    ghost function Index(): Index { IndexOf(source) }

    function Sorted(): seq<Candidate> { Sort(AllCandidates(nodes, rename.legacy), NotAfter) }

    function Entries(): set<Entry> { Authorized(audited, path, fingerprint) }
  }

  /** The audit lists the entry for this path and exactly this text. */
  ghost predicate Audits(job: Job, entry: Entry) {
    && job.path.Some? && job.path.value != ""
    && exists a | a in job.audited ::
         a.path == job.path.value && a.baseSha256 == job.fingerprint && a.entry == entry
  }

  /** The spot is to be renamed, by this site. */
  ghost predicate Renamed(job: Job, spot: Spot, site: Site) {
    && spot.node < |job.nodes|
    && match job.nodes[spot.node]
       case Import(names) => spot.part < |names| && AliasRenamed(job.source, names[spot.part], job.rename, site)
       case ImportFrom(_, _, _) =>
         spot.part == 0 && ModuleRenamed(job.source, job.nodes[spot.node], job.rename, site)
       case Call(_, _, _, _) => LiteralIsRenamed(job, spot, site)
       case OtherNode => false
  }

  ghost predicate LiteralIsRenamed(job: Job, spot: Spot, site: Site) {
    exists c :: IsCandidate(job.nodes, job.rename.legacy, spot, c)
      && Audits(job, Entry(c.key, |Rivals(job.nodes, job.rename.legacy, spot, c)|))
      && LiteralRenamed(job.source, c.value, job.rename, site)
  }

  /** The site the closure finds at a spot. */
  ghost function SiteAt(job: Job, spot: Spot): Option<Site> {
    if spot.node >= |job.nodes| then None
    else
      match job.nodes[spot.node]
      case Import(names) =>
        if spot.part < |names| then AliasSite(job.Index(), names[spot.part], job.rename) else None
      case ImportFrom(_, _, _) =>
        if spot.part == 0 then ModuleSite(job.Index(), job.nodes[spot.node], job.rename) else None
      case Call(_, _, _, _) => LiteralSiteOf(job, spot)
      case OtherNode => None
  }

  ghost function LiteralSiteOf(job: Job, spot: Spot): Option<Site> {
    var c := CandidateAt(job.nodes, job.rename.legacy, spot);
    if c.None? then None
    else
      CandidatesAreLiterals(job.nodes, job.rename.legacy, spot);
      var rivals := Rivals(job.nodes, job.rename.legacy, spot, c.value);
      if Entry(c.value.key, |rivals|) in job.Entries() then LiteralSite(job.Index(), c.value.value, job.rename)
      else None
  }

  lemma AuditsIff(job: Job, entry: Entry)
    ensures Audits(job, entry) <==> entry in job.Entries()
  {
  }

  lemma LiteralSiteOfIff(job: Job, spot: Spot, site: Site)
    ensures LiteralSiteOf(job, spot) == Some(site) <==> LiteralIsRenamed(job, spot, site)
  {
    hide CandidateAt, Rivals, Audits, Authorized, LiteralSite, LiteralRenamed, IndexOf, Spells, NamesModule;
    var nodes, legacy := job.nodes, job.rename.legacy;
    if LiteralSiteOf(job, spot) == Some(site) {
      var c := CandidateAt(nodes, legacy, spot).value;
      CandidateAtIff(nodes, legacy, spot, c);
      CandidatesAreLiterals(nodes, legacy, spot);
      AuditsIff(job, Entry(c.key, |Rivals(nodes, legacy, spot, c)|));
      LiteralSiteIff(job.source, c.value, job.rename, site);
    }
    if LiteralIsRenamed(job, spot, site) {
      var c :| IsCandidate(nodes, legacy, spot, c)
        && Audits(job, Entry(c.key, |Rivals(nodes, legacy, spot, c)|))
        && LiteralRenamed(job.source, c.value, job.rename, site);
      CandidateAtIff(nodes, legacy, spot, c);
      AuditsIff(job, Entry(c.key, |Rivals(nodes, legacy, spot, c)|));
      LiteralSiteIff(job.source, c.value, job.rename, site);
    }
  }

  lemma SiteAtIff(job: Job, spot: Spot, site: Site)
    ensures SiteAt(job, spot) == Some(site) <==> Renamed(job, spot, site)
  {
    hide LiteralSiteOf, LiteralIsRenamed, AliasRenamed, ModuleRenamed, AliasSite, ModuleSite, IndexOf;
    if spot.node < |job.nodes| {
      match job.nodes[spot.node]
      case Import(names) =>
        if spot.part < |names| {
          AliasSiteIff(job.source, names[spot.part], job.rename, site);
        }
      case ImportFrom(_, _, _) => ModuleSiteIff(job.source, job.nodes[spot.node], job.rename, site);
      case Call(_, _, _, _) => LiteralSiteOfIff(job, spot, site);
      case OtherNode =>
    }
  }

  /** Among the spots before `until` that are no arguments of calls, `spots` are those with a
      site, in order. */
  ghost predicate ListsImports(job: Job, until: Spot, spots: seq<Spot>, sites: seq<Site>) {
    && |spots| == |sites| && Ordered(spots)
    && (forall k | 0 <= k < |spots| ::
          IsImport(job, until, spots[k]) && SiteAt(job, spots[k]) == Some(sites[k]))
    && (forall spot | IsImport(job, until, spot) && SiteAt(job, spot).Some? :: spot in spots)
  }

  predicate IsImport(job: Job, until: Spot, spot: Spot) {
    Earlier(spot, until) && spot.node < |job.nodes| && !job.nodes[spot.node].Call?
  }

  lemma ImportStep(job: Job, until: Spot, next: Spot, spots: seq<Spot>, sites: seq<Site>)
    requires ListsImports(job, until, spots, sites)
    requires until.node < |job.nodes| && !job.nodes[until.node].Call?
    requires Earlier(until, next)
    requires forall spot | Earlier(spot, next) && !Earlier(spot, until) && spot != until :: SiteAt(job, spot).None?
    ensures match SiteAt(job, until)
            case None => ListsImports(job, next, spots, sites)
            case Some(site) => ListsImports(job, next, spots + [until], sites + [site])
  {
    hide SiteAt;
    if SiteAt(job, until).Some? {
      var longer := spots + [until];
      forall spot | IsImport(job, next, spot) && SiteAt(job, spot).Some? ensures spot in longer {
        assert spot != until ==> spot in spots;
      }
    }
  }

  /** A node without further sites is passed. */
  lemma ImportPassed(job: Job, until: Spot, next: Spot, spots: seq<Spot>, sites: seq<Site>)
    requires ListsImports(job, until, spots, sites) && Earlier(until, next)
    requires forall spot | IsImport(job, next, spot) && !Earlier(spot, until) :: SiteAt(job, spot).None?
    ensures ListsImports(job, next, spots, sites)
  {
    hide SiteAt;
  }

  lemma {:induction false} AliasesListed(job: Job, n: nat, j: nat, spots: seq<Spot>, sites: seq<Site>)
    returns (longer: seq<Spot>)
    requires n < |job.nodes| && job.nodes[n].Import? && j <= |job.nodes[n].names|
    requires ListsImports(job, Spot(n, 0), spots, sites)
    ensures ListsImports(
      job, Spot(n, j), longer, sites + AliasSites(job.Index(), job.nodes[n].names[..j], job.rename))
    decreases j
  {
    hide ListsImports, AliasSite, IndexOf;
    var names := job.nodes[n].names;
    if j == 0 {
      longer := spots;
      assert sites + AliasSites(job.Index(), names[..0], job.rename) == sites;
    } else {
      longer := AliasesListed(job, n, j - 1, spots, sites);
      assert names[..j][..j - 1] == names[..j - 1];
      var found := sites + AliasSites(job.Index(), names[..j - 1], job.rename);
      ImportStep(job, Spot(n, j - 1), Spot(n, j), longer, found);
      assert SiteAt(job, Spot(n, j - 1)) == AliasSite(job.Index(), names[j - 1], job.rename);
      if SiteAt(job, Spot(n, j - 1)).Some? {
        longer := longer + [Spot(n, j - 1)];
        AppendSite(sites, AliasSites(job.Index(), names[..j - 1], job.rename), SiteAt(job, Spot(n, j - 1)).value);
      } else {
        AppendNone(sites, AliasSites(job.Index(), names[..j - 1], job.rename));
      }
    }
  }

  lemma AppendSite(a: seq<Site>, b: seq<Site>, site: Site)
    ensures a + b + [site] == a + (b + [site])
  {
  }

  lemma AppendNone(a: seq<Site>, b: seq<Site>)
    ensures a + b == a + (b + [])
  {
    assert b + [] == b;
  }

  /** The import sites are those of the spots that are no arguments of calls. */
  lemma {:induction false} ImportsListed(job: Job, n: nat) returns (spots: seq<Spot>)
    requires n <= |job.nodes|
    ensures ListsImports(job, Spot(n, 0), spots, ImportSites(job.Index(), job.nodes[..n], job.rename))
    decreases n
  {
    hide ListsImports, AliasSite, ModuleSite, AliasSites, IndexOf, LiteralSiteOf;
    if n == 0 {
      spots := [];
      NoImports(job);
    } else {
      var nodes, node := job.nodes, job.nodes[n - 1];
      spots := ImportsListed(job, n - 1);
      assert nodes[..n][..n - 1] == nodes[..n - 1] && nodes[..n][n - 1] == node;
      var sites := ImportSites(job.Index(), nodes[..n - 1], job.rename);
      match node {
        case Import(names) =>
          spots := AliasesListed(job, n - 1, |names|, spots, sites);
          assert names[..|names|] == names;
          sites := sites + AliasSites(job.Index(), names, job.rename);
          ImportPassed(job, Spot(n - 1, |names|), Spot(n, 0), spots, sites);
        case ImportFrom(_, _, _) =>
          ImportStep(job, Spot(n - 1, 0), Spot(n, 0), spots, sites);
          assert SiteAt(job, Spot(n - 1, 0)) == ModuleSite(job.Index(), node, job.rename);
          if SiteAt(job, Spot(n - 1, 0)).Some? {
            spots := spots + [Spot(n - 1, 0)];
          } else {
            assert sites + [] == sites;
          }
        case _ =>
          ImportPassed(job, Spot(n - 1, 0), Spot(n, 0), spots, sites);
          assert sites + [] == sites;
      }
    }
  }

  lemma NoImports(job: Job)
    ensures ListsImports(job, Spot(0, 0), [], [])
  {
    hide SiteAt;
  }

  /** Of the first `n` placed candidates, `spots` are those with a site. */
  ghost predicate ListsLiterals(job: Job, placed: seq<Spot>, n: nat, spots: seq<Spot>, sites: seq<Site>)
    requires n <= |placed|
  {
    && |spots| == |sites|
    && (forall k, l | 0 <= k < l < |spots| :: spots[k] != spots[l])
    && (forall k | 0 <= k < |spots| :: spots[k] in placed[..n] && SiteAt(job, spots[k]) == Some(sites[k]))
    && (forall spot | spot in placed[..n] && SiteAt(job, spot).Some? :: spot in spots)
  }

  lemma LiteralAt(job: Job, placed: seq<Spot>, k: nat)
    requires Placed(job.nodes, job.rename.legacy, placed, job.Sorted()) && k < |placed|
    ensures SiteAt(job, placed[k]) ==
      if EntryAt(job.Sorted(), k) in job.Entries()
      then LiteralSite(job.Index(), job.Sorted()[k].value, job.rename) else None
  {
    OccurrenceIs(job.nodes, job.rename.legacy, placed, job.Sorted(), k);
    hide Rivals, EntryAt, LiteralSite, Authorized, IndexOf, AllCandidates, Sort, CandidateOf;
    assert CandidateAt(job.nodes, job.rename.legacy, placed[k]) == Some(job.Sorted()[k]);
  }

  lemma {:induction false} LiteralsListed(job: Job, placed: seq<Spot>, n: nat) returns (spots: seq<Spot>)
    requires Placed(job.nodes, job.rename.legacy, placed, job.Sorted()) && n <= |placed|
    ensures ListsLiterals(
      job, placed, n, spots, DynamicSites(job.Index(), job.Sorted(), n, job.Entries(), job.rename))
  {
    hide SiteAt, ListsLiterals, EntryAt, LiteralSite, Authorized, IndexOf, AllCandidates, Sort, CandidateAt;
    if n == 0 {
      spots := [];
      NoLiterals(job, placed);
    } else {
      spots := LiteralsListed(job, placed, n - 1);
      LiteralAt(job, placed, n - 1);
      OnlyPlace(job.nodes, job.rename.legacy, placed, job.Sorted(), n - 1);
      var sites := DynamicSites(job.Index(), job.Sorted(), n - 1, job.Entries(), job.rename);
      LiteralStep(job, placed, n, spots, sites);
      if SiteAt(job, placed[n - 1]).Some? {
        spots := spots + [placed[n - 1]];
      } else {
        assert sites + [] == sites;
      }
    }
  }

  lemma NoLiterals(job: Job, placed: seq<Spot>)
    ensures ListsLiterals(job, placed, 0, [], [])
  {
  }

  lemma LiteralStep(job: Job, placed: seq<Spot>, n: nat, spots: seq<Spot>, sites: seq<Site>)
    requires 0 < n <= |placed| && ListsLiterals(job, placed, n - 1, spots, sites)
    requires forall i | 0 <= i < |placed| && placed[i] == placed[n - 1] :: i == n - 1
    ensures match SiteAt(job, placed[n - 1])
            case None => ListsLiterals(job, placed, n, spots, sites)
            case Some(site) => ListsLiterals(job, placed, n, spots + [placed[n - 1]], sites + [site])
  {
    hide SiteAt;
    assert placed[..n] == placed[..n - 1] + [placed[n - 1]];
    assert placed[n - 1] !in placed[..n - 1];
  }

  lemma SpotsListed(job: Job) returns (spots: seq<Spot>, sites: seq<Site>)
    ensures sites == AllSites(job.Index(), job.nodes, job.Entries(), job.rename) && |spots| == |sites|
    ensures forall k, l | 0 <= k < l < |spots| :: spots[k] != spots[l]
    ensures forall k | 0 <= k < |spots| :: SiteAt(job, spots[k]) == Some(sites[k])
    ensures forall spot | SiteAt(job, spot).Some? :: spot in spots
  {
    var n := |job.nodes|;
    var placed := CandidatesPlaced(job.nodes, job.rename.legacy);
    var imports := ImportsListed(job, n);
    assert job.nodes[..n] == job.nodes;
    var literals := LiteralsListed(job, placed, |placed|);
    var found := ImportSites(job.Index(), job.nodes, job.rename);
    var dynamic := DynamicSites(job.Index(), job.Sorted(), |placed|, job.Entries(), job.rename);
    spots, sites := imports + literals, found + dynamic;
    assert placed[..|placed|] == placed;
    SpotsJoin(job, placed, imports, found, literals, dynamic);
  }

  lemma SpotsJoin(
    job: Job, placed: seq<Spot>, imports: seq<Spot>, found: seq<Site>, literals: seq<Spot>, dynamic: seq<Site>)
    requires ListsImports(job, Spot(|job.nodes|, 0), imports, found)
    requires ListsLiterals(job, placed, |placed|, literals, dynamic)
    requires Placed(job.nodes, job.rename.legacy, placed, job.Sorted())
    ensures var spots, sites := imports + literals, found + dynamic;
      && |spots| == |sites|
      && (forall k, l | 0 <= k < l < |spots| :: spots[k] != spots[l])
      && (forall k | 0 <= k < |spots| :: SiteAt(job, spots[k]) == Some(sites[k]))
      && (forall spot | SiteAt(job, spot).Some? :: spot in spots)
  {
    hide LiteralSiteOf, AliasSite, ModuleSite, IndexOf, CandidateOf, AllCandidates, Sort;
    var spots := imports + literals;
    assert placed[..|placed|] == placed;
    forall spot | spot in placed ensures spot.node < |job.nodes| && job.nodes[spot.node].Call? {
      var k :| 0 <= k < |placed| && placed[k] == spot;
      assert CandidateAt(job.nodes, job.rename.legacy, placed[k]).Some?;
    }
    forall k, l | 0 <= k < l < |spots| ensures spots[k] != spots[l] {
      assert l >= |imports| ==> spots[l] in placed;
      assert k < |imports| ==> IsImport(job, Spot(|job.nodes|, 0), imports[k]);
    }
    forall spot | SiteAt(job, spot).Some? ensures spot in spots {
      SiteNeedsSpot(job, placed, spot);
    }
  }

  lemma SiteNeedsSpot(job: Job, placed: seq<Spot>, spot: Spot)
    requires Placed(job.nodes, job.rename.legacy, placed, job.Sorted()) && SiteAt(job, spot).Some?
    ensures IsImport(job, Spot(|job.nodes|, 0), spot) || spot in placed
  {
    hide AliasSite, ModuleSite, IndexOf, CandidateOf, LiteralSite;
  }

  /** Exactly the spots that are to be renamed have a site, one each. */
  ghost predicate OneSiteEach(job: Job, spots: seq<Spot>, sites: seq<Site>) {
    && |spots| == |sites| && (forall k, l | 0 <= k < l < |spots| :: spots[k] != spots[l])
    && (forall k | 0 <= k < |spots| :: Renamed(job, spots[k], sites[k]))
    && (forall spot, site | Renamed(job, spot, site) :: IsAt(spots, sites, spot, site))
  }

  ghost predicate IsAt(spots: seq<Spot>, sites: seq<Site>, spot: Spot, site: Site)
    requires |spots| == |sites|
  {
    exists k | 0 <= k < |spots| :: spots[k] == spot && sites[k] == site
  }

  lemma SpotsRenamed(job: Job) returns (spots: seq<Spot>, sites: seq<Site>)
    ensures sites == AllSites(job.Index(), job.nodes, job.Entries(), job.rename) && OneSiteEach(job, spots, sites)
  {
    spots, sites := SpotsListed(job);
    hide SiteAt, Renamed, AllSites, IndexOf, Authorized;
    forall k | 0 <= k < |spots| ensures Renamed(job, spots[k], sites[k]) {
      SiteAtIff(job, spots[k], sites[k]);
    }
    forall spot, site | Renamed(job, spot, site) ensures IsAt(spots, sites, spot, site) {
      SiteAtIff(job, spot, site);
      var k :| 0 <= k < |spots| && spots[k] == spot;
      assert sites[k] == site;
    }
  }

  /** What becomes of the sites. */
  ghost predicate Outcome(job: Job, sites: seq<Site>, result: Result<RewriteResult, SpliceError>) {
    && InSource(job.source, sites)
    && (result.Ok? ==> result.value.sites == sites)
    && (job.rename.legacy != [] ==>
          && NonEmptySpans(sites) && (result.Ok? <==> NoOverlap(sites))
          && (result.Ok? ==> result.value.source == Rewritten(job.source, set site | site in sites, 0)))
  }

  lemma SitesAreApplied(job: Job)
    ensures Outcome(
      job, AllSites(job.Index(), job.nodes, job.Entries(), job.rename),
      RewriteOf(job.rename, job.audited, job.source, job.path, job.nodes, job.fingerprint))
  {
    hide AllSites, IndexOf, ApplySites, Authorized, Rewritten, NamesLegacy, NoOverlap;
    var sites := AllSites(job.Index(), job.nodes, job.Entries(), job.rename);
    AllSitesNameLegacy(job.Index(), job.nodes, job.Entries(), job.rename);
    SitesInSource(job.source, sites, job.rename);
    if job.rename.legacy != [] {
      ApplyRaisesIffOverlap(job.source, sites);
      if NoOverlap(sites) {
        ApplyMeaning(job.source, sites);
      }
    }
  }

  /** A rewrite renames every spot that is to be renamed, once each, and nothing else. It
      succeeds exactly when no two of these sites overlap, and the result is then the source
      with each of them replaced. */
  lemma RewriteIsExact(job: Job) returns (spots: seq<Spot>, sites: seq<Site>)
    ensures OneSiteEach(job, spots, sites)
    ensures Outcome(
      job, sites, RewriteOf(job.rename, job.audited, job.source, job.path, job.nodes, job.fingerprint))
  {
    hide *;
    spots, sites := SpotsRenamed(job);
    SitesAreApplied(job);
  }

  /** What that means for a changed file under the registered rename: it is mechanical exactly
      when there is something to rename, no two sites overlap, and the candidate is the base
      with every one of them replaced, and parses. */
  lemma RenameExempts(
    job: Job, candidate: Text, parses: Text -> bool, identifier: string, parse: Text -> Option<seq<Node>>,
    sha256: Text -> Text)
    returns (spots: seq<Spot>, sites: seq<Site>)
    requires parse(job.source) == Some(job.nodes) && sha256(job.source) == job.fingerprint
    requires job.rename.legacy != [] && candidate != job.source
    ensures OneSiteEach(job, spots, sites) && InSource(job.source, sites) && NonEmptySpans(sites)
    ensures var t := C.NamespaceTransformation(identifier, job.rename, job.audited, parse, sha256);
      C.SourceVerdict(Some(job.source), candidate, [t], job.path, parses).classification == C.MechanicalOnly <==>
        && sites != [] && NoOverlap(sites) && parses(candidate)
        && candidate == Rewritten(job.source, set site | site in sites, 0)
    // Otherwise the reason says whether the sites overlap or there are none.
    ensures var t := C.NamespaceTransformation(identifier, job.rename, job.audited, parse, sha256);
      var v := C.SourceVerdict(Some(job.source), candidate, [t], job.path, parses);
      && (v.reason == C.RewriteNotApplicable <==> !NoOverlap(sites))
      && (v.reason == C.NoSiteInBase <==> NoOverlap(sites) && sites == [])
      && (v.appliedSites > 0 ==> v.appliedSites == |sites|)
  {
    hide OneSiteEach, NoOverlap, Rewritten, RewriteOf, C.Fold, InSource, NonEmptySpans;
    spots, sites := RewriteIsExact(job);
    var t := C.NamespaceTransformation(identifier, job.rename, job.audited, parse, sha256);
    FoldOfOne(job.source, t, job.path);
    C.ExemptSourceIff(job.source, candidate, [t], job.path, parses);
    C.ReasonTells(job.source, candidate, [t], job.path, parses);
  }

  /** A changed base that does not parse is never renamed, and the reason says so. */
  lemma UnparseableBase(
    source: Text, candidate: Text, rename: Rename, audited: seq<AuditedSite>, path: Option<Text>,
    parses: Text -> bool, identifier: string, parse: Text -> Option<seq<Node>>, sha256: Text -> Text)
    requires candidate != source
    ensures var t := C.NamespaceTransformation(identifier, rename, audited, parse, sha256);
      C.SourceVerdict(Some(source), candidate, [t], path, parses).reason == C.BaseNotPython <==> parse(source).None?
  {
    hide RewriteOf, C.Fold;
    var t := C.NamespaceTransformation(identifier, rename, audited, parse, sha256);
    FoldOfOne(source, t, path);
    C.ReasonTells(source, candidate, [t], path, parses);
  }

  lemma FoldOfOne(source: Text, t: C.Transformation, path: Option<Text>)
    ensures C.Fold(source, [t], path) == t.rewrite(source, path)
  {
    assert [t][..0] == [];
  }
}
