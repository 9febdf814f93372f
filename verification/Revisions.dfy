/**
 Agent revisions: the normal form of a draft's configuration, what `Validate` accepts, and
 publication. The content digest is a hash of the normalized content; the hash itself is any function.
 */
module Revisions {
  import opened Options
  import opened Text
  import Sorting
  import Ulid

  // ---------------------------------------------------------------------------------------------
  // Tools
  // ---------------------------------------------------------------------------------------------

  datatype Tool = Tool(id: string, required: bool)

  const MAX_REFERENCE := 256

  function TrimId(tool: Tool): Tool { Tool(Trim(tool.id), tool.required) }

  function TrimIds(tools: seq<Tool>): seq<Tool> { Sorting.Map(TrimId, tools) }

  predicate UsableIds(tools: seq<Tool>) {
    forall tool <- tools :: 1 <= |tool.id| <= MAX_REFERENCE
  }

  function ToolId(tool: Tool): string { tool.id }

  predicate DistinctIds(tools: seq<Tool>) { Sorting.Distinct(tools, ToolId) }

  predicate ById(a: Tool, b: Tool) { Less(a.id, b.id) }

  /** `normalizeTools`: trimmed, named, distinct and sorted, or refused. */
  function NormalizeTools(tools: seq<Tool>): Option<seq<Tool>> {
    var trimmed := TrimIds(tools);
    if UsableIds(trimmed) && DistinctIds(trimmed) then Some(Sorting.Sort(trimmed, ById)) else None
  }

  /** What every normalized tool list is. */
  ghost predicate NormalTools(tools: seq<Tool>) {
    && TrimIds(tools) == tools && UsableIds(tools)
    && Sorting.Sorted(tools, ById)
  }

  lemma ByIdIsStrict()
    ensures Sorting.StrictOrder(ById)
  {
    forall x: Tool, y: Tool ensures !(ById(x, y) && ById(y, x)) {
      LessIsTotal(x.id, y.id);
    }
    forall x: Tool, y: Tool, z: Tool | ById(x, y) && ById(y, z) ensures ById(x, z) {
      LessIsTransitive(x.id, y.id, z.id);
    }
  }

  lemma DistinctAreComparable(tools: seq<Tool>)
    requires DistinctIds(tools)
    ensures Sorting.Comparable(tools, ById)
  {
    forall i, j | 0 <= i < j < |tools| ensures ById(tools[i], tools[j]) || ById(tools[j], tools[i]) {
      LessIsTotal(tools[i].id, tools[j].id);
    }
  }

  lemma SortedAreDistinct(tools: seq<Tool>)
    requires Sorting.Sorted(tools, ById)
    ensures DistinctIds(tools)
  {
    forall i, j | 0 <= i < j < |tools| ensures tools[i].id != tools[j].id {
      LessIsTotal(tools[i].id, tools[j].id);
    }
  }

  /** Normalization yields the normal form, with the same tools under trimmed names. */
  lemma NormalizedIsNormal(tools: seq<Tool>)
    requires NormalizeTools(tools).Some?
    ensures NormalTools(NormalizeTools(tools).value)
    ensures multiset(NormalizeTools(tools).value) == multiset(TrimIds(tools))
  {
    hide Trim, TrimIds, UsableIds;
    var trimmed, sorted := TrimIds(tools), NormalizeTools(tools).value;
    ByIdIsStrict();
    DistinctAreComparable(trimmed);
    Sorting.SortSorts(trimmed, ById);
    Sorting.SortPermutes(trimmed, ById);
    RearrangedAreTrimmed(tools, sorted);
  }

  lemma RearrangedAreTrimmed(tools: seq<Tool>, rearranged: seq<Tool>)
    requires multiset(rearranged) == multiset(TrimIds(tools)) && UsableIds(TrimIds(tools))
    ensures UsableIds(rearranged) && TrimIds(rearranged) == rearranged
  {
    hide Trim, Sorting.Map;
    forall i | 0 <= i < |rearranged|
      ensures rearranged[i] in TrimIds(tools)
      ensures Tool(Trim(rearranged[i].id), rearranged[i].required) == rearranged[i]
    {
      assert rearranged[i] in multiset(rearranged);
      MembersAreTrimmed(tools, rearranged[i]);
    }
  }

  lemma MembersAreTrimmed(tools: seq<Tool>, tool: Tool)
    requires tool in TrimIds(tools)
    ensures Trim(tool.id) == tool.id
  {
    hide Trim, Sorting.Map;
    var i :| 0 <= i < |tools| && TrimIds(tools)[i] == tool;
    TrimIsIdempotent(tools[i].id);
  }

  /** Exactly the normal forms are unchanged. */
  lemma NormalIsFixed(tools: seq<Tool>)
    ensures NormalTools(tools) <==> NormalizeTools(tools) == Some(tools)
  {
    if NormalTools(tools) {
      ByIdIsStrict();
      SortedAreDistinct(tools);
      Sorting.SortOfSorted(tools, ById);
    } else if NormalizeTools(tools) == Some(tools) {
      NormalizedIsNormal(tools);
      assert false;
    }
  }

  /** The order in which tools are given does not matter. */
  lemma ToolOrderIsIrrelevant(a: seq<Tool>, b: seq<Tool>)
    requires multiset(a) == multiset(b)
    ensures NormalizeTools(a) == NormalizeTools(b)
  {
    hide Sorting.Map, Sorting.Distinct, Sorting.Sort, Trim;
    var a', b' := TrimIds(a), TrimIds(b);
    Sorting.MapPermutes(TrimId, a, b);
    Sorting.DistinctPermutes(a', b', ToolId);
    SameUsable(a', b');
    if DistinctIds(a') {
      ByIdIsStrict();
      DistinctAreComparable(a');
      DistinctAreComparable(b');
      Sorting.SortIsCanonical(a', b', ById);
    }
  }

  lemma SameUsable(a: seq<Tool>, b: seq<Tool>)
    requires multiset(a) == multiset(b)
    ensures UsableIds(a) <==> UsableIds(b)
  {
    assert forall tool :: tool in a <==> tool in multiset(a);
    assert forall tool :: tool in b <==> tool in multiset(b);
  }

  /** The loop with its table of seen names. */
  method NormalizeToolList(tools: seq<Tool>) returns (r: Option<seq<Tool>>)
    ensures r == NormalizeTools(tools)
  {
    hide Trim, Sorting.Map, Sorting.Distinct, Sorting.KeySet, Sorting.Sort;
    NoTools();
    assert tools[..0] == [];
    if tools == [] {
      return Some([]);
    }
    var normalized, seen := tools, {};
    for i := 0 to |tools|
      invariant |normalized| == |tools|
      invariant normalized[..i] == TrimIds(tools)[..i] && normalized[i..] == tools[i..]
      invariant UsableIds(normalized[..i]) && DistinctIds(normalized[..i])
      invariant seen == Sorting.KeySet(normalized[..i], ToolId)
    {
      var id := Trim(normalized[i].id);
      ghost var before := normalized[..i];
      assert normalized[i] == normalized[i..][0] == tools[i];
      normalized := normalized[i := Tool(id, normalized[i].required)];
      assert normalized[..i + 1] == before + [normalized[i]];
      assert TrimIds(tools)[..i + 1] == before + [normalized[i]];
      Sorting.DistinctAppend(before, normalized[i], ToolId);
      if |id| < 1 || |id| > MAX_REFERENCE {
        assert normalized[i] in TrimIds(tools);
        return None;
      }
      if id in seen {
        Sorting.PrefixIsDistinct(TrimIds(tools), i + 1, ToolId);
        return None;
      }
      seen := seen + {id};
    }
    assert normalized == normalized[..|tools|] == TrimIds(tools)[..|tools|] == TrimIds(tools);
    return Some(Sorting.Sort(normalized, ById));
  }

  lemma NoTools()
    ensures DistinctIds([]) && Sorting.KeySet([], ToolId) == {} && NormalizeTools([]) == Some([])
  {
  }

  // ---------------------------------------------------------------------------------------------
  // Configuration
  // ---------------------------------------------------------------------------------------------

  /** A float64, as far as the program can tell values apart; rounding plays no part. */
  datatype Float = NaN | Infinite(negative: bool) | NegativeZero | Finite(value: real)

  /** Go's `==`: a NaN equals nothing, and the two zeros are equal. */
  predicate FloatEqual(a: Float, b: Float) {
    match a
    case NaN => false
    case Infinite(_) => a == b
    case NegativeZero => b == NegativeZero || b == Finite(0.0)
    case Finite(value) => a == b || (value == 0.0 && b == NegativeZero)
  }

  predicate InRange(f: Float, low: real, high: real) {
    (f == NegativeZero && low <= 0.0 <= high) || (f.Finite? && low <= f.value <= high)
  }

  datatype Generation = Generation(temperature: Option<Float>, topP: Option<Float>, maxOutputTokens: Option<int>)

  datatype Policy = Policy(maxLlmCalls: int, maxToolCalls: int, parallel: bool, maxParallel: int, timeout: int)

  datatype Configuration = Configuration(
    description: string, instruction: string, globalInstruction: string, modelProfile: string,
    generation: Generation, policy: Policy, tools: seq<Tool>)

  const DEFAULT_POLICY := Policy(16, 64, false, 1, 300)

  function PlainZero(f: Option<Float>): Option<Float> {
    if f == Some(NegativeZero) then Some(Finite(0.0)) else f
  }

  function NormalizeGeneration(g: Generation): Generation {
    g.(temperature := PlainZero(g.temperature), topP := PlainZero(g.topP))
  }

  /** `normalizeDraftConfiguration`. */
  function Normalize(c: Configuration): Option<Configuration> {
    match NormalizeTools(c.tools)
    case None => None
    case Some(tools) =>
      Some(c.(description := Trim(c.description), modelProfile := Trim(c.modelProfile),
              generation := NormalizeGeneration(c.generation),
              policy := if c.policy == Policy(0, 0, false, 0, 0) then DEFAULT_POLICY else c.policy,
              tools := tools))
  }

  predicate ValidGeneration(g: Generation) {
    && (g.temperature.Some? ==> InRange(g.temperature.value, 0.0, 2.0))
    && (g.topP.Some? ==> InRange(g.topP.value, 0.0, 1.0) && !FloatEqual(g.topP.value, Finite(0.0)))
    && (g.maxOutputTokens.Some? ==> 1 <= g.maxOutputTokens.value <= 1_000_000)
  }

  predicate ValidPolicy(p: Policy) {
    && 1 <= p.maxLlmCalls <= 100 && 0 <= p.maxToolCalls <= 1000
    && 1 <= p.maxParallel <= 64 && (p.parallel || p.maxParallel == 1)
    && 1 <= p.timeout <= 3600
  }

  const MAX_INSTRUCTION := 65536

  /** `validateRevisionDefinition`. */
  predicate ValidDefinition(kind: string, schema: int, c: Configuration) {
    && kind == "llm" && schema == 1
    && |c.description| <= 2000
    && 1 <= |Trim(c.instruction)| <= MAX_INSTRUCTION
    && |c.globalInstruction| <= MAX_INSTRUCTION
    && 1 <= |c.modelProfile| <= MAX_REFERENCE
    && ValidGeneration(c.generation) && ValidPolicy(c.policy)
    && NormalizeTools(c.tools).Some?
  }

  predicate SameFloat(a: Option<Float>, b: Option<Float>) {
    (a.None? && b.None?) || (a.Some? && b.Some? && FloatEqual(a.value, b.value))
  }

  /** `sameDraftConfiguration`, whose numbers are compared with Go's `==`. */
  predicate SameConfiguration(a: Configuration, b: Configuration) {
    && a == b.(generation := a.generation)
    && a.generation.maxOutputTokens == b.generation.maxOutputTokens
    && SameFloat(a.generation.temperature, b.generation.temperature)
    && SameFloat(a.generation.topP, b.generation.topP)
  }

  /** What normalization does to each part of a configuration, and when it refuses one: names of tools and
      the two texts lose their surrounding space, tools are sorted, a policy left empty is the default one, and
      every number keeps its value. */
  lemma NormalFormSays(c: Configuration)
    ensures Normalize(c).Some? <==> UsableIds(TrimIds(c.tools)) && DistinctIds(TrimIds(c.tools))
    ensures Normalize(c).Some? ==>
      var n := Normalize(c).value;
      && n.description == Trim(c.description) && n.modelProfile == Trim(c.modelProfile)
      && n.instruction == c.instruction && n.globalInstruction == c.globalInstruction
      && multiset(n.tools) == multiset(TrimIds(c.tools)) && Sorting.Sorted(n.tools, ById)
      && n.policy == (if c.policy == Policy(0, 0, false, 0, 0) then DEFAULT_POLICY else c.policy)
      && SameNumber(n.generation.temperature, c.generation.temperature)
      && SameNumber(n.generation.topP, c.generation.topP)
      && n.generation.maxOutputTokens == c.generation.maxOutputTokens
  {
    hide Trim, TrimIds, UsableIds, DistinctIds, Sorting.Sort;
    if NormalizeTools(c.tools).Some? {
      NormalizedIsNormal(c.tools);
    }
  }

  /** The same number, in the one form that prints alike. */
  predicate SameNumber(n: Option<Float>, f: Option<Float>) {
    n != Some(NegativeZero) && (SameFloat(n, f) || n == f)
  }

  /** Normalizing twice changes nothing more. */
  lemma NormalizeIsIdempotent(c: Configuration)
    requires Normalize(c).Some?
    ensures Normalize(Normalize(c).value) == Normalize(c)
  {
    hide Trim, NormalizeTools;
    TrimIsIdempotent(c.description);
    TrimIsIdempotent(c.modelProfile);
    NormalizeToolsTwice(c.tools);
  }

  lemma NormalizeToolsTwice(tools: seq<Tool>)
    requires NormalizeTools(tools).Some?
    ensures NormalizeTools(NormalizeTools(tools).value) == NormalizeTools(tools)
  {
    NormalizedIsNormal(tools);
    NormalIsFixed(NormalizeTools(tools).value);
  }

  /** The order of the tools and the space around names and texts do not matter. */
  lemma NormalFormIgnoresOrder(c: Configuration, tools: seq<Tool>)
    requires multiset(tools) == multiset(c.tools)
    ensures Normalize(c.(tools := tools)) == Normalize(c)
    ensures Normalize(c.(description := Trim(c.description), modelProfile := Trim(c.modelProfile))) == Normalize(c)
  {
    hide Trim, NormalizeTools;
    ToolOrderIsIrrelevant(tools, c.tools);
    TrimIsIdempotent(c.description);
    TrimIsIdempotent(c.modelProfile);
  }

  // ---------------------------------------------------------------------------------------------
  // Revisions
  // ---------------------------------------------------------------------------------------------

  datatype RevisionState = Draft | Published

  /** Times are counted from the zero time, which is 0. */
  datatype Revision = Revision(
    tenant: string, app: string, number: int, state: RevisionState, draftVersion: int,
    kind: string, schema: int, configuration: Configuration,
    digest: string, publishedAt: Option<nat>, createdAt: nat, updatedAt: nat)

  /** What the digest covers, and the digest of it. */
  datatype Payload = Payload(kind: string, schema: int, configuration: Configuration)

  type Hash = Payload -> string

  predicate ValidAppId(id: string) {
    |id| == 30 && id[..4] == "app_" && id[4] <= '7' && Ulid.AllDigits(id[4..])
  }

  /** `NewRevision` at clock reading `now`; an empty kind or schema version selects the default. */
  function NewRevision(tenant: string, app: string, number: int, kind: string, schema: int, c: Configuration,
                       now: nat): Option<Revision>
  {
    if !Ulid.ValidTenantId(tenant) || !ValidAppId(app) || number < 1 then None
    else
      var kind' := if kind == "" then "llm" else kind;
      var schema' := if schema == 0 then 1 else schema;
      match Normalize(c)
      case None => None
      case Some(n) =>
        if !ValidDefinition(kind', schema', n) then None
        else Some(Revision(tenant, app, number, Draft, 1, kind', schema', n, "", None, now, now))
  }

  /** `ComputeContentDigest`. */
  function Digest(r: Revision, hash: Hash): Option<string> {
    match Normalize(r.configuration)
    case None => None
    case Some(n) =>
      if ValidDefinition(r.kind, r.schema, n) then Some(hash(Payload(r.kind, r.schema, n))) else None
  }

  predicate ValidConfiguration(r: Revision) {
    match Normalize(r.configuration)
    case None => false
    case Some(n) => SameConfiguration(r.configuration, n) && ValidDefinition(r.kind, r.schema, r.configuration)
  }

  predicate ValidPublication(r: Revision, hash: Hash) {
    match r.state
    case Draft => r.digest == "" && r.publishedAt == None
    case Published =>
      && r.publishedAt == Some(r.updatedAt) && r.updatedAt != 0 && r.updatedAt >= r.createdAt
      && Digest(r, hash) == Some(r.digest)
  }

  /** `Revision.Validate`. */
  predicate ValidRevision(r: Revision, hash: Hash) {
    && Ulid.ValidTenantId(r.tenant) && ValidAppId(r.app) && r.number >= 1 && r.draftVersion >= 1
    && ValidConfiguration(r)
    && r.createdAt != 0 && r.updatedAt != 0 && r.updatedAt >= r.createdAt
    && ValidPublication(r, hash)
  }

  /** `Revision.Publish`, with its own `Validate` calls before and after. */
  function Publish(r: Revision, at: nat, hash: Hash): Option<Revision> {
    if r.state != Draft || !ValidRevision(r, hash) || at == 0 || at < r.updatedAt then None
    else match Digest(r, hash)
      case None => None
      case Some(digest) =>
        var published := r.(state := Published, digest := digest, publishedAt := Some(at), updatedAt := at);
        if ValidRevision(published, hash) then Some(published) else None
  }

  /** A normalized, well-defined configuration is one `Validate` accepts. */
  lemma NormalizedIsValid(kind: string, schema: int, c: Configuration)
    requires Normalize(c).Some? && ValidDefinition(kind, schema, Normalize(c).value)
    ensures SameConfiguration(Normalize(c).value, Normalize(c).value)
  {
    hide Trim, NormalizeTools;
  }

  /** The constructor yields a value that `Validate` accepts. */
  lemma NewRevisionIsValid(tenant: string, app: string, number: int, kind: string, schema: int, c: Configuration,
                           now: nat, hash: Hash)
    requires now > 0 && NewRevision(tenant, app, number, kind, schema, c, now).Some?
    ensures ValidRevision(NewRevision(tenant, app, number, kind, schema, c, now).value, hash)
  {
    hide Trim, NormalizeTools, Normalize, ValidDefinition, Ulid.ValidTenantId, ValidAppId, SameConfiguration;
    var r := NewRevision(tenant, app, number, kind, schema, c, now).value;
    NormalizeIsIdempotent(c);
    NormalizedIsValid(r.kind, r.schema, c);
  }

  /** A draft rewritten in place by `UpdateDraft` is valid too, so its final `Validate` cannot fail. */
  lemma RewrittenDraftIsValid(was: Revision, c: Configuration, clock: nat, now: nat, hash: Hash)
    requires ValidRevision(was, hash) && was.state == Draft && clock > 0 && now >= was.updatedAt
    requires NewRevision(was.tenant, was.app, was.number, was.kind, was.schema, c, clock).Some?
    ensures ValidRevision(
      NewRevision(was.tenant, was.app, was.number, was.kind, was.schema, c, clock).value
        .(draftVersion := was.draftVersion + 1, createdAt := was.createdAt, updatedAt := now), hash)
  {
    hide Trim, NormalizeTools, Normalize, ValidDefinition, Ulid.ValidTenantId, ValidAppId, SameConfiguration;
    NewRevisionIsValid(was.tenant, was.app, was.number, was.kind, was.schema, c, clock, hash);
  }

  /** A revision's definition is valid as written exactly when its normal form is. */
  lemma DefinitionOfNormalForm(r: Revision)
    requires ValidConfiguration(r)
    ensures ValidDefinition(r.kind, r.schema, Normalize(r.configuration).value)
  {
    hide Trim, NormalizeTools;
    NormalizeToolsTwice(r.configuration.tools);
  }

  /** A valid draft is published at any time that does not precede its last update; nothing else is. */
  lemma PublishSucceeds(r: Revision, at: nat, hash: Hash)
    requires ValidRevision(r, hash)
    ensures Publish(r, at, hash).Some? <==> r.state == Draft && at != 0 && at >= r.updatedAt
    ensures Publish(r, at, hash).Some? ==> ValidRevision(Publish(r, at, hash).value, hash)
  {
    hide Trim, Normalize, ValidDefinition, SameConfiguration, Ulid.ValidTenantId, ValidAppId;
    DefinitionOfNormalForm(r);
  }

  /** Content that differs only in tool order has one digest. */
  lemma DigestIgnoresToolOrder(r: Revision, tools: seq<Tool>, hash: Hash)
    requires multiset(tools) == multiset(r.configuration.tools)
    ensures Digest(r.(configuration := r.configuration.(tools := tools)), hash) == Digest(r, hash)
  {
    hide Normalize, ValidDefinition;
    NormalFormIgnoresOrder(r.configuration, tools);
  }
}
