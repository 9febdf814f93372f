/**
 The preimage of a backend profile's content digest, and the profile constructor. SHA-256 is any
 function of the preimage, and `utf8` any injective encoding.
 */
module BackendDigest {
  import opened Options
  import opened Text
  import opened Decimals
  import opened Backend
  import opened Ulid
  import Sorting

  type Encoder = string -> seq<byte>

  ghost predicate Injective(utf8: Encoder) { forall a, b :: utf8(a) == utf8(b) ==> a == b }

  // ---------------------------------------------------------------------------------------------
  // Length-prefixed chunks
  // ---------------------------------------------------------------------------------------------

  /** The last `n` bytes of a count, most significant first. */
  function CountBytes(count: nat, n: nat): (r: seq<byte>)
    ensures |r| == n
    decreases n
  {
    if n == 0 then [] else CountBytes(count / 256, n - 1) + [count % 256]
  }

  lemma {:induction false} CountSurvives(count: nat, n: nat)
    requires count < Pow(256, n)
    ensures FromBytes(CountBytes(count, n)) == count
    decreases n
  {
    if n > 0 {
      CountSurvives(count / 256, n - 1);
      assert CountBytes(count, n)[..n - 1] == CountBytes(count / 256, n - 1);
    }
  }

  /** `writeDigestString`: eight bytes of length, then the bytes. */
  function Chunk(bytes: seq<byte>): seq<byte> { CountBytes(|bytes|, 8) + bytes }

  /** A length that fits the eight bytes. */
  predicate Fits(bytes: seq<byte>) { |bytes| < Pow(256, 8) }

  lemma ChunkIsUnique(a: seq<byte>, x: seq<byte>, b: seq<byte>, y: seq<byte>)
    requires Fits(a) && Fits(b) && Chunk(a) + x == Chunk(b) + y
    ensures a == b && x == y
  {
    hide CountBytes, FromBytes, Pow;
    var s := Chunk(a) + x;
    assert s[..8] == CountBytes(|a|, 8) && (Chunk(b) + y)[..8] == CountBytes(|b|, 8);
    CountSurvives(|a|, 8);
    CountSurvives(|b|, 8);
    assert s[8..8 + |a|] == a && (Chunk(b) + y)[8..8 + |b|] == b;
    assert s[8 + |a|..] == x && (Chunk(b) + y)[8 + |b|..] == y;
  }

  /** The chunks of some fields, one after the other. */
  function Written(utf8: Encoder, fields: seq<string>): seq<byte> {
    if fields == [] then [] else Chunk(utf8(fields[0])) + Written(utf8, fields[1..])
  }

  predicate AllFit(utf8: Encoder, fields: seq<string>) { forall f <- fields :: Fits(utf8(f)) }

  lemma ChunkIsNotEmpty(bytes: seq<byte>)
    ensures |Chunk(bytes)| >= 8
  {
  }

  lemma {:induction false} WrittenIsInjective(utf8: Encoder, a: seq<string>, b: seq<string>)
    requires Injective(utf8) && AllFit(utf8, a) && AllFit(utf8, b) && Written(utf8, a) == Written(utf8, b)
    ensures a == b
  {
    hide Fits, Chunk;
    if a != [] && b != [] {
      ChunkIsUnique(utf8(a[0]), Written(utf8, a[1..]), utf8(b[0]), Written(utf8, b[1..]));
      WrittenIsInjective(utf8, a[1..], b[1..]);
      assert a == [a[0]] + a[1..] && b == [b[0]] + b[1..];
    } else if a != [] {
      ChunkIsNotEmpty(utf8(a[0]));
    } else if b != [] {
      ChunkIsNotEmpty(utf8(b[0]));
    }
  }

  lemma {:induction false} WrittenAppend(utf8: Encoder, a: seq<string>, b: seq<string>)
    ensures Written(utf8, a + b) == Written(utf8, a) + Written(utf8, b)
  {
    hide Chunk;
    if a == [] {
      assert a + b == b;
    } else {
      WrittenAppend(utf8, a[1..], b);
      assert (a + b)[1..] == a[1..] + b;
      assert Written(utf8, a) == Chunk(utf8(a[0])) + Written(utf8, a[1..]);
    }
  }

  // ---------------------------------------------------------------------------------------------
  // The fields of a binding list
  // ---------------------------------------------------------------------------------------------

  function CapabilityName(c: Capability): string {
    match c
    case Session => "session"
    case Memory => "memory"
    case Summary => "summary"
    case Knowledge => "knowledge"
    case Artifact => "artifact"
    case Audit => "audit"
    case Unlisted(name) => name
  }

  lemma NamesAreDistinct(a: Capability, b: Capability)
    requires !a.Unlisted? && !b.Unlisted? && CapabilityName(a) == CapabilityName(b)
    ensures a == b
  {
    var s, t := CapabilityName(a), CapabilityName(b);
    assert s[0] == t[0] && s[1] == t[1] && |s| == |t|;
  }

  /** The keys of a set in some order. */
  ghost function Listed(keys: set<string>): seq<string> {
    if keys == {} then [] else var k :| k in keys; [k] + Listed(keys - {k})
  }

  ghost function SortedKeys(keys: set<string>): seq<string> { Sorting.Sort(Listed(keys), Less) }

  /** Each key and its value. */
  function Pairs(keys: seq<string>, options: map<string, string>): (r: seq<string>)
    requires forall k <- keys :: k in options
    ensures |r| == 2 * |keys|
  {
    if keys == [] then [] else [keys[0], options[keys[0]]] + Pairs(keys[1..], options)
  }

  lemma LessIsStrict()
    ensures Sorting.StrictOrder(Less)
  {
    forall x: string, y: string ensures !(Less(x, y) && Less(y, x)) {
      LessIsTotal(x, y);
    }
    forall x: string, y: string, z: string | Less(x, y) && Less(y, z) ensures Less(x, z) {
      LessIsTransitive(x, y, z);
    }
  }

  lemma {:induction false} ListedIsExact(keys: set<string>)
    ensures multiset(Listed(keys)) == multiset(keys)
  {
    if keys != {} {
      var k :| k in keys && Listed(keys) == [k] + Listed(keys - {k});
      ListedIsExact(keys - {k});
      assert multiset(keys) == multiset(keys - {k}) + multiset{k};
    }
  }

  /** The sorted keys are the keys, each once. */
  lemma SortedKeysAreExact(keys: set<string>)
    ensures multiset(SortedKeys(keys)) == multiset(keys) && |SortedKeys(keys)| == |keys|
    ensures forall k :: k in SortedKeys(keys) <==> k in keys
  {
    hide Sorting.Sort, Listed, Less;
    ListedIsExact(keys);
    Sorting.SortPermutes(Listed(keys), Less);
    var sorted := SortedKeys(keys);
    assert |multiset(sorted)| == |multiset(keys)|;
    assert forall k :: k in sorted <==> k in multiset(sorted);
  }

  ghost function BindingFields(b: Binding): seq<string> {
    SortedKeysAreExact(b.options.Keys);
    var keys := SortedKeys(b.options.Keys);
    [CapabilityName(b.capability), b.provider, b.endpoint, Decimal(|keys|)] + Pairs(keys, b.options) + [b.secretRef]
  }

  ghost function ListFields(bindings: seq<Binding>): seq<string> {
    if bindings == [] then [] else BindingFields(bindings[0]) + ListFields(bindings[1..])
  }

  ghost function Fields(schema: nat, bindings: seq<Binding>): seq<string> {
    [Decimal(schema), Decimal(|bindings|)] + ListFields(bindings)
  }

  /** What `contentDigest` feeds to the hash. */
  ghost function Preimage(utf8: Encoder, schema: nat, bindings: seq<Binding>): seq<byte> {
    Written(utf8, Fields(schema, bindings))
  }

  // ---------------------------------------------------------------------------------------------
  // Injectivity
  // ---------------------------------------------------------------------------------------------

  lemma {:induction false} PairsGiveOptions(keys: seq<string>, m: map<string, string>, keys': seq<string>, m': map<string, string>)
    requires (forall k <- keys :: k in m) && (forall k <- keys' :: k in m')
    requires |keys| == |keys'| && Pairs(keys, m) == Pairs(keys', m')
    ensures keys == keys' && forall k <- keys :: m[k] == m'[k]
  {
    if keys != [] {
      var p, p' := Pairs(keys, m), Pairs(keys', m');
      assert p[0] == keys[0] && p'[0] == keys'[0] && p[1] == m[keys[0]] && p'[1] == m'[keys'[0]];
      assert p[2..] == Pairs(keys[1..], m) && p'[2..] == Pairs(keys'[1..], m');
      PairsGiveOptions(keys[1..], m, keys'[1..], m');
      assert keys == [keys[0]] + keys[1..] && keys' == [keys'[0]] + keys'[1..];
    }
  }

  lemma SameOptions(m: map<string, string>, m': map<string, string>)
    requires SortedKeys(m.Keys) == SortedKeys(m'.Keys)
    requires forall k <- SortedKeys(m.Keys) :: k in m && k in m' ==> m[k] == m'[k]
    ensures m == m'
  {
    SortedKeysAreExact(m.Keys);
    SortedKeysAreExact(m'.Keys);
  }

  /** The fields of a binding say where they end and what the binding is. */
  lemma BindingIsUnique(a: Binding, x: seq<string>, b: Binding, y: seq<string>)
    requires !a.capability.Unlisted? && !b.capability.Unlisted?
    requires BindingFields(a) + x == BindingFields(b) + y
    ensures a == b && x == y
  {
    hide SortedKeys, Pairs, Decimal;
    SortedKeysAreExact(a.options.Keys);
    SortedKeysAreExact(b.options.Keys);
    var keys, keys' := SortedKeys(a.options.Keys), SortedKeys(b.options.Keys);
    var s, t := BindingFields(a) + x, BindingFields(b) + y;
    assert s[0] == t[0] && s[1] == t[1] && s[2] == t[2] && s[3] == t[3];
    NamesAreDistinct(a.capability, b.capability);
    CountDecimal(|keys|);
    CountDecimal(|keys'|);
    var n := 2 * |keys|;
    assert s[4..4 + n] == Pairs(keys, a.options) && t[4..4 + n] == Pairs(keys', b.options);
    assert s[4 + n] == a.secretRef && t[4 + n] == b.secretRef;
    assert s[5 + n..] == x && t[5 + n..] == y;
    PairsGiveOptions(keys, a.options, keys', b.options);
    SameOptions(a.options, b.options);
  }

  predicate Known(bindings: seq<Binding>) { forall b <- bindings :: !b.capability.Unlisted? }

  lemma {:induction false} ListIsUnique(a: seq<Binding>, b: seq<Binding>)
    requires Known(a) && Known(b) && |a| == |b| && ListFields(a) == ListFields(b)
    ensures a == b
  {
    hide BindingFields;
    if a != [] {
      BindingIsUnique(a[0], ListFields(a[1..]), b[0], ListFields(b[1..]));
      ListIsUnique(a[1..], b[1..]);
      assert a == [a[0]] + a[1..] && b == [b[0]] + b[1..];
    }
  }

  /** Different schema versions or bindings never feed the hash the same bytes. */
  lemma PreimageIsInjective(utf8: Encoder, schema: nat, a: seq<Binding>, schema': nat, b: seq<Binding>)
    requires Injective(utf8) && Known(a) && Known(b)
    requires AllFit(utf8, Fields(schema, a)) && AllFit(utf8, Fields(schema', b))
    requires Preimage(utf8, schema, a) == Preimage(utf8, schema', b)
    ensures schema == schema' && a == b
  {
    hide ListFields, Decimal, Written, AllFit, Known;
    var f, g := Fields(schema, a), Fields(schema', b);
    WrittenIsInjective(utf8, f, g);
    assert f[0] == g[0] && f[1] == g[1] && f[2..] == ListFields(a) && g[2..] == ListFields(b);
    CountDecimal(schema);
    CountDecimal(schema');
    CountDecimal(|a|);
    CountDecimal(|b|);
    ListIsUnique(a, b);
  }

  lemma NormalizedAreKnown(c: Catalog, bindings: seq<Binding>)
    requires CatalogKept(c) && NormalizeBindings(c, bindings).Some?
    ensures Known(NormalizeBindings(c, bindings).value)
  {
    hide CatalogKept, NormalizeBindings, NormalizeBinding;
    NormalizedListIsNormal(c, bindings);
    forall b <- NormalizeBindings(c, bindings).value ensures !b.capability.Unlisted? {
      AcceptedHaveRanks(c, b);
    }
  }

  /** Two accepted configurations feed the hash the same bytes exactly when their normal forms are the same. */
  lemma PreimageDecides(c: Catalog, utf8: Encoder, schema: nat, a: seq<Binding>, b: seq<Binding>)
    requires Injective(utf8) && CatalogKept(c)
    requires NormalizeBindings(c, a).Some? && NormalizeBindings(c, b).Some?
    requires AllFit(utf8, Fields(schema, NormalizeBindings(c, a).value))
    requires AllFit(utf8, Fields(schema, NormalizeBindings(c, b).value))
    ensures Preimage(utf8, schema, NormalizeBindings(c, a).value) == Preimage(utf8, schema, NormalizeBindings(c, b).value)
      <==> NormalizeBindings(c, a) == NormalizeBindings(c, b)
  {
    hide NormalizeBindings, Preimage, Fields, AllFit, CatalogKept, Known;
    NormalizedAreKnown(c, a);
    NormalizedAreKnown(c, b);
    if Preimage(utf8, schema, NormalizeBindings(c, a).value) == Preimage(utf8, schema, NormalizeBindings(c, b).value) {
      PreimageIsInjective(utf8, schema, NormalizeBindings(c, a).value, schema, NormalizeBindings(c, b).value);
    }
  }

  // ---------------------------------------------------------------------------------------------
  // The digest loops
  // ---------------------------------------------------------------------------------------------

  /** The keys of a table, collected in any order and then sorted. */
  method SortKeys(options: map<string, string>) returns (keys: seq<string>)
    ensures keys == SortedKeys(options.Keys)
  {
    hide Sorting.Sort, Listed, Less;
    var todo := options.Keys;
    keys := [];
    while todo != {}
      invariant todo <= options.Keys
      invariant multiset(keys) + multiset(todo) == multiset(options.Keys)
      decreases todo
    {
      var key :| key in todo;
      assert multiset(todo) == multiset(todo - {key}) + multiset{key};
      todo := todo - {key};
      keys := keys + [key];
    }
    ListedIsExact(options.Keys);
    LessIsStrict();
    OnceIsComparable(keys, options.Keys);
    OnceIsComparable(Listed(options.Keys), options.Keys);
    Sorting.SortIsCanonical(keys, Listed(options.Keys), Less);
    keys := Sorting.Sort(keys, Less);
  }

  lemma OnceIsComparable(keys: seq<string>, all: set<string>)
    requires multiset(keys) == multiset(all)
    ensures Sorting.Comparable(keys, Less)
  {
    forall i, j | 0 <= i < j < |keys| ensures Less(keys[i], keys[j]) || Less(keys[j], keys[i]) {
      assert keys[i] != keys[j] by {
        if keys[i] == keys[j] {
          TwiceIsTwo(keys, i, j);
          assert false;
        }
      }
      LessIsTotal(keys[i], keys[j]);
    }
  }

  lemma TwiceIsTwo(keys: seq<string>, i: nat, j: nat)
    requires i < j < |keys| && keys[i] == keys[j]
    ensures multiset(keys)[keys[i]] >= 2
  {
    assert keys == keys[..j] + ([keys[j]] + keys[j + 1..]);
    assert keys[i] in multiset(keys[..j]);
  }

  method WriteBinding(utf8: Encoder, b: Binding) returns (bytes: seq<byte>)
    ensures bytes == Written(utf8, BindingFields(b))
  {
    hide Chunk, Decimal, SortedKeys, Pairs;
    SortedKeysAreExact(b.options.Keys);
    var keys := SortKeys(b.options);
    bytes := Chunk(utf8(CapabilityName(b.capability))) + Chunk(utf8(b.provider)) + Chunk(utf8(b.endpoint));
    bytes := bytes + Chunk(utf8(Decimal(|keys|)));
    ghost var head := [CapabilityName(b.capability), b.provider, b.endpoint, Decimal(|keys|)];
    FourChunks(utf8, head);
    var pairs := WritePairs(utf8, keys, b.options);
    WrittenAppend(utf8, head, Pairs(keys, b.options));
    WrittenAppend(utf8, head + Pairs(keys, b.options), [b.secretRef]);
    OneChunk(utf8, b.secretRef);
    bytes := bytes + pairs + Chunk(utf8(b.secretRef));
  }

  method WritePairs(utf8: Encoder, keys: seq<string>, options: map<string, string>) returns (bytes: seq<byte>)
    requires forall k <- keys :: k in options
    ensures bytes == Written(utf8, Pairs(keys, options))
  {
    hide Chunk;
    bytes := [];
    for i := 0 to |keys|
      invariant bytes + Written(utf8, Pairs(keys[i..], options)) == Written(utf8, Pairs(keys, options))
    {
      assert keys[i..][0] == keys[i] && keys[i..][1..] == keys[i + 1..];
      WrittenAppend(utf8, [keys[i], options[keys[i]]], Pairs(keys[i + 1..], options));
      TwoChunks(utf8, keys[i], options[keys[i]]);
      bytes := bytes + (Chunk(utf8(keys[i])) + Chunk(utf8(options[keys[i]])));
    }
  }

  lemma OneChunk(utf8: Encoder, f: string)
    ensures Written(utf8, [f]) == Chunk(utf8(f))
  {
    assert Written(utf8, [f][1..]) == [];
  }

  lemma TwoChunks(utf8: Encoder, f: string, g: string)
    ensures Written(utf8, [f, g]) == Chunk(utf8(f)) + Chunk(utf8(g))
  {
    hide Chunk;
    OneChunk(utf8, g);
    assert [f, g][1..] == [g];
  }

  lemma FourChunks(utf8: Encoder, f: seq<string>)
    requires |f| == 4
    ensures Written(utf8, f) == Chunk(utf8(f[0])) + Chunk(utf8(f[1])) + Chunk(utf8(f[2])) + Chunk(utf8(f[3]))
  {
    hide Chunk;
    TwoChunks(utf8, f[0], f[1]);
    TwoChunks(utf8, f[2], f[3]);
    WrittenAppend(utf8, [f[0], f[1]], [f[2], f[3]]);
    assert f == [f[0], f[1]] + [f[2], f[3]];
  }

  /** `contentDigest`, up to the hash. */
  method WriteDigest(utf8: Encoder, schema: nat, bindings: seq<Binding>) returns (bytes: seq<byte>)
    ensures bytes == Preimage(utf8, schema, bindings)
  {
    hide Chunk, Decimal, BindingFields;
    ghost var head := [Decimal(schema), Decimal(|bindings|)];
    TwoChunks(utf8, Decimal(schema), Decimal(|bindings|));
    WrittenAppend(utf8, head, ListFields(bindings));
    bytes := Chunk(utf8(Decimal(schema))) + Chunk(utf8(Decimal(|bindings|)));
    for i := 0 to |bindings|
      invariant bytes + Written(utf8, ListFields(bindings[i..])) == Preimage(utf8, schema, bindings)
    {
      assert bindings[i..][0] == bindings[i] && bindings[i..][1..] == bindings[i + 1..];
      WrittenAppend(utf8, BindingFields(bindings[i]), ListFields(bindings[i + 1..]));
      var written := WriteBinding(utf8, bindings[i]);
      bytes := bytes + written;
    }
  }

  // ---------------------------------------------------------------------------------------------
  // Profiles
  // ---------------------------------------------------------------------------------------------

  type Status = string

  const ACTIVE: Status := "active"
  const SUSPENDED: Status := "suspended"
  const DISABLED: Status := "disabled"

  /** A time, zero if it was never set, and whether its location is UTC. */
  datatype Time = Time(at: nat, utc: bool)

  datatype Profile = Profile(
    tenant: string, id: string, key: string, name: string, description: string, status: Status,
    schema: nat, bindings: seq<Binding>, digest: string, version: int, createdAt: Time, updatedAt: Time)

  /** The encoding and the hash behind a digest. */
  datatype Hasher = Hasher(utf8: Encoder, sum: seq<byte> -> string)

  ghost function ContentDigest(h: Hasher, schema: nat, bindings: seq<Binding>): string {
    h.sum(Preimage(h.utf8, schema, bindings))
  }

  predicate ValidProfileId(id: string) { |id| == 29 && id[..3] == "bp_" && id[3] <= '7' && AllDigits(id[3..]) }

  predicate ValidMetadata(name: string, description: string) { 1 <= |name| <= 200 && |description| <= 2000 }

  predicate HasCapability(bindings: seq<Binding>, c: Capability) { exists b <- bindings :: b.capability == c }

  /** `validateLifecycleConfiguration`. */
  predicate Runs(status: Status, bindings: seq<Binding>) {
    && (status != DISABLED ==> bindings != [])
    && (status == ACTIVE ==> HasCapability(bindings, Session))
  }

  /** `NewProfile`; `id` is what generating an identifier gives, and `now` what the clock says. An empty status
      selects the active one, and a schema version of zero the current one. */
  ghost function NewProfile(c: Catalog, h: Hasher, tenant: string, key: string, name: string, description: string,
                            status: Status, schema: int, bindings: seq<Binding>, id: Option<string>, now: Time)
    : Option<Profile>
  {
    var status' := if status == "" then ACTIVE else status;
    var schema' := if schema == 0 then 1 else schema;
    if !ValidTenantId(tenant) || NormalizeKey(key).None? || !ValidMetadata(Trim(name), Trim(description)) then None
    else if status' != ACTIVE && status' != SUSPENDED then None
    else if schema' != 1 then None
    else match NormalizeBindings(c, bindings)
      case None => None
      case Some(normal) =>
        if !Runs(status', normal) || id.None? then None
        else Some(Profile(tenant, id.value, NormalizeKey(key).value, Trim(name), Trim(description), status', schema', normal,
                          ContentDigest(h, schema', normal), 1, now.(utc := true), now.(utc := true)))
  }

  /** `Profile.Validate`. */
  ghost predicate ValidProfile(p: Profile, c: Catalog, h: Hasher) {
    && ValidTenantId(p.tenant) && ValidProfileId(p.id) && NormalizeKey(p.key) == Some(p.key)
    && ValidMetadata(Trim(p.name), Trim(p.description)) && Trim(p.name) == p.name && Trim(p.description) == p.description
    && p.status in {ACTIVE, SUSPENDED, DISABLED}
    && p.schema == 1 && NormalizeBindings(c, p.bindings) == Some(p.bindings)
    && Runs(p.status, p.bindings) && p.digest == ContentDigest(h, p.schema, p.bindings)
    && p.version >= 1 && 0 < p.createdAt.at <= p.updatedAt.at && p.createdAt.utc && p.updatedAt.utc
  }

  /** A profile is made exactly when its parts are acceptable, and it is made of them in normal form. */
  lemma NewProfileExactly(c: Catalog, h: Hasher, tenant: string, key: string, name: string, description: string,
                          status: Status, schema: int, bindings: seq<Binding>, id: Option<string>, now: Time)
    ensures var made := NewProfile(c, h, tenant, key, name, description, status, schema, bindings, id, now);
      && (made.Some? <==>
          && ValidTenantId(tenant) && NormalizeKey(key).Some? && ValidMetadata(Trim(name), Trim(description))
          && status in {"", ACTIVE, SUSPENDED} && schema in {0, 1} && id.Some?
          && NormalizeBindings(c, bindings).Some? && bindings != []
          && (status != SUSPENDED ==> HasCapability(bindings, Session)))
      && (made.Some? ==>
          var p := made.value;
          && (p.tenant, p.id, Some(p.key)) == (tenant, id.value, NormalizeKey(key))
          && (p.name, p.description) == (Trim(name), Trim(description)) && Some(p.bindings) == NormalizeBindings(c, bindings)
          && p.createdAt.at == p.updatedAt.at == now.at)
  {
    hide NormalizeBindings, Trim, NormalizeKey, ValidTenantId, ValidMetadata, HasCapability, ContentDigest;
    if NormalizeBindings(c, bindings).Some? {
      NormalCapabilities(c, bindings);
    }
  }

  /** Normalization keeps the capabilities of a list. */
  lemma NormalCapabilities(c: Catalog, bindings: seq<Binding>)
    requires NormalizeBindings(c, bindings).Some?
    ensures NormalizeBindings(c, bindings).value != [] <==> bindings != []
    ensures HasCapability(NormalizeBindings(c, bindings).value, Session) <==> HasCapability(bindings, Session)
  {
    hide NormalizeBinding, Entry, Sorting.Sort, Sorting.Distinct, AllAccepted, Entries;
    var entries, sorted := Entries(c, bindings), NormalizeBindings(c, bindings).value;
    Sorting.SortPermutes(entries, ByRank);
    assert forall b :: b in sorted <==> b in multiset(sorted);
    assert forall b :: b in entries <==> b in multiset(entries);
    assert |sorted| == |multiset(sorted)| && |entries| == |multiset(entries)|;
    forall i | 0 <= i < |bindings| ensures entries[i].capability == bindings[i].capability {
      EntryKeepsCapability(c, bindings[i]);
    }
    SameCapabilities(bindings, entries, Session);
  }

  lemma SameCapabilities(a: seq<Binding>, b: seq<Binding>, c: Capability)
    requires |a| == |b| && forall i | 0 <= i < |a| :: a[i].capability == b[i].capability
    ensures HasCapability(a, c) <==> HasCapability(b, c)
  {
    if x :| x in a && x.capability == c {
      var i :| 0 <= i < |a| && a[i] == x;
      assert b[i] in b;
    }
    if x :| x in b && x.capability == c {
      var i :| 0 <= i < |b| && b[i] == x;
      assert a[i] in a;
    }
  }

  /** The constructor yields a profile that `Validate` accepts, with the status asked for or the default. */
  lemma NewProfileIsValid(c: Catalog, h: Hasher, tenant: string, key: string, name: string, description: string,
                          status: Status, schema: int, bindings: seq<Binding>, id: Option<string>, now: Time)
    requires CatalogKept(c) && (id.Some? ==> ValidProfileId(id.value)) && now.at > 0
    requires NewProfile(c, h, tenant, key, name, description, status, schema, bindings, id, now).Some?
    ensures var p := NewProfile(c, h, tenant, key, name, description, status, schema, bindings, id, now).value;
      ValidProfile(p, c, h) && p.status == (if status == "" then ACTIVE else status) && p.version == 1
  {
    hide CatalogKept, NormalizeBindings, Trim, Lower, ValidKey, ValidTenantId, ValidProfileId, ContentDigest, Runs;
    NormalizeIsIdempotent(c, bindings);
    NormalKeyIsFixed(NormalizeKey(key).value);
    TrimIsIdempotent(name);
    TrimIsIdempotent(description);
  }

  /** Two accepted configurations that are the same up to order have one digest. */
  lemma DigestIgnoresOrder(c: Catalog, h: Hasher, schema: nat, a: seq<Binding>, b: seq<Binding>)
    requires multiset(a) == multiset(b) && NormalizeBindings(c, a).Some?
    ensures NormalizeBindings(c, b).Some?
    ensures ContentDigest(h, schema, NormalizeBindings(c, a).value) == ContentDigest(h, schema, NormalizeBindings(c, b).value)
  {
    hide NormalizeBindings, ContentDigest;
    BindingOrderIsIrrelevant(c, a, b);
  }
}
