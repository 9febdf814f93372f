/**
 Backend profiles: the normal form of capability bindings against a trusted provider catalog. The
 canonical form of an endpoint comes from URL and address parsers, and which option keys are
 sensitive from a list; both are parameters of the catalog.
 */
module Backend {
  import opened Options
  import opened Text
  import opened Decimals
  import Sorting

  // ---------------------------------------------------------------------------------------------
  // Options
  // ---------------------------------------------------------------------------------------------

  datatype OptionKind = StringOption | BooleanOption | IntegerOption | EnumOption | UnknownKind

  datatype OptionSpec = OptionSpec(
    kind: OptionKind, required: bool, default: Option<string>, allowed: seq<string>,
    min: Option<int>, max: Option<int>)

  const MAX_OPTION_VALUE := 4096

  predicate Readable(value: string) { value != "" && ByteLength(value) <= MAX_OPTION_VALUE && !HasControl(value) }

  /** `strconv.ParseBool` of a lower-case text. */
  function ParseBool(s: string): Option<bool> {
    if s == "true" || s == "t" || s == "1" then Some(true)
    else if s == "false" || s == "f" || s == "0" then Some(false)
    else None
  }

  function FormatBool(b: bool): string { if b then "true" else "false" }

  predicate InBounds(x: int, spec: OptionSpec) {
    && (spec.min.Some? ==> spec.min.value <= x)
    && (spec.max.Some? ==> x <= spec.max.value)
  }

  function NormalizeInteger(value: string, spec: OptionSpec): Option<string> {
    match ParseInt(value)
    case None => None
    case Some(x) => if InBounds(x, spec) then Some(FormatInt(x)) else None
  }

  /** `normalizeOptionValue`. */
  function NormalizeValue(raw: string, spec: OptionSpec): Option<string> {
    var value := Trim(raw);
    if !Readable(value) then None
    else match spec.kind
      case StringOption => Some(value)
      case BooleanOption =>
        (match ParseBool(Lower(value)) case None => None case Some(b) => Some(FormatBool(b)))
      case IntegerOption => NormalizeInteger(value, spec)
      case EnumOption => if Lower(value) in spec.allowed then Some(Lower(value)) else None
      case UnknownKind => None
  }

  /** A normalized value is normal: reading it again gives it back. */
  lemma NormalizeValueTwice(raw: string, spec: OptionSpec)
    requires NormalizeValue(raw, spec).Some?
    ensures NormalizeValue(NormalizeValue(raw, spec).value, spec) == NormalizeValue(raw, spec)
  {
    var value := Trim(raw);
    TrimIsIdempotent(raw);
    match spec.kind
    case StringOption =>
    case BooleanOption => BooleansAreNormal(ParseBool(Lower(value)).value);
    case IntegerOption =>
      var x := ParseInt(value).value;
      IntegersAreNormal(x);
      ParseFormatted(x);
    case EnumOption =>
      LowerKeeps(value);
      LowerKeepsTrimmed(value);
  }

  /** What an option value says, apart from how it is written. */
  datatype Meaning = Words(text: string) | Flag(flag: bool) | Number(number: int)

  function MeaningOf(raw: string, spec: OptionSpec): Option<Meaning> {
    match spec.kind
    case StringOption => Some(Words(Trim(raw)))
    case BooleanOption => (match ParseBool(Lower(Trim(raw))) case None => None case Some(b) => Some(Flag(b)))
    case IntegerOption => (match ParseInt(Trim(raw)) case None => None case Some(x) => Some(Number(x)))
    case EnumOption => Some(Words(Lower(Trim(raw))))
    case UnknownKind => None
  }

  /** Which values an option takes. */
  predicate Takes(spec: OptionSpec, m: Meaning) {
    match spec.kind
    case IntegerOption => m.Number? && InBounds(m.number, spec)
    case EnumOption => m.Words? && m.text in spec.allowed
    case _ => true
  }

  /** A value is accepted exactly when it is readable, says something the option takes, and its normal form says
      the same; two accepted values have one normal form exactly when they say the same. */
  lemma ValuesByMeaning(a: string, b: string, spec: OptionSpec)
    ensures NormalizeValue(a, spec).Some? <==>
      Readable(Trim(a)) && MeaningOf(a, spec).Some? && Takes(spec, MeaningOf(a, spec).value)
    ensures NormalizeValue(a, spec).Some? ==> MeaningOf(NormalizeValue(a, spec).value, spec) == MeaningOf(a, spec)
    ensures NormalizeValue(a, spec).Some? && NormalizeValue(b, spec).Some? ==>
      (NormalizeValue(a, spec) == NormalizeValue(b, spec) <==> MeaningOf(a, spec) == MeaningOf(b, spec))
  {
    hide Trim, Lower, ParseInt, FormatInt, Readable, ParseBool, FormatBool;
    if NormalizeValue(a, spec).Some? {
      ValueKeepsMeaning(a, spec);
    }
    if NormalizeValue(b, spec).Some? {
      ValueKeepsMeaning(b, spec);
    }
  }

  lemma ValueKeepsMeaning(a: string, spec: OptionSpec)
    requires NormalizeValue(a, spec).Some?
    ensures MeaningOf(NormalizeValue(a, spec).value, spec) == MeaningOf(a, spec)
  {
    hide Lower, FormatInt, Readable, ParseBool;
    var value := Trim(a);
    TrimIsIdempotent(a);
    match spec.kind
    case StringOption =>
    case BooleanOption => BooleansAreNormal(ParseBool(Lower(value)).value);
    case IntegerOption =>
      var x := ParseInt(value).value;
      IntegersAreNormal(x);
      ParseFormatted(x);
    case EnumOption =>
      LowerKeeps(value);
      LowerKeepsTrimmed(value);
  }

  lemma BooleansAreNormal(b: bool)
    ensures Trim(FormatBool(b)) == FormatBool(b) && Readable(FormatBool(b))
    ensures ParseBool(Lower(FormatBool(b))) == Some(b)
  {
    hide Trim, HasControl, ByteLength;
    var s := FormatBool(b);
    PlainText(s);
    assert Lower(s) == s by { hide Lower; }
  }

  lemma IntegersAreNormal(x: int)
    requires MIN_INT64 <= x <= MAX_INT64
    ensures Trim(FormatInt(x)) == FormatInt(x) && Readable(FormatInt(x))
  {
    var n := if x < 0 then -x else x;
    CountDecimal(n);
    assert n < TenTo(19) by {
      assert TenTo(6) == 1_000_000;
      assert TenTo(12) == 1_000_000_000_000;
      assert TenTo(18) == 1_000_000_000_000_000_000;
    }
    DecimalLength(n, 18);
    PlainText(FormatInt(x));
  }

  /** Printable ASCII without spaces needs no trimming and takes one byte a character. */
  lemma {:induction false} PlainText(s: string)
    requires forall i | 0 <= i < |s| :: ' ' < s[i] < '\U{7F}'
    ensures Trim(s) == s && !HasControl(s) && ByteLength(s) == |s|
  {
    if s != "" {
      assert TrimLeft(s) == s && TrimRight(s) == s;
      PlainText(s[1..]);
    }
  }

  lemma {:induction false} DecimalLength(n: nat, d: nat)
    requires n < TenTo(d + 1)
    ensures |Decimal(n)| <= d + 1
    decreases d
  {
    if n >= 10 {
      DecimalLength(n / 10, d - 1);
    }
  }

  function TenTo(d: nat): nat { if d == 0 then 1 else 10 * TenTo(d - 1) }

  // ---------------------------------------------------------------------------------------------
  // Option specifications
  // ---------------------------------------------------------------------------------------------

  /** The allowed values of an enum, trimmed and lowered; refused when one is unusable or repeated. */
  function NormalizeEnum(allowed: seq<string>): Option<seq<string>> {
    var values := Sorting.Map(LowerTrimmed, allowed);
    if values != [] && (forall v <- values :: Readable(v)) && Sorting.Distinct(values, Same) then Some(values)
    else None
  }

  function LowerTrimmed(s: string): string { Lower(Trim(s)) }

  function Same(s: string): string { s }

  /** `compileOptionSpec`. */
  function CompileOption(spec: OptionSpec): Option<OptionSpec> {
    if spec.kind == UnknownKind || (spec.required && spec.default.Some?) then None
    else if spec.kind != IntegerOption && (spec.min.Some? || spec.max.Some?) then None
    else if spec.min.Some? && spec.max.Some? && spec.min.value > spec.max.value then None
    else if spec.kind != EnumOption && spec.allowed != [] then None
    else
      var allowed := if spec.kind == EnumOption then NormalizeEnum(spec.allowed) else Some([]);
      if allowed.None? then None
      else
        var compiled := spec.(allowed := allowed.value);
        if spec.default.None? then Some(compiled)
        else match NormalizeValue(spec.default.value, compiled)
          case None => None
          case Some(value) => Some(compiled.(default := Some(value)))
  }

  /** What a compiled option promises: its default, if any, is a normal value of it, and required options have none. */
  predicate OptionKept(spec: OptionSpec) {
    spec.default.Some? ==> !spec.required && NormalizeValue(spec.default.value, spec) == spec.default
  }

  lemma CompiledOptionIsKept(spec: OptionSpec)
    requires CompileOption(spec).Some?
    ensures OptionKept(CompileOption(spec).value)
  {
    hide NormalizeEnum;
    var compiled := CompileOption(spec).value;
    if spec.default.Some? {
      var bare := compiled.(default := spec.default);
      NormalizeValueTwice(spec.default.value, bare);
      DefaultIsNoMatter(compiled.default.value, bare, compiled);
      DefaultIsNoMatter(spec.default.value, bare, compiled);
    }
  }

  /** A value's normal form does not depend on the default. */
  lemma DefaultIsNoMatter(raw: string, a: OptionSpec, b: OptionSpec)
    requires a == b.(default := a.default)
    ensures NormalizeValue(raw, a) == NormalizeValue(raw, b)
  {
    hide Trim, Lower, ParseInt, Readable;
  }

  // ---------------------------------------------------------------------------------------------
  // Bindings
  // ---------------------------------------------------------------------------------------------

  datatype Capability = Session | Memory | Summary | Knowledge | Artifact | Audit | Unlisted(name: string)

  function Rank(c: Capability): nat {
    match c
    case Session => 0
    case Memory => 1
    case Summary => 2
    case Knowledge => 3
    case Artifact => 4
    case Audit => 5
    case Unlisted(_) => 6
  }

  datatype Policy = Forbidden | Optional | Required

  datatype Binding = Binding(
    capability: Capability, provider: string, endpoint: string, options: map<string, string>, secretRef: string)

  /** A compiled provider; `canon` is its canonical form of an endpoint. */
  datatype Spec = Spec(
    provider: string, endpointPolicy: Policy, secretPolicy: Policy, options: map<string, OptionSpec>,
    canon: string -> Option<string>)

  datatype Catalog = Catalog(providers: map<Capability, map<string, Spec>>, sensitive: string -> bool)

  predicate NameChar(c: char) { 'a' <= c <= 'z' || '0' <= c <= '9' || c == '_' }

  predicate ValidOptionKey(key: string) {
    1 <= |key| <= 64 && 'a' <= key[0] <= 'z' && forall i | 0 <= i < |key| :: NameChar(key[i])
  }

  predicate ValidProvider(name: string) {
    1 <= |name| <= 64 && 'a' <= name[0] <= 'z' && forall i | 0 <= i < |name| :: NameChar(name[i]) || name[i] == '-'
  }

  function NormalizeEndpoint(raw: string, spec: Spec): Option<string> {
    var endpoint := Trim(raw);
    if endpoint == "" then if spec.endpointPolicy == Required then None else Some("")
    else if spec.endpointPolicy == Forbidden then None
    else spec.canon(endpoint)
  }

  predicate SecretChar(c: char, first: bool) {
    || 'a' <= c <= 'z' || 'A' <= c <= 'Z' || '0' <= c <= '9'
    || (!first && (c == '.' || c == '_' || c == ':' || c == '/' || c == '-'))
  }

  predicate ValidSecretRef(ref: string) {
    1 <= |ref| <= 256 && forall i | 0 <= i < |ref| :: SecretChar(ref[i], i == 0)
  }

  function NormalizeSecretRef(raw: string, policy: Policy): Option<string> {
    var ref := Trim(raw);
    if ref == "" then if policy == Required then None else Some("")
    else if policy == Forbidden || !ValidSecretRef(ref) then None
    else Some(ref)
  }

  predicate KeyAccepted(key: string, sensitive: string -> bool) {
    LowerTrimmed(key) == key && ValidOptionKey(key) && !sensitive(key)
  }

  /** Every given option is known and well-formed, and every required one is given. */
  predicate OptionsAccepted(options: map<string, string>, specs: map<string, OptionSpec>, sensitive: string -> bool) {
    && (forall key <- options ::
          KeyAccepted(key, sensitive) && key in specs && NormalizeValue(options[key], specs[key]).Some?)
    && (forall key <- specs :: key in options || specs[key].default.Some? || !specs[key].required)
  }

  /** The given options normalized, and the defaults of the others. */
  function NormalOptions(options: map<string, string>, specs: map<string, OptionSpec>): map<string, string>
    requires forall key <- options :: key in specs && NormalizeValue(options[key], specs[key]).Some?
  {
    map key | key in specs && (key in options || specs[key].default.Some?) ::
      if key in options then NormalizeValue(options[key], specs[key]).value else specs[key].default.value
  }

  /** `normalizeBinding` for a provider. */
  function NormalizeWith(b: Binding, spec: Spec, sensitive: string -> bool): Option<Binding> {
    var endpoint, secretRef := NormalizeEndpoint(b.endpoint, spec), NormalizeSecretRef(b.secretRef, spec.secretPolicy);
    if endpoint.None? || secretRef.None? || !OptionsAccepted(b.options, spec.options, sensitive) then None
    else Some(Binding(b.capability, spec.provider, endpoint.value, NormalOptions(b.options, spec.options), secretRef.value))
  }

  function NormalizeBinding(c: Catalog, b: Binding): Option<Binding> {
    var provider := LowerTrimmed(b.provider);
    if b.capability.Unlisted? || !ValidProvider(provider) then None
    else if b.capability !in c.providers || provider !in c.providers[b.capability] then None
    else NormalizeWith(b, c.providers[b.capability][provider], c.sensitive)
  }

  // ---------------------------------------------------------------------------------------------
  // A normalized binding is normal
  // ---------------------------------------------------------------------------------------------

  /** A canonical endpoint is its own canonical form, and needs no trimming. */
  ghost predicate CanonIsStable(canon: string -> Option<string>) {
    forall e :: canon(e).Some? ==>
      canon(e).value != "" && Trim(canon(e).value) == canon(e).value && canon(canon(e).value) == canon(e)
  }

  /** What the catalog's constructor establishes for each provider. */
  ghost predicate SpecKept(spec: Spec, name: string, sensitive: string -> bool) {
    && spec.provider == name && ValidProvider(name)
    && CanonIsStable(spec.canon)
    && forall key <- spec.options :: KeyAccepted(key, sensitive) && OptionKept(spec.options[key])
  }

  ghost predicate CatalogKept(c: Catalog) { ProvidersKept(c.providers, c.sensitive) }

  // ---------------------------------------------------------------------------------------------
  // The catalog
  // ---------------------------------------------------------------------------------------------

  /** A provider as it is declared. */
  datatype ProviderSpec = ProviderSpec(
    provider: string, capabilities: seq<Capability>, endpointPolicy: Policy, schemes: seq<string>,
    secretPolicy: Policy, options: map<string, OptionSpec>)

  /** The canonical form of an endpoint under some allowed schemes, and the sensitive option keys. */
  datatype Rules = Rules(canon: set<string> -> (string -> Option<string>), sensitive: string -> bool)

  predicate ValidScheme(s: string) {
    && s != "" && 'a' <= s[0] <= 'z'
    && forall i | 0 <= i < |s| :: 'a' <= s[i] <= 'z' || '0' <= s[i] <= '9' || s[i] == '+' || s[i] == '-' || s[i] == '.'
  }

  /** `compileEndpointSchema`. */
  predicate SchemesAccepted(policy: Policy, schemes: seq<string>) {
    && (forall s <- schemes :: LowerTrimmed(s) == s && ValidScheme(s)) && Sorting.Distinct(schemes, Same)
    && (policy == Forbidden <==> schemes == [])
  }

  function SameCapability(c: Capability): Capability { c }

  predicate CapabilitiesAccepted(capabilities: seq<Capability>) {
    && capabilities != [] && (forall c <- capabilities :: !c.Unlisted?)
    && Sorting.Distinct(capabilities, SameCapability)
  }

  /** `compileProviderSpec`. */
  function CompileProvider(p: ProviderSpec, rules: Rules): Option<Spec> {
    if LowerTrimmed(p.provider) != p.provider || !ValidProvider(p.provider) then None
    else if !CapabilitiesAccepted(p.capabilities) || !SchemesAccepted(p.endpointPolicy, p.schemes) then None
    else if !(forall key <- p.options :: KeyAccepted(key, rules.sensitive) && CompileOption(p.options[key]).Some?) then None
    else Some(Spec(p.provider, p.endpointPolicy, p.secretPolicy,
                   map key | key in p.options :: CompileOption(p.options[key]).value,
                   rules.canon(set s <- p.schemes)))
  }

  type Providers = map<Capability, map<string, Spec>>

  /** Registers a provider for the first `n` of its capabilities; a second registration is refused. */
  function AddFor(providers: Providers, capabilities: seq<Capability>, n: nat, spec: Spec): Option<Providers>
    requires n <= |capabilities|
  {
    if n == 0 then Some(providers)
    else match AddFor(providers, capabilities, n - 1, spec)
      case None => None
      case Some(before) =>
        var c := capabilities[n - 1];
        var byName := if c in before then before[c] else map[];
        if spec.provider in byName then None else Some(before[c := byName[spec.provider := spec]])
  }

  function AddAll(specs: seq<ProviderSpec>, n: nat, rules: Rules): Option<Providers>
    requires n <= |specs|
  {
    if n == 0 then Some(map[])
    else match (AddAll(specs, n - 1, rules), CompileProvider(specs[n - 1], rules))
      case (Some(before), Some(spec)) => AddFor(before, specs[n - 1].capabilities, |specs[n - 1].capabilities|, spec)
      case _ => None
  }

  /** `NewProviderCatalog`. */
  function NewCatalog(specs: seq<ProviderSpec>, rules: Rules): Option<Catalog> {
    if specs == [] then None
    else match AddAll(specs, |specs|, rules)
      case None => None
      case Some(providers) => Some(Catalog(providers, rules.sensitive))
  }

  ghost predicate ProvidersKept(providers: Providers, sensitive: string -> bool) {
    forall capability <- providers, name <- providers[capability] ::
      SpecKept(providers[capability][name], name, sensitive)
  }

  lemma CompiledProviderIsKept(p: ProviderSpec, rules: Rules)
    requires CompileProvider(p, rules).Some? && forall schemes :: CanonIsStable(rules.canon(schemes))
    ensures SpecKept(CompileProvider(p, rules).value, p.provider, rules.sensitive)
  {
    hide CompileOption, OptionKept, KeyAccepted, CanonIsStable, LowerTrimmed, ValidProvider;
    forall key <- p.options ensures OptionKept(CompileOption(p.options[key]).value) {
      CompiledOptionIsKept(p.options[key]);
    }
  }

  lemma {:induction false} AddForKeeps(providers: Providers, capabilities: seq<Capability>, n: nat, spec: Spec, sensitive: string -> bool)
    requires n <= |capabilities| && AddFor(providers, capabilities, n, spec).Some?
    requires ProvidersKept(providers, sensitive) && SpecKept(spec, spec.provider, sensitive)
    ensures ProvidersKept(AddFor(providers, capabilities, n, spec).value, sensitive)
    ensures n > 0 || providers != map[] ==> AddFor(providers, capabilities, n, spec).value != map[]
  {
    hide SpecKept;
    if n > 0 {
      AddForKeeps(providers, capabilities, n - 1, spec, sensitive);
      assert capabilities[n - 1] in AddFor(providers, capabilities, n, spec).value;
    }
  }

  lemma {:induction false} AddAllKeeps(specs: seq<ProviderSpec>, n: nat, rules: Rules)
    requires n <= |specs| && AddAll(specs, n, rules).Some? && forall schemes :: CanonIsStable(rules.canon(schemes))
    ensures ProvidersKept(AddAll(specs, n, rules).value, rules.sensitive)
    ensures n > 0 ==> AddAll(specs, n, rules).value != map[]
  {
    hide SpecKept, ProvidersKept, AddFor, CompileProvider, CanonIsStable;
    if n == 0 {
      NoProviders(rules.sensitive);
    } else {
      AddAllKeeps(specs, n - 1, rules);
      var p := specs[n - 1];
      CompiledProviderIsKept(p, rules);
      CompiledName(p, rules);
      AddForKeeps(AddAll(specs, n - 1, rules).value, p.capabilities, |p.capabilities|, CompileProvider(p, rules).value, rules.sensitive);
    }
  }

  lemma NoProviders(sensitive: string -> bool)
    ensures ProvidersKept(map[], sensitive)
  {
  }

  lemma CompiledName(p: ProviderSpec, rules: Rules)
    requires CompileProvider(p, rules).Some?
    ensures CompileProvider(p, rules).value.provider == p.provider && p.capabilities != []
  {
    hide CompileOption, LowerTrimmed, ValidProvider, KeyAccepted;
  }

  /** A catalog the constructor accepts is not empty, and each of its providers has normal options and defaults. */
  lemma NewCatalogIsKept(specs: seq<ProviderSpec>, rules: Rules)
    requires NewCatalog(specs, rules).Some? && forall schemes :: CanonIsStable(rules.canon(schemes))
    ensures CatalogKept(NewCatalog(specs, rules).value) && NewCatalog(specs, rules).value.providers != map[]
  {
    hide SpecKept, CanonIsStable, AddAll;
    AddAllKeeps(specs, |specs|, rules);
  }

  /** A compiled option takes the declared values and has the declared default, in normal form. */
  predicate Compiles(o: OptionSpec, o': OptionSpec) {
    && (o'.kind, o'.required, o'.min, o'.max) == (o.kind, o.required, o.min, o.max)
    && |o'.allowed| == |o.allowed| && (forall i | 0 <= i < |o.allowed| :: o'.allowed[i] == LowerTrimmed(o.allowed[i]))
    && (o'.default.Some? <==> o.default.Some?)
    && (o.default.Some? ==> MeaningOf(o'.default.value, o') == MeaningOf(o.default.value, o'))
  }

  lemma CompiledOptionSays(o: OptionSpec)
    requires CompileOption(o).Some?
    ensures Compiles(o, CompileOption(o).value)
  {
    hide NormalizeValue, MeaningOf, LowerTrimmed, Readable, Takes, Sorting.Map;
    if o.default.Some? {
      var compiled := CompileOption(o).value;
      ValuesByMeaning(o.default.value, o.default.value, compiled);
      DefaultIsNoMatter(o.default.value, compiled.(default := o.default), compiled);
    }
  }

  /** A compiled provider is the declared one, with every option compiled and no other. */
  lemma CompiledProviderSays(p: ProviderSpec, rules: Rules)
    requires CompileProvider(p, rules).Some?
    ensures var spec := CompileProvider(p, rules).value;
      && (spec.provider, spec.endpointPolicy, spec.secretPolicy) == (p.provider, p.endpointPolicy, p.secretPolicy)
      && spec.canon == rules.canon(set s <- p.schemes)
      && spec.options.Keys == p.options.Keys && forall key <- p.options :: Compiles(p.options[key], spec.options[key])
  {
    hide CompileOption, Compiles, KeyAccepted, LowerTrimmed, ValidProvider;
    forall key <- p.options ensures Compiles(p.options[key], CompileOption(p.options[key]).value) {
      CompiledOptionSays(p.options[key]);
    }
  }

  /** Provider `name` is declared for the capability by one of the first `n` specifications, with this result. */
  ghost predicate Declares(specs: seq<ProviderSpec>, n: nat, rules: Rules, capability: Capability, name: string, spec: Spec)
    requires n <= |specs|
  {
    exists i | 0 <= i < n ::
      specs[i].provider == name && capability in specs[i].capabilities && CompileProvider(specs[i], rules) == Some(spec)
  }

  ghost predicate Registered(providers: Providers, capability: Capability, name: string, spec: Spec) {
    capability in providers && name in providers[capability] && providers[capability][name] == spec
  }

  lemma {:induction false} AddForRegisters(providers: Providers, capabilities: seq<Capability>, n: nat, spec: Spec,
                                           capability: Capability, name: string, found: Spec)
    requires n <= |capabilities| && AddFor(providers, capabilities, n, spec).Some?
    ensures Registered(AddFor(providers, capabilities, n, spec).value, capability, name, found) <==>
      Registered(providers, capability, name, found) || (capability in capabilities[..n] && name == spec.provider && found == spec)
  {
    if n > 0 {
      AddForRegisters(providers, capabilities, n - 1, spec, capability, name, found);
      AddForRegisters(providers, capabilities, n - 1, spec, capabilities[n - 1], name, found);
      assert capabilities[..n] == capabilities[..n - 1] + [capabilities[n - 1]];
    }
  }

  lemma {:induction false} AddAllRegisters(specs: seq<ProviderSpec>, n: nat, rules: Rules, capability: Capability, name: string, spec: Spec)
    requires n <= |specs| && AddAll(specs, n, rules).Some?
    ensures Registered(AddAll(specs, n, rules).value, capability, name, spec) <==> Declares(specs, n, rules, capability, name, spec)
  {
    hide AddFor, CompileProvider, Registered;
    if n == 0 {
      assert !Registered(map[], capability, name, spec) by { NothingRegistered(capability, name, spec); }
    } else {
      AddAllRegisters(specs, n - 1, rules, capability, name, spec);
      var p := specs[n - 1];
      var compiled := CompileProvider(p, rules).value;
      CompiledName(p, rules);
      AddForRegisters(AddAll(specs, n - 1, rules).value, p.capabilities, |p.capabilities|, compiled, capability, name, spec);
      assert p.capabilities[..|p.capabilities|] == p.capabilities;
    }
  }

  lemma NothingRegistered(capability: Capability, name: string, spec: Spec)
    ensures !Registered(map[], capability, name, spec)
  {
  }

  /** The catalog holds exactly the declared providers, each for its own capabilities. */
  lemma CatalogHoldsDeclared(specs: seq<ProviderSpec>, rules: Rules, capability: Capability, name: string, spec: Spec)
    requires NewCatalog(specs, rules).Some?
    ensures Registered(NewCatalog(specs, rules).value.providers, capability, name, spec) <==>
      Declares(specs, |specs|, rules, capability, name, spec)
  {
    hide AddAll, Registered, Declares;
    AddAllRegisters(specs, |specs|, rules, capability, name, spec);
  }

  lemma OptionsAreNormal(options: map<string, string>, specs: map<string, OptionSpec>, sensitive: string -> bool)
    requires OptionsAccepted(options, specs, sensitive)
    requires forall key <- specs :: KeyAccepted(key, sensitive) && OptionKept(specs[key])
    ensures OptionsAccepted(NormalOptions(options, specs), specs, sensitive)
    ensures NormalOptions(NormalOptions(options, specs), specs) == NormalOptions(options, specs)
  {
    hide NormalizeValue, KeyAccepted;
    var normal := NormalOptions(options, specs);
    forall key <- normal ensures NormalizeValue(normal[key], specs[key]) == Some(normal[key]) {
      if key in options {
        NormalizeValueTwice(options[key], specs[key]);
      }
    }
  }

  lemma NormalizedEndpointIsNormal(raw: string, spec: Spec)
    requires CanonIsStable(spec.canon) && NormalizeEndpoint(raw, spec).Some?
    ensures NormalizeEndpoint(NormalizeEndpoint(raw, spec).value, spec) == NormalizeEndpoint(raw, spec)
  {
    hide Trim;
    TrimIsIdempotent("");
    var e := NormalizeEndpoint(raw, spec).value;
    assert Trim("") == "" by { TrimOfEmpty(); }
  }

  lemma TrimOfEmpty()
    ensures Trim("") == ""
  {
  }

  lemma NormalizedSecretIsNormal(raw: string, policy: Policy)
    requires NormalizeSecretRef(raw, policy).Some?
    ensures NormalizeSecretRef(NormalizeSecretRef(raw, policy).value, policy) == NormalizeSecretRef(raw, policy)
  {
    hide Trim;
    TrimIsIdempotent(raw);
    TrimOfEmpty();
  }

  lemma ProviderNamesAreNormal(name: string)
    requires ValidProvider(name)
    ensures LowerTrimmed(name) == name
  {
    hide Trim, Lower, LowerChar, HasControl, ByteLength;
    forall i | 0 <= i < |name| ensures ' ' < name[i] < '\U{7F}' && LowerChar(name[i]) == name[i] {
      NameCharIsLower(name[i]);
    }
    PlainText(name);
    assert Lower(name) == name;
  }

  lemma NameCharIsLower(c: char)
    requires NameChar(c) || c == '-'
    ensures ' ' < c < '\U{7F}' && LowerChar(c) == c
  {
  }

  /** A binding's normal form is normal. */
  lemma NormalizedBindingIsNormal(c: Catalog, b: Binding)
    requires CatalogKept(c) && NormalizeBinding(c, b).Some?
    ensures NormalizeBinding(c, NormalizeBinding(c, b).value) == NormalizeBinding(c, b)
  {
    hide LowerTrimmed, NormalizeEndpoint, NormalizeSecretRef, OptionsAccepted, NormalOptions;
    var name := LowerTrimmed(b.provider);
    var spec := c.providers[b.capability][name];
    assert SpecKept(spec, name, c.sensitive);
    ProviderNamesAreNormal(name);
    NormalizedEndpointIsNormal(b.endpoint, spec);
    NormalizedSecretIsNormal(b.secretRef, spec.secretPolicy);
    OptionsAreNormal(b.options, spec.options, c.sensitive);
  }

  // ---------------------------------------------------------------------------------------------
  // What a normal form says
  // ---------------------------------------------------------------------------------------------

  /** What a binding says about an option of its provider: what it gives, or else the default. */
  function Effective(options: map<string, string>, specs: map<string, OptionSpec>, key: string): Option<Meaning>
    requires key in specs
  {
    if key in options then MeaningOf(options[key], specs[key])
    else if specs[key].default.Some? then MeaningOf(specs[key].default.value, specs[key])
    else None
  }

  lemma NormalOptionSays(options: map<string, string>, specs: map<string, OptionSpec>, sensitive: string -> bool, key: string)
    requires OptionsAccepted(options, specs, sensitive) && key in specs && OptionKept(specs[key])
    ensures var normal := NormalOptions(options, specs);
      && (key in normal <==> Effective(options, specs, key).Some?)
      && (key in normal ==> MeaningOf(normal[key], specs[key]) == Effective(options, specs, key))
  {
    hide NormalizeValue, MeaningOf, KeyAccepted, Takes;
    if key in options {
      ValuesByMeaning(options[key], options[key], specs[key]);
    } else if specs[key].default.Some? {
      ValuesByMeaning(specs[key].default.value, specs[key].default.value, specs[key]);
    }
  }

  lemma SameOptionsExactly(a: map<string, string>, b: map<string, string>, specs: map<string, OptionSpec>, sensitive: string -> bool)
    requires OptionsAccepted(a, specs, sensitive) && OptionsAccepted(b, specs, sensitive)
    requires forall key <- specs :: OptionKept(specs[key])
    ensures NormalOptions(a, specs) == NormalOptions(b, specs) <==>
      forall key <- specs :: Effective(a, specs, key) == Effective(b, specs, key)
  {
    hide NormalizeValue, MeaningOf, KeyAccepted, Takes;
    forall key <- specs
      ensures (key in NormalOptions(a, specs) <==> Effective(a, specs, key).Some?)
      ensures (key in NormalOptions(b, specs) <==> Effective(b, specs, key).Some?)
      ensures key in NormalOptions(a, specs) && key in NormalOptions(b, specs) ==>
        (NormalOptions(a, specs)[key] == NormalOptions(b, specs)[key] <==> Effective(a, specs, key) == Effective(b, specs, key))
    {
      OneOptionExactly(a, b, specs, sensitive, key);
    }
    hide NormalOptions, Effective;
    SameMaps(NormalOptions(a, specs), NormalOptions(b, specs), specs.Keys);
  }

  lemma OneOptionExactly(a: map<string, string>, b: map<string, string>, specs: map<string, OptionSpec>, sensitive: string -> bool,
                         key: string)
    requires OptionsAccepted(a, specs, sensitive) && OptionsAccepted(b, specs, sensitive)
    requires key in specs && OptionKept(specs[key])
    ensures var na, nb := NormalOptions(a, specs), NormalOptions(b, specs);
      && (key in na <==> Effective(a, specs, key).Some?) && (key in nb <==> Effective(b, specs, key).Some?)
      && (key in na && key in nb ==> (na[key] == nb[key] <==> Effective(a, specs, key) == Effective(b, specs, key)))
  {
    hide NormalizeValue, MeaningOf, KeyAccepted, Takes;
    NormalOptionSays(a, specs, sensitive, key);
    NormalOptionSays(b, specs, sensitive, key);
    if key in NormalOptions(a, specs) && key in NormalOptions(b, specs) {
      var x := if key in a then a[key] else specs[key].default.value;
      var y := if key in b then b[key] else specs[key].default.value;
      ValuesByMeaning(x, y, specs[key]);
    }
  }

  lemma SameMaps(a: map<string, string>, b: map<string, string>, keys: set<string>)
    requires a.Keys <= keys && b.Keys <= keys
    ensures a == b <==> forall key <- keys :: (key in a <==> key in b) && (key in a && key in b ==> a[key] == b[key])
  {
  }

  /** Two bindings ask for the same: of the same provider, at the same endpoint, with the same secret, and with the
      same meaning of every option, given or by default. */
  predicate AskTheSame(a: Binding, b: Binding, spec: Spec) {
    && a.capability == b.capability && LowerTrimmed(a.provider) == LowerTrimmed(b.provider)
    && NormalizeEndpoint(a.endpoint, spec) == NormalizeEndpoint(b.endpoint, spec) && Trim(a.secretRef) == Trim(b.secretRef)
    && forall key <- spec.options :: Effective(a.options, spec.options, key) == Effective(b.options, spec.options, key)
  }

  /** Accepted bindings have one normal form exactly when they ask for the same, and the normal form asks for it too. */
  lemma NormalFormByMeaning(c: Catalog, a: Binding, b: Binding)
    requires CatalogKept(c) && NormalizeBinding(c, a).Some? && NormalizeBinding(c, b).Some?
    ensures var spec := c.providers[a.capability][LowerTrimmed(a.provider)];
      && AskTheSame(NormalizeBinding(c, a).value, a, spec)
      && (NormalizeBinding(c, a) == NormalizeBinding(c, b) <==> AskTheSame(a, b, spec))
  {
    hide LowerTrimmed, NormalizeEndpoint, NormalizeSecretRef, OptionsAccepted, NormalOptions, Trim, Effective;
    var name := LowerTrimmed(a.provider);
    var spec := c.providers[a.capability][name];
    var normal := NormalizeBinding(c, a).value;
    assert SpecKept(spec, name, c.sensitive);
    assert SpecKept(c.providers[b.capability][LowerTrimmed(b.provider)], LowerTrimmed(b.provider), c.sensitive);
    NormalizedBindingIsNormal(c, a);
    NormalNameAndEndpoint(a, spec, name, c.sensitive);
    SecretIsTrimmed(a.secretRef, spec.secretPolicy);
    OptionsAreNormal(a.options, spec.options, c.sensitive);
    SameOptionsExactly(normal.options, a.options, spec.options, c.sensitive);
    if a.capability == b.capability && LowerTrimmed(b.provider) == name {
      SecretIsTrimmed(b.secretRef, spec.secretPolicy);
      SameOptionsExactly(a.options, b.options, spec.options, c.sensitive);
    }
  }

  lemma NormalNameAndEndpoint(a: Binding, spec: Spec, name: string, sensitive: string -> bool)
    requires SpecKept(spec, name, sensitive) && NormalizeEndpoint(a.endpoint, spec).Some?
    ensures LowerTrimmed(spec.provider) == name
    ensures NormalizeEndpoint(NormalizeEndpoint(a.endpoint, spec).value, spec) == NormalizeEndpoint(a.endpoint, spec)
  {
    hide LowerTrimmed, NormalizeEndpoint, ValidProvider;
    ProviderNamesAreNormal(name);
    NormalizedEndpointIsNormal(a.endpoint, spec);
  }

  lemma SecretIsTrimmed(raw: string, policy: Policy)
    requires NormalizeSecretRef(raw, policy).Some?
    ensures NormalizeSecretRef(raw, policy).value == Trim(raw) == Trim(Trim(raw))
  {
    hide Trim;
    TrimIsIdempotent(raw);
  }

  // ---------------------------------------------------------------------------------------------
  // Binding lists
  // ---------------------------------------------------------------------------------------------

  function CapabilityOf(b: Binding): Capability { b.capability }

  predicate ByRank(a: Binding, b: Binding) { Rank(a.capability) < Rank(b.capability) }

  /** One entry of a binding list: its normal form where it has one. */
  function Entry(c: Catalog, b: Binding): Binding {
    match NormalizeBinding(c, b) case None => b case Some(normal) => normal
  }

  /** Each binding in its normal form. */
  function Entries(c: Catalog, bindings: seq<Binding>): (r: seq<Binding>)
    ensures |r| == |bindings| && forall i | 0 <= i < |bindings| :: r[i] == Entry(c, bindings[i])
  {
    seq(|bindings|, i requires 0 <= i < |bindings| => Entry(c, bindings[i]))
  }

  predicate AllAccepted(c: Catalog, bindings: seq<Binding>) { forall b <- bindings :: NormalizeBinding(c, b).Some? }

  /** `NormalizeBindings`: each binding normal, one for each capability, in the order of the capabilities. */
  function NormalizeBindings(c: Catalog, bindings: seq<Binding>): Option<seq<Binding>> {
    if c.providers == map[] || !AllAccepted(c, bindings) || !Sorting.Distinct(bindings, CapabilityOf) then None
    else Some(Sorting.Sort(Entries(c, bindings), ByRank))
  }

  /** What every normalized list is. */
  ghost predicate Normal(c: Catalog, bindings: seq<Binding>) {
    && (forall b <- bindings :: NormalizeBinding(c, b) == Some(b))
    && Sorting.Sorted(bindings, ByRank)
  }

  lemma ByRankIsStrict()
    ensures Sorting.StrictOrder(ByRank)
  {
  }

  lemma EntryKeepsCapability(c: Catalog, b: Binding)
    ensures Entry(c, b).capability == b.capability
  {
    hide NormalizeEndpoint, NormalizeSecretRef, OptionsAccepted, NormalOptions, LowerTrimmed;
  }

  lemma AcceptedHaveRanks(c: Catalog, b: Binding)
    requires NormalizeBinding(c, b).Some?
    ensures !b.capability.Unlisted?
  {
  }

  lemma EntriesAreComparable(c: Catalog, bindings: seq<Binding>)
    requires AllAccepted(c, bindings) && Sorting.Distinct(bindings, CapabilityOf)
    ensures Sorting.Comparable(Entries(c, bindings), ByRank)
  {
    hide NormalizeBinding, Entries;
    var entries := Entries(c, bindings);
    forall i, j | 0 <= i < j < |entries| ensures ByRank(entries[i], entries[j]) || ByRank(entries[j], entries[i]) {
      EntryKeepsCapability(c, bindings[i]);
      EntryKeepsCapability(c, bindings[j]);
      AcceptedHaveRanks(c, bindings[i]);
      AcceptedHaveRanks(c, bindings[j]);
      assert CapabilityOf(bindings[i]) != CapabilityOf(bindings[j]);
    }
  }

  /** Normalization yields the normal form of exactly the given bindings. */
  lemma NormalizedListIsNormal(c: Catalog, bindings: seq<Binding>)
    requires CatalogKept(c) && NormalizeBindings(c, bindings).Some?
    ensures Normal(c, NormalizeBindings(c, bindings).value)
    ensures multiset(NormalizeBindings(c, bindings).value) == multiset(Entries(c, bindings))
  {
    hide NormalizeBinding, Entries, CatalogKept, Sorting.Distinct, Sorting.Sort;
    var entries, sorted := Entries(c, bindings), NormalizeBindings(c, bindings).value;
    ByRankIsStrict();
    EntriesAreComparable(c, bindings);
    Sorting.SortSorts(entries, ByRank);
    Sorting.SortPermutes(entries, ByRank);
    forall b <- sorted ensures NormalizeBinding(c, b) == Some(b) {
      assert b in multiset(sorted);
      var i :| 0 <= i < |entries| && entries[i] == b;
      NormalizedBindingIsNormal(c, bindings[i]);
    }
  }

  /** Exactly the normal lists are unchanged. */
  lemma NormalListIsFixed(c: Catalog, bindings: seq<Binding>)
    requires Normal(c, bindings) && c.providers != map[]
    ensures NormalizeBindings(c, bindings) == Some(bindings)
  {
    hide NormalizeBinding, Sorting.Sort;
    ByRankIsStrict();
    assert Entries(c, bindings) == bindings;
    assert Sorting.Distinct(bindings, CapabilityOf) by {
      forall i, j | 0 <= i < j < |bindings| ensures CapabilityOf(bindings[i]) != CapabilityOf(bindings[j]) {
        assert ByRank(bindings[i], bindings[j]);
      }
    }
    Sorting.SortOfSorted(bindings, ByRank);
  }

  /** Normalizing twice changes nothing more. */
  lemma NormalizeIsIdempotent(c: Catalog, bindings: seq<Binding>)
    requires CatalogKept(c) && NormalizeBindings(c, bindings).Some?
    ensures NormalizeBindings(c, NormalizeBindings(c, bindings).value) == NormalizeBindings(c, bindings)
  {
    hide CatalogKept, Normal, AllAccepted, Sorting.Distinct, Sorting.Sort, Entries;
    NormalizedListIsNormal(c, bindings);
    NormalListIsFixed(c, NormalizeBindings(c, bindings).value);
  }

  lemma EntriesWithout(c: Catalog, bindings: seq<Binding>, k: nat)
    requires k < |bindings|
    ensures Entries(c, Sorting.Without(bindings, k)) == Sorting.Without(Entries(c, bindings), k)
  {
    hide Entries, Entry;
    var a, b := Entries(c, Sorting.Without(bindings, k)), Sorting.Without(Entries(c, bindings), k);
    assert |a| == |b|;
    forall i | 0 <= i < |a| ensures a[i] == b[i] {
      assert Sorting.Without(bindings, k)[i] == if i < k then bindings[i] else bindings[i + 1];
    }
  }

  lemma {:induction false} EntriesPermute(c: Catalog, a: seq<Binding>, b: seq<Binding>)
    requires multiset(a) == multiset(b)
    ensures multiset(Entries(c, a)) == multiset(Entries(c, b))
    decreases |a|
  {
    hide Entries, Entry;
    assert |a| == |multiset(a)| == |multiset(b)| == |b|;
    if a != [] {
      assert a[0] in multiset(b);
      var k :| 0 <= k < |b| && b[k] == a[0];
      Sorting.WithoutRemoves(a, 0);
      Sorting.WithoutRemoves(b, k);
      EntriesPermute(c, Sorting.Without(a, 0), Sorting.Without(b, k));
      EntriesWithout(c, a, 0);
      EntriesWithout(c, b, k);
      Sorting.WithoutRemoves(Entries(c, a), 0);
      Sorting.WithoutRemoves(Entries(c, b), k);
    }
  }

  /** The order in which bindings are given does not matter. */
  lemma BindingOrderIsIrrelevant(c: Catalog, a: seq<Binding>, b: seq<Binding>)
    requires multiset(a) == multiset(b)
    ensures NormalizeBindings(c, a) == NormalizeBindings(c, b)
  {
    hide NormalizeBinding, Entries, Sorting.Distinct, Sorting.Sort;
    assert forall x :: x in a <==> x in multiset(a);
    assert forall x :: x in b <==> x in multiset(b);
    Sorting.DistinctPermutes(a, b, CapabilityOf);
    EntriesPermute(c, a, b);
    if AllAccepted(c, a) && Sorting.Distinct(a, CapabilityOf) {
      ByRankIsStrict();
      EntriesAreComparable(c, a);
      EntriesAreComparable(c, b);
      Sorting.SortIsCanonical(Entries(c, a), Entries(c, b), ByRank);
    }
  }

  /** The loop with its table of seen capabilities. */
  method NormalizeBindingList(c: Catalog, bindings: seq<Binding>) returns (r: Option<seq<Binding>>)
    ensures r == NormalizeBindings(c, bindings)
  {
    hide NormalizeBinding, Entries, Sorting.Distinct, Sorting.KeySet, Sorting.Sort;
    if c.providers == map[] {
      return None;
    }
    var result, seen := [], {};
    assert bindings[..0] == [];
    NoBindings();
    for i := 0 to |bindings|
      invariant result == Entries(c, bindings[..i]) && AllAccepted(c, bindings[..i])
      invariant seen == Sorting.KeySet(bindings[..i], CapabilityOf)
      invariant Sorting.Distinct(bindings[..i], CapabilityOf)
    {
      var binding := bindings[i];
      assert bindings[..i + 1] == bindings[..i] + [binding];
      Sorting.DistinctAppend(bindings[..i], binding, CapabilityOf);
      if binding.capability in seen {
        Sorting.PrefixIsDistinct(bindings, i + 1, CapabilityOf);
        return None;
      }
      seen := seen + {binding.capability};
      var normalized := NormalizeBinding(c, binding);
      if normalized.None? {
        assert binding in bindings;
        return None;
      }
      result := result + [normalized.value];
    }
    assert bindings[..|bindings|] == bindings;
    return Some(Sorting.Sort(result, ByRank));
  }

  lemma NoBindings()
    ensures Sorting.Distinct([], CapabilityOf) && Sorting.KeySet([], CapabilityOf) == {}
  {
  }
}
