/**
 Length-prefixed identities. Each part of a key is written as its byte count in decimal, a colon and
 its bytes; a `char` stands for one byte here. Runner identities put such a key behind the tenant,
 and idempotency keys are such keys.
 */
module Identity {
  import opened Options
  import opened Decimals
  import Ulid

  // ---------------------------------------------------------------------------------------------
  // One part
  // ---------------------------------------------------------------------------------------------

  function Part(part: string): string { Decimal(|part|) + ":" + part }

  /** Where the first colon is, or the length when there is none. */
  function Colon(text: string): (c: nat)
    ensures c <= |text|
    ensures c < |text| ==> text[c] == ':'
    ensures forall i | 0 <= i < c :: text[i] != ':'
  {
    if text == "" || text[0] == ':' then 0 else 1 + Colon(text[1..])
  }

  /** Splits a text that begins with a part into the part and what follows it. */
  function ReadPart(text: string): Option<(string, string)> {
    var c := Colon(text);
    if c == |text| || !Canonical(text[..c]) then None
    else
      var n, rest := Count(text[..c]), text[c + 1..];
      if n > |rest| then None else Some((rest[..n], rest[n..]))
  }

  lemma ReadPartOf(part: string, rest: string)
    ensures ReadPart(Part(part) + rest) == Some((part, rest))
  {
    var d, text := Decimal(|part|), Part(part) + rest;
    CountDecimal(|part|);
    assert text == d + ":" + (part + rest);
    assert text[|d|] == ':';
    assert forall i | 0 <= i < |d| :: text[i] == d[i] && IsDecimal(text[i]);
    assert Colon(text) == |d|;
    assert text[..|d|] == d && text[|d| + 1..] == part + rest;
  }

  lemma PartRead(text: string)
    requires ReadPart(text).Some?
    ensures Part(ReadPart(text).value.0) + ReadPart(text).value.1 == text
    ensures |ReadPart(text).value.1| < |text|
  {
    hide Colon, Count, Decimal;
    var c := Colon(text);
    DecimalCount(text[..c]);
    var rest := text[c + 1..];
    assert text == text[..c] + ":" + rest;
    assert rest == ReadPart(text).value.0 + ReadPart(text).value.1;
  }

  // ---------------------------------------------------------------------------------------------
  // Part lists
  // ---------------------------------------------------------------------------------------------

  function Encode(parts: seq<string>): string {
    if parts == [] then "" else Part(parts[0]) + Encode(parts[1..])
  }

  /** The parts of an encoding; `None` for a text that is not one. */
  function Decode(text: string): Option<seq<string>>
    decreases |text|
  {
    if text == "" then Some([])
    else match ReadPart(text)
      case None => None
      case Some(read) =>
        PartRead(text);
        match Decode(read.1)
        case None => None
        case Some(parts) => Some([read.0] + parts)
  }

  lemma PartIsThere(part: string)
    ensures Part(part) != ""
  {
  }

  /** Decoding recovers every part. */
  lemma {:induction false} DecodeEncode(parts: seq<string>)
    ensures Decode(Encode(parts)) == Some(parts)
  {
    hide Part, ReadPart;
    if parts != [] {
      DecodeEncode(parts[1..]);
      ReadPartOf(parts[0], Encode(parts[1..]));
      PartIsThere(parts[0]);
      assert parts == [parts[0]] + parts[1..];
    }
  }

  /** The decoder accepts encodings only. */
  lemma {:induction false} EncodeDecode(text: string)
    requires Decode(text).Some?
    ensures Encode(Decode(text).value) == text
    decreases |text|
  {
    if text != "" {
      PartRead(text);
      var read := ReadPart(text).value;
      EncodeDecode(read.1);
      var parts := Decode(text).value;
      assert parts[1..] == Decode(read.1).value;
    }
  }

  lemma EncodeIsInjective(a: seq<string>, b: seq<string>)
    ensures Encode(a) == Encode(b) <==> a == b
  {
    DecodeEncode(a);
    DecodeEncode(b);
  }

  lemma NextPart(parts: seq<string>, i: nat)
    requires i <= |parts|
    ensures Encode(parts[i..]) == if i == |parts| then "" else Part(parts[i]) + Encode(parts[i + 1..])
  {
    hide Part;
    assert i < |parts| ==> parts[i..][0] == parts[i] && parts[i..][1..] == parts[i + 1..];
  }

  /** The builder loop. */
  method EncodeIdentityParts(parts: seq<string>) returns (text: string)
    ensures text == Encode(parts)
  {
    hide Decimal, Encode;
    text := "";
    NextPart(parts, |parts|);
    assert parts[0..] == parts;
    for i := 0 to |parts|
      invariant text + Encode(parts[i..]) == Encode(parts)
    {
      NextPart(parts, i);
      assert text + (Part(parts[i]) + Encode(parts[i + 1..])) == text + Part(parts[i]) + Encode(parts[i + 1..]);
      text := text + Decimal(|parts[i]|);
      text := text + ":";
      text := text + parts[i];
    }
  }

  // ---------------------------------------------------------------------------------------------
  // Identities behind a tenant
  // ---------------------------------------------------------------------------------------------

  function Namespaced(tenant: string, external: string): Option<string> {
    if external == "" then None else Some(Part(tenant) + ":" + Part(external))
  }

  /** The tenant and external identity of a namespaced one. */
  function Unscope(text: string): Option<(string, string)> {
    match ReadPart(text)
    case None => None
    case Some(tenant) =>
      if tenant.1 == "" || tenant.1[0] != ':' then None
      else match ReadPart(tenant.1[1..])
        case None => None
        case Some(external) =>
          if external.0 == "" || external.1 != "" then None else Some((tenant.0, external.0))
  }

  lemma UnscopeNamespaced(tenant: string, external: string)
    requires external != ""
    ensures Unscope(Namespaced(tenant, external).value) == Some((tenant, external))
  {
    var tail := ":" + Part(external);
    assert Namespaced(tenant, external).value == Part(tenant) + tail;
    ReadPartOf(tenant, tail);
    assert tail[1..] == Part(external) + "";
    ReadPartOf(external, "");
  }

  lemma NamespacedUnscope(text: string)
    requires Unscope(text).Some?
    ensures Namespaced(Unscope(text).value.0, Unscope(text).value.1) == Some(text)
  {
    hide Part, ReadPart;
    PartRead(text);
    var tail := ReadPart(text).value.1;
    PartRead(tail[1..]);
    assert tail == ":" + tail[1..];
    var tenant, external := Unscope(text).value.0, Unscope(text).value.1;
    assert tail[1..] == Part(external) + "" == Part(external);
    assert Part(tenant) + (":" + Part(external)) == Part(tenant) + ":" + Part(external);
  }

  // ---------------------------------------------------------------------------------------------
  // Runner identities of one dispatch
  // ---------------------------------------------------------------------------------------------

  datatype RunnerIdentity = RunnerIdentity(userId: string, sessionId: string)

  /** Who sends a message: a channel binding behind a trusted routing target, or an API subject. */
  datatype Caller =
    | ChannelCaller(tenant: string, channel: string, binding: string, trusted: bool)
    | ApiCaller(tenant: string, app: string, subject: string)

  datatype Message = Message(user: string, kind: string, peer: string, chat: string, thread: string)

  function NewRunnerIdentity(tenant: string, user: string, session: string): Option<RunnerIdentity> {
    if !Ulid.ValidTenantId(tenant) then None
    else match (Namespaced(tenant, user), Namespaced(tenant, session))
      case (Some(userId), Some(sessionId)) => Some(RunnerIdentity(userId, sessionId))
      case _ => None
  }

  /** The character and length rules for external identifiers. */
  datatype Checks = Checks(clean: string -> bool, short: string -> bool) {
    predicate Usable(id: string) { id != "" && clean(id) && short(id) }
  }

  const CHANNELS := {"wecom", "telegram"}

  /** The conversation a session belongs to: the chat of a group, the peer otherwise. */
  function Conversation(m: Message): string { if m.kind == "group" then m.chat else m.peer }

  function UserParts(c: Caller, m: Message): seq<string> {
    match c
    case ChannelCaller(_, channel, binding, _) => [channel, binding, m.user]
    case ApiCaller(_, app, subject) => ["api", app, subject]
  }

  function SessionParts(c: Caller, m: Message): seq<string> {
    match c
    case ChannelCaller(_, channel, binding, _) => [channel, binding, m.kind, Conversation(m), m.thread]
    case ApiCaller(_, app, _) => ["api", app, m.kind, Conversation(m), m.thread]
  }

  /**
   A channel message needs a trusted target of a known channel, a known conversation kind, and
   external identifiers that are present, short and free of control characters; only the thread
   identifier may be absent, and it may be long.
   */
  predicate ChannelAccepts(c: Caller, m: Message, checks: Checks)
    requires c.ChannelCaller?
  {
    && c.trusted && c.channel in CHANNELS
    && checks.Usable(m.user)
    && m.kind in {"direct", "group"} && checks.Usable(Conversation(m))
    && (m.thread == "" || checks.clean(m.thread))
  }

  function DispatchIdentity(c: Caller, m: Message, checks: Checks): Option<RunnerIdentity> {
    if c.ChannelCaller? && !ChannelAccepts(c, m, checks) then None
    else NewRunnerIdentity(c.tenant, Encode(UserParts(c, m)), Encode(SessionParts(c, m)))
  }

  lemma IdentityParts(c: Caller, m: Message, checks: Checks)
    requires DispatchIdentity(c, m, checks).Some?
    ensures Unscope(DispatchIdentity(c, m, checks).value.userId) == Some((c.tenant, Encode(UserParts(c, m))))
    ensures Unscope(DispatchIdentity(c, m, checks).value.sessionId) == Some((c.tenant, Encode(SessionParts(c, m))))
  {
    UnscopeNamespaced(c.tenant, Encode(UserParts(c, m)));
    UnscopeNamespaced(c.tenant, Encode(SessionParts(c, m)));
  }

  /** A caller is refused only for its tenant or, on a channel, for its routing or its identifiers. */
  lemma IdentityIsDefined(c: Caller, m: Message, checks: Checks)
    ensures DispatchIdentity(c, m, checks).Some? <==>
      Ulid.ValidTenantId(c.tenant) && (c.ChannelCaller? ==> ChannelAccepts(c, m, checks))
  {
    CountDecimal(|UserParts(c, m)[0]|);
    CountDecimal(|SessionParts(c, m)[0]|);
    assert Encode(UserParts(c, m)) != "" && Encode(SessionParts(c, m)) != "";
  }

  predicate SameScope(c: Caller, c': Caller) {
    match (c, c')
    case (ChannelCaller(tenant, channel, binding, _), ChannelCaller(tenant', channel', binding', _)) =>
      tenant == tenant' && channel == channel' && binding == binding'
    case (ApiCaller(tenant, app, _), ApiCaller(tenant', app', _)) => tenant == tenant' && app == app'
    case _ => false
  }

  predicate SameSession(c: Caller, m: Message, c': Caller, m': Message) {
    && SameScope(c, c')
    && m.kind == m'.kind && Conversation(m) == Conversation(m') && m.thread == m'.thread
  }

  predicate SameUser(c: Caller, m: Message, c': Caller, m': Message) {
    SameScope(c, c') && (if c.ChannelCaller? then m.user == m'.user else c.subject == c'.subject)
  }

  lemma SamePartsSameSession(c: Caller, m: Message, c': Caller, m': Message, checks: Checks)
    requires DispatchIdentity(c, m, checks).Some? && DispatchIdentity(c', m', checks).Some?
    ensures SessionParts(c, m) == SessionParts(c', m') && c.tenant == c'.tenant <==> SameSession(c, m, c', m')
  {
    var p, p' := SessionParts(c, m), SessionParts(c', m');
    if p == p' {
      assert p[0] == p'[0] && p[1] == p'[1] && p[2] == p'[2] && p[3] == p'[3] && p[4] == p'[4];
      ChannelNamesAreNotApi();
    }
  }

  lemma ChannelNamesAreNotApi()
    ensures "api" !in CHANNELS
  {
    assert forall name <- CHANNELS :: name[0] != 'a';
  }

  /** Two dispatches share a session exactly when they agree on tenant, scope, kind, conversation and thread. */
  lemma SessionsAreInjective(c: Caller, m: Message, c': Caller, m': Message, checks: Checks)
    requires DispatchIdentity(c, m, checks).Some? && DispatchIdentity(c', m', checks).Some?
    ensures DispatchIdentity(c, m, checks).value.sessionId == DispatchIdentity(c', m', checks).value.sessionId
      <==> SameSession(c, m, c', m')
  {
    IdentityParts(c, m, checks);
    IdentityParts(c', m', checks);
    EncodeIsInjective(SessionParts(c, m), SessionParts(c', m'));
    SamePartsSameSession(c, m, c', m', checks);
  }

  /** Two dispatches share a user exactly when they agree on tenant, scope and external user or subject. */
  lemma UsersAreInjective(c: Caller, m: Message, c': Caller, m': Message, checks: Checks)
    requires DispatchIdentity(c, m, checks).Some? && DispatchIdentity(c', m', checks).Some?
    ensures DispatchIdentity(c, m, checks).value.userId == DispatchIdentity(c', m', checks).value.userId
      <==> SameUser(c, m, c', m')
  {
    IdentityParts(c, m, checks);
    IdentityParts(c', m', checks);
    var p, p' := UserParts(c, m), UserParts(c', m');
    EncodeIsInjective(p, p');
    if p == p' {
      assert p[0] == p'[0] && p[1] == p'[1] && p[2] == p'[2];
      ChannelNamesAreNotApi();
    }
  }

  /** A user identity is never a session identity, and an API identity never a channel one. */
  lemma KindsNeverCollide(c: Caller, m: Message, c': Caller, m': Message, checks: Checks)
    requires DispatchIdentity(c, m, checks).Some? && DispatchIdentity(c', m', checks).Some?
    ensures DispatchIdentity(c, m, checks).value.userId != DispatchIdentity(c', m', checks).value.sessionId
    ensures c.ApiCaller? && c'.ChannelCaller? ==>
      && DispatchIdentity(c, m, checks).value.userId != DispatchIdentity(c', m', checks).value.userId
      && DispatchIdentity(c, m, checks).value.sessionId != DispatchIdentity(c', m', checks).value.sessionId
  {
    IdentityParts(c, m, checks);
    IdentityParts(c', m', checks);
    EncodeIsInjective(UserParts(c, m), SessionParts(c', m'));
    UsersAreInjective(c, m, c', m', checks);
    SessionsAreInjective(c, m, c', m', checks);
  }

  // ---------------------------------------------------------------------------------------------
  // Idempotency keys
  // ---------------------------------------------------------------------------------------------

  /** A validated principal; a channel principal carries its routing target. */
  datatype Principal = Principal(kind: string, tenant: string, app: string, subject: string, target: Option<Target>)

  datatype Target = Target(channel: string, binding: string, version: nat)

  /** The message fields a key covers. */
  datatype KeyedMessage = KeyedMessage(body: Message, id: string)

  predicate ValidPrincipal(p: Principal) { p.kind in {"channel", "api"} }

  /** `makeIdempotencyKey`'s part list; a channel principal without a target is unauthenticated. */
  function KeyParts(p: Principal, m: KeyedMessage): Option<seq<string>> {
    if !ValidPrincipal(p) then None
    else
      var parts := [p.kind, p.tenant, p.app, p.subject,
                    m.body.kind, m.body.user, m.body.peer, m.body.chat, m.body.thread, m.id];
      if p.kind != "channel" then Some(parts)
      else match p.target
        case None => None
        case Some(t) => Some(parts + [t.channel, t.binding, Decimal(t.version)])
  }

  function IdempotencyKey(p: Principal, m: KeyedMessage): Option<string> {
    match KeyParts(p, m)
    case None => None
    case Some(parts) => Some(Encode(parts))
  }

  /** A key is refused only to an unknown kind of principal, or to a channel principal without a routing target. */
  lemma KeyIsDefined(p: Principal, m: KeyedMessage)
    ensures IdempotencyKey(p, m).Some? <==> p.kind == "api" || (p.kind == "channel" && p.target.Some?)
  {
    hide Encode;
    assert "api" != "channel" by { assert "api"[0] == 'a' && "channel"[0] == 'c'; }
  }

  lemma PartsGivePrincipal(p: Principal, m: KeyedMessage, p': Principal, m': KeyedMessage)
    requires KeyParts(p, m).Some? && KeyParts(p, m) == KeyParts(p', m')
    ensures m == m' && p.kind == p'.kind
    ensures p.tenant == p'.tenant && p.app == p'.app && p.subject == p'.subject
    ensures p.kind == "channel" ==> p.target == p'.target
  {
    var a, b := KeyParts(p, m).value, KeyParts(p', m').value;
    assert a[0] == b[0] && a[1] == b[1] && a[2] == b[2] && a[3] == b[3] && a[4] == b[4];
    assert a[5] == b[5] && a[6] == b[6] && a[7] == b[7] && a[8] == b[8] && a[9] == b[9];
    if p.kind == "channel" {
      assert a[10] == b[10] && a[11] == b[11] && a[12] == b[12];
      CountDecimal(p.target.value.version);
      CountDecimal(p'.target.value.version);
    }
  }

  /** Equal keys come from equal messages of equal principals, routing target included. */
  lemma KeysAreInjective(p: Principal, m: KeyedMessage, p': Principal, m': KeyedMessage)
    requires IdempotencyKey(p, m).Some? && IdempotencyKey(p, m) == IdempotencyKey(p', m')
    ensures m == m' && p.kind == p'.kind
    ensures p.tenant == p'.tenant && p.app == p'.app && p.subject == p'.subject
    ensures p.kind == "channel" ==> p.target == p'.target
  {
    EncodeIsInjective(KeyParts(p, m).value, KeyParts(p', m').value);
    PartsGivePrincipal(p, m, p', m');
  }
}
