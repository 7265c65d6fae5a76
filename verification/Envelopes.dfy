/** Signed governance envelopes: issue, transport as text, verification. */
module Envelopes {
  import opened Wrappers
  import opened Base64Strict
  import opened Base64Url
  import opened EnvelopeJson
  import opened StableSorting

  /** An identifier, as its 32 lower-case hexadecimal digits. */
  type Uuid = s: string | |s| == 32 && forall i | 0 <= i < |s| :: HexDigit(s[i]) witness seq(32, _ => '0')

  predicate HexDigit(c: char) {
    '0' <= c <= '9' || 'a' <= c <= 'f'
  }

  /** The text of an identifier: its digits in groups of 8, 4, 4, 4 and 12. */
  function IdText(u: Uuid): string {
    u[..8] + "-" + u[8..12] + "-" + u[12..16] + "-" + u[16..20] + "-" + u[20..]
  }

  function IdDigits(s: string): string
    requires |s| == 36
  {
    s[..8] + s[9..13] + s[14..18] + s[19..23] + s[24..]
  }

  predicate Grouped(s: string) {
    && |s| == 36 && s[8] == '-' && s[13] == '-' && s[18] == '-' && s[23] == '-'
    && forall i | 0 <= i < 32 :: HexDigit(IdDigits(s)[i])
  }

  /** The identifier in a text: in its own form, or in any other that the library takes. */
  function ReadId(lib: Libraries, s: string): Option<Uuid> {
    if Grouped(s) then Some(IdDigits(s)) else lib.readOtherId(s)
  }

  lemma IdTrip(lib: Libraries, u: Uuid)
    ensures IdText(u) != "" && ReadId(lib, IdText(u)) == Some(u)
  {
    var s := IdText(u);
    assert |s| == 36 && s[8] == '-' && s[13] == '-' && s[18] == '-' && s[23] == '-';
    assert s[..8] == u[..8] && s[9..13] == u[8..12] && s[14..18] == u[12..16] && s[19..23] == u[16..20] && s[24..] == u[20..];
    assert IdDigits(s) == u;
  }

  /** Everything an envelope says, apart from its signature. */
  datatype Core = Core(
    version: string, tenant: Uuid, subject: string, agent: Uuid, policy: Uuid, proposal: Option<Uuid>, grant: Option<Uuid>,
    action: string, target: string, entityType: string, entityId: string, payloadHash: string, purpose: string,
    issued: int, expires: int, nonce: string)

  datatype Envelope = Envelope(core: Core, signature: string)

  /** What the model leaves to libraries: identifiers and JSON written in any form but the
      envelope's own, the number in a text, and the keyed signature. */
  datatype Libraries = Libraries(
    readOtherId: string -> Option<Uuid>, readOther: seq<Byte> -> Option<Document>,
    readNumber: string -> Option<int>, sign: Core -> string)

  datatype Error =
    | KeyTooShort | PurposeInvalid | Malformed | VersionMismatch | SignatureInvalid | LifetimeInvalid | Expired
    | PurposeMismatch | SubjectMismatch | TenantMismatch | AgentMismatch | ProposalMismatch | GrantMismatch

  const Version: string := "m5b-v1"

  function Min(a: int, b: int): int { if a < b then a else b }
  function Max(a: int, b: int): int { if a < b then b else a }

  /** The longest lifetime a signer grants: what it was configured with, within 1..300. */
  function MaxTtl(configured: int): int {
    Min(Max(configured, 1), 300)
  }

  function Optional(id: Option<Uuid>): Field {
    if id.Some? then Quote(IdText(id.value)) else Nothing
  }

  function ToDocument(e: Envelope): Document {
    var c := e.core;
    map["v" := Quote(c.version), "t" := Quote(IdText(c.tenant)), "s" := Quote(c.subject),
        "a" := Quote(IdText(c.agent)), "p" := Quote(IdText(c.policy)),
        "pr" := Optional(c.proposal), "g" := Optional(c.grant),
        "ak" := Quote(c.action), "ts" := Quote(c.target), "et" := Quote(c.entityType), "ei" := Quote(c.entityId),
        "ph" := Quote(c.payloadHash), "pu" := Quote(c.purpose), "iat" := Whole(c.issued), "exp" := Whole(c.expires),
        "n" := Quote(c.nonce), "sig" := Quote(e.signature)]
  }

  /** The keys of every envelope document, in the order they are written. */
  const Keys: seq<string> := ["a", "ak", "ei", "et", "exp", "g", "iat", "n", "p", "ph", "pr", "pu", "s", "sig", "t", "ts", "v"]

  lemma KeysSorted(i: nat)
    requires i + 1 < |Keys|
    ensures Before(Keys[i], Keys[i + 1])
  {
    assert Keys[i] != "" && Keys[i + 1] != "";
  }

  lemma KeysOfDocument(e: Envelope)
    ensures forall k :: k in Keys <==> k in ToDocument(e)
  {
  }

  function ToText(e: Envelope): string {
    KeysOfDocument(e);
    Stripped(Encode(DocumentBytes(Keys, ToDocument(e))))
  }

  /** The document in the bytes: the envelope's own form, or any other JSON. */
  function Read(lib: Libraries, b: seq<Byte>): Option<Document> {
    if ReadBytes(b).Some? then ReadBytes(b) else lib.readOther(b)
  }

  function TextField(d: Document, key: string): Option<string> {
    if key in d && d[key].Quote? then Some(d[key].text) else None
  }

  function IdField(lib: Libraries, d: Document, key: string): Option<Uuid> {
    if key in d && d[key].Quote? then ReadId(lib, d[key].text) else None
  }

  /** An identifier that may be absent, null or empty; the outer None is a malformed one. */
  function OptionalField(lib: Libraries, d: Document, key: string): Option<Option<Uuid>> {
    if key !in d || d[key] == Nothing || d[key] == Quote("") then Some(None)
    else if d[key].Quote? && ReadId(lib, d[key].text).Some? then Some(ReadId(lib, d[key].text))
    else None
  }

  function WholeField(lib: Libraries, d: Document, key: string): Option<int> {
    if key !in d then None
    else
      match d[key]
      case Whole(n) => Some(n)
      case Quote(s) => lib.readNumber(s)
      case Nothing => None
  }

  function FromDocument(lib: Libraries, d: Document): Result<Envelope, Error> {
    var v, t, s, a, p := TextField(d, "v"), IdField(lib, d, "t"), TextField(d, "s"), IdField(lib, d, "a"), IdField(lib, d, "p");
    var pr, g := OptionalField(lib, d, "pr"), OptionalField(lib, d, "g");
    var ak, ts, et, ei := TextField(d, "ak"), TextField(d, "ts"), TextField(d, "et"), TextField(d, "ei");
    var ph, pu, n, sig := TextField(d, "ph"), TextField(d, "pu"), TextField(d, "n"), TextField(d, "sig");
    var iat, exp := WholeField(lib, d, "iat"), WholeField(lib, d, "exp");
    if v.None? || t.None? || s.None? || a.None? || p.None? || pr.None? || g.None? || ak.None? || ts.None? || et.None?
       || ei.None? || ph.None? || pu.None? || n.None? || sig.None? || iat.None? || exp.None? then Err(Malformed)
    else
      Ok(Envelope(Core(v.value, t.value, s.value, a.value, p.value, pr.value, g.value, ak.value, ts.value, et.value,
                       ei.value, ph.value, pu.value, iat.value, exp.value, n.value), sig.value))
  }

  /** What the caller asks of a new envelope. */
  datatype Request = Request(
    tenant: Uuid, subject: string, agent: Uuid, policy: Uuid, proposal: Option<Uuid>, grant: Option<Uuid>,
    action: string, target: string, entityType: string, entityId: string, payloadHash: string, purpose: string, ttl: int)

  function Issue(lib: Libraries, maxTtl: int, r: Request, now: int, nonce: string): Result<Envelope, Error> {
    if r.purpose != "proposal" && r.purpose != "grant" then Err(PurposeInvalid)
    else
      var core := Core(Version, r.tenant, r.subject, r.agent, r.policy, r.proposal, r.grant, r.action, r.target,
                       r.entityType, r.entityId, r.payloadHash, r.purpose, now, now + Min(Max(r.ttl, 1), maxTtl), nonce);
      Ok(Envelope(core, lib.sign(core)))
  }

  /** The properties a verifier may insist on; None insists on nothing. */
  datatype Expectations = Expectations(
    purpose: Option<string>, subject: Option<string>, tenant: Option<Uuid>, agent: Option<Uuid>,
    proposal: Option<Uuid>, grant: Option<Uuid>)

  predicate Unmet<T(==)>(expected: Option<T>, actual: T) {
    expected.Some? && expected.value != actual
  }

  predicate UnmetId(expected: Option<Uuid>, actual: Option<Uuid>) {
    expected.Some? && expected != actual
  }

  function Verify(lib: Libraries, maxTtl: int, e: Envelope, now: int, x: Expectations): Result<Envelope, Error> {
    var c := e.core;
    if c.version != Version then Err(VersionMismatch)
    else if lib.sign(c) != e.signature then Err(SignatureInvalid)
    else if !(0 < c.expires - c.issued <= maxTtl) || c.issued > now then Err(LifetimeInvalid)
    else if c.expires <= now then Err(Expired)
    else if Unmet(x.purpose, c.purpose) then Err(PurposeMismatch)
    else if Unmet(x.subject, c.subject) then Err(SubjectMismatch)
    else if Unmet(x.tenant, c.tenant) then Err(TenantMismatch)
    else if Unmet(x.agent, c.agent) then Err(AgentMismatch)
    else if UnmetId(x.proposal, c.proposal) then Err(ProposalMismatch)
    else if UnmetId(x.grant, c.grant) then Err(GrantMismatch)
    else Ok(e)
  }

  /** The envelope in a text. */
  function ReadText(lib: Libraries, s: string): Result<Envelope, Error> {
    var bytes := Decode(Repadded(s));
    if bytes.None? || Read(lib, bytes.value).None? then Err(Malformed)
    else FromDocument(lib, Read(lib, bytes.value).value)
  }

  function VerifyText(lib: Libraries, maxTtl: int, s: string, now: int, x: Expectations): Result<Envelope, Error> {
    match ReadText(lib, s)
    case Err(error) => Err(error)
    case Ok(e) => Verify(lib, maxTtl, e, now, x)
  }

  predicate Meets(c: Core, x: Expectations) {
    && (x.purpose.Some? ==> c.purpose == x.purpose.value) && (x.subject.Some? ==> c.subject == x.subject.value)
    && (x.tenant.Some? ==> c.tenant == x.tenant.value) && (x.agent.Some? ==> c.agent == x.agent.value)
    && (x.proposal.Some? ==> c.proposal == x.proposal) && (x.grant.Some? ==> c.grant == x.grant)
  }

  lemma OptionalTrip(lib: Libraries, d: Document, key: string, id: Option<Uuid>)
    requires key in d && d[key] == Optional(id)
    ensures OptionalField(lib, d, key) == Some(id)
  {
    if id.Some? { IdTrip(lib, id.value); }
  }

  lemma IdFieldTrip(lib: Libraries, d: Document, key: string, id: Uuid)
    requires key in d && d[key] == Quote(IdText(id))
    ensures IdField(lib, d, key) == Some(id)
  {
    IdTrip(lib, id);
  }

  lemma IdEntries(e: Envelope)
    ensures var c, d := e.core, ToDocument(e);
            && "t" in d && d["t"] == Quote(IdText(c.tenant)) && "a" in d && d["a"] == Quote(IdText(c.agent))
            && "p" in d && d["p"] == Quote(IdText(c.policy))
  {
  }

  lemma OptionalEntries(e: Envelope)
    ensures var c, d := e.core, ToDocument(e);
            "pr" in d && d["pr"] == Optional(c.proposal) && "g" in d && d["g"] == Optional(c.grant)
  {
  }

  lemma IdsRoundTrip(lib: Libraries, e: Envelope)
    ensures var c, d := e.core, ToDocument(e);
            && IdField(lib, d, "t") == Some(c.tenant) && IdField(lib, d, "a") == Some(c.agent)
            && IdField(lib, d, "p") == Some(c.policy)
            && OptionalField(lib, d, "pr") == Some(c.proposal) && OptionalField(lib, d, "g") == Some(c.grant)
  {
    var c, d := e.core, ToDocument(e);
    IdEntries(e);
    OptionalEntries(e);
    IdFieldTrip(lib, d, "t", c.tenant);
    IdFieldTrip(lib, d, "a", c.agent);
    IdFieldTrip(lib, d, "p", c.policy);
    OptionalTrip(lib, d, "pr", c.proposal);
    OptionalTrip(lib, d, "g", c.grant);
  }

  lemma WholesRoundTrip(lib: Libraries, e: Envelope)
    ensures var c, d := e.core, ToDocument(e);
            WholeField(lib, d, "iat") == Some(c.issued) && WholeField(lib, d, "exp") == Some(c.expires)
  {
  }

  lemma TextsRoundTrip(e: Envelope)
    ensures var c, d := e.core, ToDocument(e);
            && TextField(d, "v") == Some(c.version) && TextField(d, "s") == Some(c.subject)
            && TextField(d, "ak") == Some(c.action) && TextField(d, "ts") == Some(c.target)
            && TextField(d, "et") == Some(c.entityType) && TextField(d, "ei") == Some(c.entityId)
            && TextField(d, "ph") == Some(c.payloadHash) && TextField(d, "pu") == Some(c.purpose)
            && TextField(d, "n") == Some(c.nonce) && TextField(d, "sig") == Some(e.signature)
  {
  }

  lemma DocumentRoundTrip(lib: Libraries, e: Envelope)
    ensures FromDocument(lib, ToDocument(e)) == Ok(e)
  {
    IdsRoundTrip(lib, e);
    WholesRoundTrip(lib, e);
    TextsRoundTrip(e);
  }

  /** Transport as text loses nothing: the text is verified as the envelope itself. */
  lemma TextRoundTrip(lib: Libraries, maxTtl: int, e: Envelope, now: int, x: Expectations)
    ensures ReadText(lib, ToText(e)) == Ok(e)
    ensures VerifyText(lib, maxTtl, ToText(e), now, x) == Verify(lib, maxTtl, e, now, x)
  {
    KeysOfDocument(e);
    DocumentTextTrip(Keys, ToDocument(e));
    UnpaddedRoundTrip(DocumentBytes(Keys, ToDocument(e)));
    DocumentRoundTrip(lib, e);
  }

  lemma VerifiesExactly(lib: Libraries, maxTtl: int, e: Envelope, now: int, x: Expectations)
    requires e.core.version == Version && e.signature == lib.sign(e.core)
    requires 0 < e.core.expires - e.core.issued <= maxTtl
    ensures Verify(lib, maxTtl, e, now, x) == Ok(e) <==> e.core.issued <= now < e.core.expires && Meets(e.core, x)
  {
  }

  /** The lifetime a request gets: its own when the signer grants it, else the nearest. */
  function Lifetime(configured: int, ttl: int): (l: int)
    ensures 1 <= ttl <= MaxTtl(configured) ==> l == ttl
    ensures ttl < 1 ==> l == 1
    ensures MaxTtl(configured) < ttl ==> l == MaxTtl(configured)
  {
    Min(Max(ttl, 1), MaxTtl(configured))
  }

  /** A signer grants up to what it was configured with, at least 1 and at most 300. */
  lemma LongestLifetime(configured: int)
    ensures 1 <= configured <= 300 ==> MaxTtl(configured) == configured
    ensures configured < 1 ==> MaxTtl(configured) == 1
    ensures 300 < configured ==> MaxTtl(configured) == 300
  {
  }

  /** Nothing is issued exactly for a purpose that is neither of the two. */
  lemma IssueRefused(lib: Libraries, maxTtl: int, r: Request, issued: int, nonce: string)
    ensures Issue(lib, maxTtl, r, issued, nonce).Err? <==> r.purpose != "proposal" && r.purpose != "grant"
    ensures Issue(lib, maxTtl, r, issued, nonce).Err? ==> Issue(lib, maxTtl, r, issued, nonce) == Err(PurposeInvalid)
  {
  }

  /** Who and what an envelope names is what the request names, each in its own field. */
  predicate SaysRequest(c: Core, r: Request) {
    && c.tenant == r.tenant && c.subject == r.subject && c.agent == r.agent && c.policy == r.policy
    && c.proposal == r.proposal && c.grant == r.grant && c.action == r.action && c.target == r.target
    && c.entityType == r.entityType && c.entityId == r.entityId && c.payloadHash == r.payloadHash && c.purpose == r.purpose
  }

  /** The issued text, read back, says what was asked for, when and for how long. */
  lemma IssuedSays(lib: Libraries, configured: int, r: Request, issued: int, nonce: string)
    requires Issue(lib, MaxTtl(configured), r, issued, nonce).Ok?
    ensures var read := ReadText(lib, ToText(Issue(lib, MaxTtl(configured), r, issued, nonce).value));
            && read.Ok? && SaysRequest(read.value.core, r)
            && read.value.core.version == "m5b-v1" && read.value.core.nonce == nonce
            && read.value.core.issued == issued && read.value.core.expires == issued + Lifetime(configured, r.ttl)
            && read.value.signature == lib.sign(read.value.core)
  {
    var e := Issue(lib, MaxTtl(configured), r, issued, nonce).value;
    TextRoundTrip(lib, MaxTtl(configured), e, issued, Expectations(None, None, None, None, None, None));
  }

  /** What a verifier insists on is what the request asked for. */
  predicate RequestMeets(r: Request, x: Expectations) {
    && (x.purpose.Some? ==> x.purpose.value == r.purpose) && (x.subject.Some? ==> x.subject.value == r.subject)
    && (x.tenant.Some? ==> x.tenant.value == r.tenant) && (x.agent.Some? ==> x.agent.value == r.agent)
    && (x.proposal.Some? ==> x.proposal == r.proposal) && (x.grant.Some? ==> x.grant == r.grant)
  }

  lemma MeetsRequest(c: Core, r: Request, x: Expectations)
    requires SaysRequest(c, r)
    ensures Meets(c, x) <==> RequestMeets(r, x)
  {
  }

  lemma RequestVerifies(lib: Libraries, configured: int, r: Request, e: Envelope, now: int, x: Expectations)
    requires e.core.version == Version && e.signature == lib.sign(e.core) && SaysRequest(e.core, r)
    requires e.core.expires == e.core.issued + Lifetime(configured, r.ttl)
    ensures Verify(lib, MaxTtl(configured), e, now, x).Ok?
       <==> e.core.issued <= now < e.core.issued + Lifetime(configured, r.ttl) && RequestMeets(r, x)
  {
    MeetsRequest(e.core, r, x);
    VerifiesExactly(lib, MaxTtl(configured), e, now, x);
    if Verify(lib, MaxTtl(configured), e, now, x).Ok? { VerifiedFacts(lib, MaxTtl(configured), e, now, x); }
  }

  /** An issued text is accepted exactly from its issue until the end of the lifetime its
      request gets, by a verifier that insists on nothing but what the request asked for. */
  lemma IssuedVerifies(lib: Libraries, configured: int, r: Request, issued: int, nonce: string, now: int, x: Expectations)
    requires Issue(lib, MaxTtl(configured), r, issued, nonce).Ok?
    ensures VerifyText(lib, MaxTtl(configured), ToText(Issue(lib, MaxTtl(configured), r, issued, nonce).value), now, x).Ok?
       <==> issued <= now < issued + Lifetime(configured, r.ttl) && RequestMeets(r, x)
  {
    var e := Issue(lib, MaxTtl(configured), r, issued, nonce).value;
    TextRoundTrip(lib, MaxTtl(configured), e, now, x);
    RequestVerifies(lib, configured, r, e, now, x);
  }

  /** A mismatch is reported under the name of a property that is not met. */
  lemma MismatchNamed(lib: Libraries, maxTtl: int, e: Envelope, now: int, x: Expectations)
    requires Verify(lib, maxTtl, e, now, x).Err?
    ensures var error := Verify(lib, maxTtl, e, now, x).error;
            && (error == VersionMismatch ==> e.core.version != "m5b-v1")
            && (error == SignatureInvalid ==> lib.sign(e.core) != e.signature)
            && (error == LifetimeInvalid ==>
                  now < e.core.issued || e.core.expires <= e.core.issued || e.core.issued + maxTtl < e.core.expires)
            && (error == Expired ==> e.core.expires <= now)
            && (error == PurposeMismatch ==> x.purpose.Some? && x.purpose.value != e.core.purpose)
            && (error == SubjectMismatch ==> x.subject.Some? && x.subject.value != e.core.subject)
            && (error == TenantMismatch ==> x.tenant.Some? && x.tenant.value != e.core.tenant)
            && (error == AgentMismatch ==> x.agent.Some? && x.agent.value != e.core.agent)
            && (error == ProposalMismatch ==> x.proposal.Some? && x.proposal != e.core.proposal)
            && (error == GrantMismatch ==> x.grant.Some? && x.grant != e.core.grant)
            && !error.KeyTooShort? && !error.PurposeInvalid? && !error.Malformed?
  {
  }

  lemma VerifiedFacts(lib: Libraries, maxTtl: int, e: Envelope, now: int, x: Expectations)
    requires Verify(lib, maxTtl, e, now, x).Ok?
    ensures Verify(lib, maxTtl, e, now, x).value == e
    ensures e.signature == lib.sign(e.core) && e.core.version == Version
    ensures e.core.issued <= now < e.core.expires <= e.core.issued + maxTtl && Meets(e.core, x)
  {
  }

  /** Nothing is accepted but an envelope that carries the signature of its own content,
      is within its lifetime and meets what was asked. */
  lemma AcceptedIsSigned(lib: Libraries, maxTtl: int, s: string, now: int, x: Expectations)
    requires VerifyText(lib, maxTtl, s, now, x).Ok?
    ensures var e := VerifyText(lib, maxTtl, s, now, x).value;
            && e.signature == lib.sign(e.core) && e.core.version == Version
            && e.core.issued <= now < e.core.expires <= e.core.issued + maxTtl && Meets(e.core, x)
  {
    var read := ReadText(lib, s);
    VerifiedFacts(lib, maxTtl, read.value, now, x);
  }

  /** With a signature that tells different contents apart, no accepted envelope borrows
      the signature of an issued one for other contents. */
  lemma SignatureBindsContents(lib: Libraries, maxTtl: int, s: string, now: int, x: Expectations, e: Envelope)
    requires forall c: Core, d: Core :: lib.sign(c) == lib.sign(d) ==> c == d
    requires e.signature == lib.sign(e.core)
    requires var r := VerifyText(lib, maxTtl, s, now, x); r.Ok? && r.value.signature == e.signature
    ensures VerifyText(lib, maxTtl, s, now, x).value == e
  {
    AcceptedIsSigned(lib, maxTtl, s, now, x);
    var got := VerifyText(lib, maxTtl, s, now, x).value;
    assert lib.sign(got.core) == lib.sign(e.core);
  }

  // ------------------------------------------------------------- texts that are not strict

  /** An accepted text is the encoding of what was read of it exactly when it is strict. */
  lemma AcceptedIsStrict(lib: Libraries, maxTtl: int, s: string, now: int, x: Expectations)
    requires VerifyText(lib, maxTtl, s, now, x).Ok?
    ensures Decode(Repadded(s)).Some?
    ensures s == Stripped(Encode(Decode(Repadded(s)).value)) <==> Canonical(s)
  {
    StrictExactly(s, Decode(Repadded(s)).value);
  }

  /** An envelope's text with four foreign characters in front is not strict, is not its
      text, and is accepted just like it. */
  lemma LenientText(lib: Libraries, maxTtl: int, head: string, e: Envelope, now: int, x: Expectations)
    requires |head| == 4 && forall i | 0 <= i < |head| :: Foreign(head[i])
    ensures !Canonical(head + ToText(e)) && head + ToText(e) != ToText(e)
    ensures VerifyText(lib, maxTtl, head + ToText(e), now, x) == Verify(lib, maxTtl, e, now, x)
  {
    ForeignIgnored(head, ToText(e));
    TextRoundTrip(lib, maxTtl, e, now, x);
    assert |head + ToText(e)| == 4 + |ToText(e)|;
  }
}
