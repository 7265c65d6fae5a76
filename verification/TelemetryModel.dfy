/** Telemetry events: which fields may leave, how values are redacted, and which events
    are dropped. */
module TelemetryModel {
  import opened StableSorting
  import opened Texts

  datatype Value =
    | Null
    | Boolean(b: bool)
    | Number(numeral: string)
    | Str(s: string)
    | Items(items: seq<Value>)
    | Record(fields: seq<Field>)

  datatype Field = Field(key: string, value: Value)

  /** An event lists the fields of a dictionary in order. */
  type Event = seq<Field>

  datatype Class = Permitted | Restricted | Prohibited

  const PermittedFields: set<string> := {
    "trace_id", "span_id", "parent_span_id", "correlation_id", "service_name", "operation_name", "agent_name",
    "task_type", "event_type", "model_alias", "provider_alias", "timestamp", "start_time", "end_time",
    "latency_ms", "input_tokens", "output_tokens", "total_tokens", "estimated_cost_cents", "confidence",
    "status_code", "success", "error_code", "error_class", "policy_outcome", "guardian_decision",
    "guardian_reason", "task_state", "retry_count", "sample_rate", "environment", "pseudonymous_tenant_id",
    "pseudonymous_actor_id", "pseudonymous_workflow_id"
  }

  const RestrictedFields: set<string> := {
    "order_id", "trip_id", "vehicle_id", "driver_id", "user_id", "tenant_id", "actor_id", "workflow_id",
    "grant_id", "decision_id", "notification_id", "document_id", "exception_message", "stack_trace",
    "error_message", "policy_checksum", "payload_hash", "denial_reason"
  }

  /** The class of a field name: one that is in neither table is prohibited, whether or
      not it is listed as such. */
  function ClassifyField(name: string): Class {
    var lower := Trimmed(Lower(name));
    if lower in PermittedFields then Permitted
    else if lower in RestrictedFields then Restricted
    else Prohibited
  }

  predicate SecretPrefix(s: string) {
    || "pk_" <= s || "sk_" <= s || "rk_" <= s || "rzp_" <= s || "whsec_" <= s || "eyJ" <= s || "AIza" <= s
    || "ghp_" <= s || "glpat-" <= s
    || "xoxb-" <= s || "xoxp-" <= s || "xoxa-" <= s || "xoxs-" <= s || "xoxr-" <= s
  }

  /** What follows the last at-sign, or the whole text when there is none. */
  function AfterAt(s: string): string {
    if s == "" || s[|s| - 1] == '@' then "" else AfterAt(s[..|s| - 1]) + [s[|s| - 1]]
  }

  predicate LooksLikeSecret(s: string) {
    && |s| >= 8
    && (SecretPrefix(s) || ('@' in s && '.' in AfterAt(s)) || ('/' in s && '.' in s && |s| > 30))
  }

  predicate HexRun(s: string) {
    forall c | c in s :: '0' <= c <= '9' || 'a' <= c <= 'f' || 'A' <= c <= 'F'
  }

  predicate Uuid(s: string) {
    && |s| == 36 && s[8] == '-' && s[13] == '-' && s[18] == '-' && s[23] == '-'
    && HexRun(s[..8]) && HexRun(s[9..13]) && HexRun(s[14..18]) && HexRun(s[19..23]) && HexRun(s[24..])
  }

  /** The pattern also matches before one final newline. */
  predicate UuidLike(s: string) {
    Uuid(s) || (s != "" && s[|s| - 1] == '\n' && Uuid(s[..|s| - 1]))
  }

  function ClassifyValue(f: Field): Class {
    var class_ := ClassifyField(f.key);
    if class_ == Prohibited then Prohibited
    else if f.value.Str? && LooksLikeSecret(f.value.s) then Prohibited
    else if f.value.Record? || f.value.Items? then Restricted
    else class_
  }

  const Redacted: string := "[REDACTED]"

  function Redact(v: Value): Value {
    match v
    case Str(s) => if LooksLikeSecret(s) then Str(Redacted) else v
    case Items(items) => Items(RedactAll(items))
    case Record(fields) => Record(RedactFields(fields))
    case _ => v
  }

  function RedactAll(items: seq<Value>): seq<Value> {
    if items == [] then [] else [Redact(items[0])] + RedactAll(items[1..])
  }

  function RedactFields(fields: seq<Field>): seq<Field> {
    if fields == [] then [] else [RedactField(fields[0])] + RedactFields(fields[1..])
  }

  function RedactField(f: Field): Field {
    Field(f.key, Redact(f.value))
  }

  /** No string leaf at any depth looks like a secret. */
  predicate NoSecret(v: Value) {
    match v
    case Str(s) => !LooksLikeSecret(s)
    case Items(items) => forall i | 0 <= i < |items| :: NoSecret(items[i])
    case Record(fields) => forall i | 0 <= i < |fields| :: NoSecret(fields[i].value)
    case _ => true
  }

  /** How the fields of an event are sorted out: kept, refused, or not to be judged. */
  datatype Fate = Keep | Drop | Unclassifiable

  function FateOf(f: Field): Fate {
    match ClassifyValue(f)
    case Permitted => Keep
    case Restricted => if f.value.Str? && !UuidLike(f.value.s) then Unclassifiable else Keep
    case Prohibited => Drop
  }

  function Kept(e: Event): Event {
    if e == [] then []
    else Kept(e[..|e| - 1]) + (if FateOf(e[|e| - 1]) == Keep then [RedactField(e[|e| - 1])] else [])
  }

  function KeysOf(e: Event, fate: Fate): seq<string> {
    if e == [] then []
    else KeysOf(e[..|e| - 1], fate) + (if FateOf(e[|e| - 1]) == fate then [e[|e| - 1].key] else [])
  }

  function Commas(keys: seq<string>): string {
    if keys == [] then "" else if |keys| == 1 then keys[0] else keys[0] + "," + Commas(keys[1..])
  }

  function Itself(s: string): string { s }

  datatype Redaction = Accepted(event: Event) | Refused(dropped: seq<string>, reason: string)

  function RedactEvent(e: Event): Redaction {
    var dropped, unclassifiable := KeysOf(e, Drop), KeysOf(e, Unclassifiable);
    if unclassifiable != [] then
      Refused(dropped + unclassifiable, "unclassifiable_fields:" + Commas(StableSort(Itself, unclassifiable)))
    else if dropped != [] then Refused(dropped, "prohibited_fields_present")
    else Accepted(Kept(e))
  }

  method Redacting(e: Event) returns (r: Redaction)
    ensures r == RedactEvent(e)
  {
    var cleaned: Event, dropped: seq<string>, unclassifiable: seq<string> := [], [], [];
    var i := 0;
    while i < |e|
      invariant i <= |e| && cleaned == Kept(e[..i])
      invariant dropped == KeysOf(e[..i], Drop) && unclassifiable == KeysOf(e[..i], Unclassifiable)
    {
      var f := e[i];
      assert e[..i + 1][..i] == e[..i] && e[..i + 1][i] == f;
      var class_ := ClassifyValue(f);
      if class_ == Permitted {
        cleaned := cleaned + [Field(f.key, Redact(f.value))];
      } else if class_ == Restricted {
        if f.value.Str? && !UuidLike(f.value.s) {
          unclassifiable := unclassifiable + [f.key];
        } else {
          cleaned := cleaned + [Field(f.key, Redact(f.value))];
        }
      } else {
        dropped := dropped + [f.key];
      }
      i := i + 1;
    }
    assert e[..i] == e;
    if unclassifiable != [] {
      return Refused(dropped + unclassifiable, "unclassifiable_fields:" + Commas(StableSort(Itself, unclassifiable)));
    }
    if dropped != [] { return Refused(dropped, "prohibited_fields_present"); }
    return Accepted(cleaned);
  }

  /** Every top-level key names a permitted field. */
  predicate PermittedKeys(e: Event) {
    forall i | 0 <= i < |e| :: ClassifyField(e[i].key) == Permitted
  }

  function ClassName(c: Class): string {
    match c
    case Permitted => "permitted"
    case Restricted => "restricted"
    case Prohibited => "prohibited"
  }

  /** A field that may not be sent, with its class. */
  function Violation(f: Field): seq<string> {
    if ClassifyField(f.key) == Permitted then [] else [f.key + ":" + ClassName(ClassifyField(f.key))]
  }

  function Violations(e: Event): seq<string> {
    if e == [] then [] else Violations(e[..|e| - 1]) + Violation(e[|e| - 1])
  }

  lemma {:induction false} NoViolations(e: Event)
    ensures Violations(e) == [] <==> PermittedKeys(e)
  {
    if e != [] {
      var init, last := e[..|e| - 1], e[|e| - 1];
      assert e == init + [last];
      NoViolations(init);
      PermittedSnoc(init, last);
    }
  }

  lemma PermittedSnoc(init: Event, last: Field)
    ensures PermittedKeys(init + [last]) <==> PermittedKeys(init) && ClassifyField(last.key) == Permitted
  {
    var e := init + [last];
    assert e[|init|] == last;
    assert forall i | 0 <= i < |init| :: e[i] == init[i];
  }

  method ValidateFields(e: Event) returns (ok: bool, violations: seq<string>)
    ensures ok <==> PermittedKeys(e)
    ensures violations == Violations(e)
  {
    violations := [];
    var i := 0;
    while i < |e|
      invariant i <= |e| && violations == Violations(e[..i])
    {
      assert e[..i + 1][..i] == e[..i] && e[..i + 1][i] == e[i];
      var found := ClassifyField(e[i].key);
      if found != Permitted { violations := violations + [e[i].key + ":" + ClassName(found)]; }
      i := i + 1;
    }
    assert e[..i] == e;
    NoViolations(e);
    ok := violations == [];
  }

  lemma RedactedIsPlain()
    ensures !LooksLikeSecret(Redacted)
  {
    assert Redacted[0] == '[' && '@' !in Redacted && '/' !in Redacted;
  }

  lemma {:induction false} RedactAllAt(items: seq<Value>)
    ensures |RedactAll(items)| == |items| && forall i | 0 <= i < |items| :: RedactAll(items)[i] == Redact(items[i])
  {
    if items != [] { RedactAllAt(items[1..]); }
  }

  lemma {:induction false} RedactFieldsAt(fields: seq<Field>)
    ensures |RedactFields(fields)| == |fields|
    ensures forall i | 0 <= i < |fields| :: RedactFields(fields)[i] == RedactField(fields[i])
  {
    if fields != [] { RedactFieldsAt(fields[1..]); }
  }

  /** Redaction leaves no secret behind, at any depth. */
  lemma {:induction false} RedactHides(v: Value)
    ensures NoSecret(Redact(v))
  {
    match v {
      case Str(_) => RedactedIsPlain();
      case Items(items) =>
        RedactAllAt(items);
        forall i | 0 <= i < |items| ensures NoSecret(RedactAll(items)[i]) { RedactHides(items[i]); }
      case Record(fields) =>
        RedactFieldsAt(fields);
        forall i | 0 <= i < |fields| ensures NoSecret(RedactFields(fields)[i].value) { RedactHides(fields[i].value); }
      case _ =>
    }
  }

  /** Redaction changes a value exactly when it holds a secret. */
  lemma {:induction false} RedactChanges(v: Value)
    ensures Redact(v) == v <==> NoSecret(v)
  {
    RedactHides(v);
    if NoSecret(v) { RedactKeeps(v); }
  }

  lemma {:induction false} RedactKeeps(v: Value)
    requires NoSecret(v)
    ensures Redact(v) == v
  {
    match v {
      case Items(items) =>
        RedactAllAt(items);
        forall i | 0 <= i < |items| ensures RedactAll(items)[i] == items[i] { RedactKeeps(items[i]); }
        assert RedactAll(items) == items;
      case Record(fields) =>
        RedactFieldsAt(fields);
        forall i | 0 <= i < |fields| ensures RedactFields(fields)[i] == fields[i] { RedactKeeps(fields[i].value); }
        assert RedactFields(fields) == fields;
      case _ =>
    }
  }

  lemma RedactTwice(v: Value)
    ensures Redact(Redact(v)) == Redact(v)
  {
    RedactHides(v);
    RedactKeeps(Redact(v));
  }

  predicate NoneOf(e: Event, fate: Fate) {
    forall i | 0 <= i < |e| :: FateOf(e[i]) != fate
  }

  lemma NoneSnoc(init: Event, last: Field, fate: Fate)
    ensures NoneOf(init + [last], fate) <==> NoneOf(init, fate) && FateOf(last) != fate
  {
    var e := init + [last];
    assert e[|init|] == last;
    assert forall i | 0 <= i < |init| :: e[i] == init[i];
  }

  lemma KeysSnoc(init: Event, last: Field, fate: Fate)
    ensures KeysOf(init + [last], fate) == KeysOf(init, fate) + (if FateOf(last) == fate then [last.key] else [])
  {
    assert (init + [last])[..|init|] == init;
  }

  lemma {:induction false} NoKeys(e: Event, fate: Fate)
    ensures KeysOf(e, fate) == [] <==> NoneOf(e, fate)
  {
    if e != [] {
      var init, last := e[..|e| - 1], e[|e| - 1];
      assert e == init + [last];
      NoKeys(init, fate);
      KeysSnoc(init, last, fate);
      NoneSnoc(init, last, fate);
    }
  }

  lemma KeptSnoc(init: Event, last: Field)
    requires FateOf(last) == Keep
    ensures Kept(init + [last]) == Kept(init) + [RedactField(last)]
  {
    assert (init + [last])[..|init|] == init;
  }

  predicate AllKept(e: Event) {
    forall i | 0 <= i < |e| :: FateOf(e[i]) == Keep
  }

  lemma AllKeptSnoc(init: Event, last: Field)
    requires AllKept(init + [last])
    ensures AllKept(init) && FateOf(last) == Keep
  {
    assert forall i | 0 <= i < |init| :: (init + [last])[i] == init[i];
    assert (init + [last])[|init|] == last;
  }

  lemma {:induction false} KeptAt(e: Event)
    requires AllKept(e)
    ensures |Kept(e)| == |e| && forall i | 0 <= i < |e| :: Kept(e)[i] == RedactField(e[i])
  {
    if e != [] {
      var init, last := e[..|e| - 1], e[|e| - 1];
      assert e == init + [last];
      AllKeptSnoc(init, last);
      KeptAt(init);
      KeptSnoc(init, last);
    }
  }

  /** An event survives redaction whole or not at all. */
  lemma AcceptedWhole(e: Event)
    ensures RedactEvent(e).Accepted? <==> forall i | 0 <= i < |e| :: FateOf(e[i]) == Keep
    ensures RedactEvent(e).Accepted? ==>
      var c := RedactEvent(e).event; |c| == |e| && forall i | 0 <= i < |e| :: c[i] == RedactField(e[i])
  {
    NoKeys(e, Drop);
    NoKeys(e, Unclassifiable);
    if RedactEvent(e).Accepted? { KeptAt(e); }
  }

  /** What is sent to the collector: a redacted event whose every key is permitted. */
  predicate Sendable(e: Event) {
    RedactEvent(e).Accepted? && PermittedKeys(RedactEvent(e).event)
  }

  /** An event is sent exactly when all its keys are permitted and none of its own string
      values looks like a secret. */
  lemma SendableExactly(e: Event)
    ensures Sendable(e) <==> forall i | 0 <= i < |e| ::
              ClassifyField(e[i].key) == Permitted && !(e[i].value.Str? && LooksLikeSecret(e[i].value.s))
  {
    AcceptedWhole(e);
    if Sendable(e) {
      var c := RedactEvent(e).event;
      forall i | 0 <= i < |e|
        ensures ClassifyField(e[i].key) == Permitted && !(e[i].value.Str? && LooksLikeSecret(e[i].value.s))
      {
        assert c[i].key == e[i].key && FateOf(e[i]) == Keep;
      }
    }
  }

  /** What is sent carries only permitted top-level keys and no secret at any depth. */
  lemma SentIsSafe(e: Event)
    requires Sendable(e)
    ensures var c := RedactEvent(e).event;
            PermittedKeys(c) && |c| == |e| && forall i | 0 <= i < |c| :: NoSecret(c[i].value) && c[i].key == e[i].key
  {
    AcceptedWhole(e);
    forall i | 0 <= i < |e| ensures NoSecret(RedactEvent(e).event[i].value) { RedactHides(e[i].value); }
  }
}
