/** Which telemetry leaves and how every other attempt ends, said of the names and values of
    an event alone. */
module TelemetryAnswers {
  import opened Texts
  import opened TelemetryModel
  import opened TelemetryAdapter

  /** The name under which a key is looked up in the tables. */
  function NameOf(f: Field): string {
    Trimmed(Lower(f.key))
  }

  /** The last at-sign stands at i. */
  predicate LastAt(s: string, i: int) {
    0 <= i < |s| && s[i] == '@' && forall j | i < j < |s| :: s[j] != '@'
  }

  lemma {:induction false} AfterLastAt(s: string)
    ensures '@' !in s ==> AfterAt(s) == s
    ensures forall i | LastAt(s, i) :: AfterAt(s) == s[i + 1..]
    ensures '@' in s ==> exists i :: LastAt(s, i)
  {
    if s != "" {
      var init, last := s[..|s| - 1], s[|s| - 1];
      assert s == init + [last];
      AfterLastAt(init);
      if last == '@' {
        assert LastAt(s, |s| - 1);
      } else {
        forall i | LastAt(s, i) ensures AfterAt(s) == s[i + 1..] {
          assert LastAt(init, i);
          assert s[i + 1..] == init[i + 1..] + [last];
        }
        if '@' in s {
          assert '@' in init;
          var i :| LastAt(init, i);
          assert LastAt(s, i);
        }
      }
    }
  }

  const Prefixes: set<string> := {
    "pk_", "sk_", "rk_", "rzp_", "whsec_", "eyJ", "AIza", "ghp_", "glpat-", "xoxb-", "xoxp-", "xoxa-", "xoxs-", "xoxr-"
  }

  /** A text of at least eight characters looks like a secret when it begins like a key, has a
      dot after its last at-sign, or is a long path with a dot. */
  lemma SecretExactly(s: string)
    ensures LooksLikeSecret(s) <==>
              && |s| >= 8
              && (|| (exists p :: p in Prefixes && p <= s)
                  || (exists i :: LastAt(s, i) && '.' in s[i + 1..])
                  || ('/' in s && '.' in s && |s| > 30))
  {
    AfterLastAt(s);
    if p :| p in Prefixes && p <= s { assert SecretPrefix(s); }
    if SecretPrefix(s) { PrefixFound(s); }
  }

  lemma PrefixFound(s: string)
    requires SecretPrefix(s)
    ensures exists p :: p in Prefixes && p <= s
  {
    if "pk_" <= s { assert "pk_" in Prefixes; }
    else if "sk_" <= s { assert "sk_" in Prefixes; }
    else if "rk_" <= s { assert "rk_" in Prefixes; }
    else if "rzp_" <= s { assert "rzp_" in Prefixes; }
    else if "whsec_" <= s { assert "whsec_" in Prefixes; }
    else if "eyJ" <= s { assert "eyJ" in Prefixes; }
    else if "AIza" <= s { assert "AIza" in Prefixes; }
    else if "ghp_" <= s { assert "ghp_" in Prefixes; }
    else if "glpat-" <= s { assert "glpat-" in Prefixes; }
    else if "xoxb-" <= s { assert "xoxb-" in Prefixes; }
    else if "xoxp-" <= s { assert "xoxp-" in Prefixes; }
    else if "xoxa-" <= s { assert "xoxa-" in Prefixes; }
    else if "xoxs-" <= s { assert "xoxs-" in Prefixes; }
    else { assert "xoxr-" in Prefixes; }
  }

  /** A field survives: its name is in one of the two open tables, its own text does not look
      like a secret, and under a restricted name a text is an identifier. */
  predicate Survives(f: Field) {
    && (NameOf(f) in PermittedFields || NameOf(f) in RestrictedFields)
    && (f.value.Str? ==> !LooksLikeSecret(f.value.s))
    && (NameOf(f) !in PermittedFields && f.value.Str? ==> UuidLike(f.value.s))
  }

  lemma FateExactly(f: Field)
    ensures FateOf(f) == Keep <==> Survives(f)
    ensures FateOf(f) == Unclassifiable <==>
              && NameOf(f) !in PermittedFields && NameOf(f) in RestrictedFields
              && f.value.Str? && !LooksLikeSecret(f.value.s) && !UuidLike(f.value.s)
  {
  }

  /** An event passes redaction exactly when every field survives; each field then keeps its
      key and, when its value is a text, its value. */
  lemma RedactedExactly(e: Event)
    ensures RedactEvent(e).Accepted? <==> forall i | 0 <= i < |e| :: Survives(e[i])
    ensures RedactEvent(e).Accepted? ==>
              var c := RedactEvent(e).event;
              && |c| == |e|
              && forall i | 0 <= i < |e| ::
                   c[i].key == e[i].key && c[i].value == Redact(e[i].value) && (e[i].value.Str? ==> c[i].value == e[i].value)
  {
    AcceptedWhole(e);
    forall i | 0 <= i < |e| ensures FateOf(e[i]) == Keep <==> Survives(e[i]) { FateExactly(e[i]); }
  }

  predicate Sampled(rate: real, a: Attempt) {
    rate >= 1.0 || a.draw <= rate
  }

  predicate AllSurvive(e: Event) {
    forall i | 0 <= i < |e| :: Survives(e[i])
  }

  predicate AllPermitted(e: Event) {
    forall i | 0 <= i < |e| :: NameOf(e[i]) in PermittedFields
  }

  lemma PermittedAlike(e: Event, c: Event)
    requires |c| == |e| && forall i | 0 <= i < |e| :: c[i].key == e[i].key
    ensures PermittedKeys(c) <==> AllPermitted(e)
  {
    if PermittedKeys(c) {
      forall i | 0 <= i < |e| ensures NameOf(e[i]) in PermittedFields { assert ClassifyField(c[i].key) == Permitted; }
    }
  }

  /** How each attempt ends: unsampled, with a field that does not survive, with a name that
      is only restricted, at a failing collector, or emitted. */
  lemma EndsExactly(enabled: bool, rate: real, a: Attempt)
    ensures var ending := EndingOf(enabled, rate, a);
            && (ending == Disabled <==> !enabled)
            && (ending == NotSampled <==> enabled && !Sampled(rate, a))
            && (ending == NotRedacted <==> enabled && Sampled(rate, a) && !AllSurvive(a.event))
            && (ending == NotValid <==> enabled && Sampled(rate, a) && AllSurvive(a.event) && !AllPermitted(a.event))
            && (ending == CollectorFailed <==>
                  enabled && Sampled(rate, a) && AllSurvive(a.event) && AllPermitted(a.event) && a.fails)
            && (ending == Emitted <==>
                  enabled && Sampled(rate, a) && AllSurvive(a.event) && AllPermitted(a.event) && !a.fails)
  {
    RedactedExactly(a.event);
    if RedactEvent(a.event).Accepted? { PermittedAlike(a.event, RedactEvent(a.event).event); }
  }

  /** How many attempts ended in a given way. */
  function CountOf(ending: Ending, rate: real, attempts: seq<Attempt>): nat {
    if attempts == [] then 0
    else CountOf(ending, rate, attempts[..|attempts| - 1])
         + (if EndingOf(true, rate, attempts[|attempts| - 1]) == ending then 1 else 0)
  }

  /** Each counter of an enabled adapter counts the endings of its own name. */
  lemma {:induction false} CountersName(rate: real, attempts: seq<Attempt>)
    ensures CountersAfter(true, rate, attempts)
         == Counters(CountOf(NotRedacted, rate, attempts), CountOf(NotSampled, rate, attempts),
                     CountOf(NotValid, rate, attempts), CountOf(Emitted, rate, attempts))
  {
    if attempts != [] { CountersName(rate, attempts[..|attempts| - 1]); }
  }
  // ------------------------------------------------------------- names that stay home

  const Credentials: set<string> := {
    "password", "secret", "token", "api_key", "apikey", "authorization", "cookie", "database_url",
    "supabase_service_role_key", "razorpay_key_id", "razorpay_key_secret", "razorpay_webhook_secret",
    "odoo_api_key", "paperclip_api_key", "hermes_api_key", "langfuse_public_key"
  }

  const Secrets: set<string> := {
    "langfuse_secret_key", "smtp_password", "encryption_secret", "webhook_secret", "service_role_key", "jwt",
    "access_token", "refresh_token"
  }

  const People: set<string> := {
    "customer_name", "customer_email", "customer_phone", "driver_name", "driver_email", "driver_phone",
    "consignee_name", "consignee_email", "consignee_phone", "pickup_address", "delivery_address", "address",
    "email", "phone"
  }

  const Amounts: set<string> := {
    "payment_amount", "total_amount", "advance_amount", "refund_amount", "settlement_amount", "transaction_id",
    "razorpay_payment_id", "razorpay_order_id", "stripe_id", "bank_details", "invoice_id", "sale_order_id",
    "odoo_partner_id", "ledger_entry", "tax_record"
  }

  const Contents: set<string> := {
    "raw_prompt", "raw_response", "system_prompt", "prompt_body", "response_body", "input_text", "output_text",
    "cargo_description", "cargo_details", "special_instructions", "order_notes"
  }

  lemma CredentialsClosed(n: string)
    requires n in Credentials
    ensures n !in PermittedFields && n !in RestrictedFields
  {
  }

  lemma SecretsClosed(n: string)
    requires n in Secrets
    ensures n !in PermittedFields && n !in RestrictedFields
  {
  }

  lemma PeopleClosed(n: string)
    requires n in People
    ensures n !in PermittedFields && n !in RestrictedFields
  {
  }

  lemma AmountsClosed(n: string)
    requires n in Amounts
    ensures n !in PermittedFields && n !in RestrictedFields
  {
  }

  lemma ContentsClosed(n: string)
    requires n in Contents
    ensures n !in PermittedFields && n !in RestrictedFields
  {
  }

  /** An event with a field of a listed prohibited name is never emitted, whatever its value. */
  lemma ProhibitedStaysHome(enabled: bool, rate: real, a: Attempt, i: nat)
    requires i < |a.event| && NameOf(a.event[i]) in Credentials + Secrets + People + Amounts + Contents
    ensures EndingOf(enabled, rate, a) != Emitted && EndingOf(enabled, rate, a) != CollectorFailed
    ensures enabled && Sampled(rate, a) ==> EndingOf(enabled, rate, a) == NotRedacted
  {
    var n := NameOf(a.event[i]);
    EndsExactly(enabled, rate, a);
    if n in Credentials { CredentialsClosed(n); }
    if n in Secrets { SecretsClosed(n); }
    if n in People { PeopleClosed(n); }
    if n in Amounts { AmountsClosed(n); }
    if n in Contents { ContentsClosed(n); }
    assert !Survives(a.event[i]);
  }
}
