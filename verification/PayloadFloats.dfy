/** Floats in payloads: which of them share a text with something else, and what a text
    with floats in it determines. */
module PayloadFloats {
  import opened Wrappers
  import opened Numerals
  import opened PayloadEncoding
  import opened PayloadDecoding
  import opened PayloadCanonical

  /** Every float in the payload is finite and printed positionally. */
  predicate Printable(v: Json) {
    match v
    case Foreign => false
    case Float(numeral) => numeral.Some? && Printed(numeral.value)
    case List(items) => forall i | 0 <= i < |items| :: Printable(items[i])
    case Object(members) => forall i | 0 <= i < |members| :: members[i].key.TextKey? && Printable(members[i].value)
    case _ => true
  }

  /** The payload with every float that prints no point replaced by its integer. */
  function AsRead(v: Json): Json {
    match v
    case Float(numeral) => if numeral.Some? then NumberOf(numeral.value) else v
    case List(items) => List(AllRead(items))
    case Object(members) => Object(MembersRead(members))
    case _ => v
  }

  function AllRead(items: seq<Json>): seq<Json> {
    if items == [] then [] else [AsRead(items[0])] + AllRead(items[1..])
  }

  function MemberRead(m: Member): Member {
    Member(m.key, AsRead(m.value))
  }

  function MembersRead(members: seq<Member>): seq<Member> {
    if members == [] then [] else [MemberRead(members[0])] + MembersRead(members[1..])
  }

  lemma {:induction false} AllReadAt(items: seq<Json>)
    ensures |AllRead(items)| == |items| && forall i | 0 <= i < |items| :: AllRead(items)[i] == AsRead(items[i])
  {
    if items != [] { AllReadAt(items[1..]); }
  }

  lemma {:induction false} MembersReadAt(members: seq<Member>)
    ensures |MembersRead(members)| == |members|
    ensures forall i | 0 <= i < |members| :: MembersRead(members)[i] == MemberRead(members[i])
  {
    if members != [] { MembersReadAt(members[1..]); }
  }

  lemma NumberText(x: string)
    requires Printed(x)
    ensures TextOf(NumberOf(x)) == x && Exact(NumberOf(x))
  {
    if !Pointed(x) { PrintedInteger(x); }
  }

  lemma {:induction false} TextsRead(items: seq<Json>)
    requires forall i | 0 <= i < |items| :: TextOf(AsRead(items[i])) == TextOf(items[i])
    ensures TextsOf(AllRead(items)) == TextsOf(items)
  {
    if items != [] {
      assert AsRead(items[0]) == AllRead(items)[0] && AllRead(items)[1..] == AllRead(items[1..]);
      assert TextOf(AsRead(items[0])) == TextOf(items[0]);
      TextsRead(items[1..]);
    }
  }

  lemma {:induction false} MemberTextsRead(members: seq<Member>)
    requires forall i | 0 <= i < |members| :: TextOf(AsRead(members[i].value)) == TextOf(members[i].value)
    ensures MembersOf(MembersRead(members)) == MembersOf(members)
  {
    if members != [] {
      assert MemberRead(members[0]) == MembersRead(members)[0] && MembersRead(members)[1..] == MembersRead(members[1..]);
      assert MemberOf(MemberRead(members[0])) == MemberOf(members[0]);
      MemberTextsRead(members[1..]);
    }
  }

  /** A payload has the text of what it is read as. */
  lemma {:induction false} TextRead(v: Json)
    requires Printable(v)
    ensures TextOf(AsRead(v)) == TextOf(v)
  {
    match v {
      case Float(numeral) => NumberText(numeral.value);
      case List(items) =>
        forall i | 0 <= i < |items| ensures TextOf(AsRead(items[i])) == TextOf(items[i]) { TextRead(items[i]); }
        TextsRead(items);
      case Object(members) =>
        forall i | 0 <= i < |members| ensures TextOf(AsRead(members[i].value)) == TextOf(members[i].value) {
          TextRead(members[i].value);
        }
        MemberTextsRead(members);
      case _ =>
    }
  }

  lemma {:induction false} ReadIsExact(v: Json)
    requires Printable(v)
    ensures Exact(AsRead(v))
  {
    match v {
      case Float(numeral) => NumberText(numeral.value);
      case List(items) =>
        AllReadAt(items);
        forall i | 0 <= i < |items| ensures Exact(AllRead(items)[i]) { ReadIsExact(items[i]); }
      case Object(members) =>
        MembersReadAt(members);
        forall i | 0 <= i < |members| ensures Exact(MembersRead(members)[i].value) { ReadIsExact(members[i].value); }
      case _ =>
    }
  }

  lemma {:induction false} ReadIsDictionaries(v: Json)
    requires Dictionaries(v)
    ensures Dictionaries(AsRead(v))
  {
    match v {
      case List(items) =>
        AllReadAt(items);
        forall i | 0 <= i < |items| ensures Dictionaries(AllRead(items)[i]) { ReadIsDictionaries(items[i]); }
      case Object(members) =>
        MembersReadAt(members);
        forall i | 0 <= i < |members| ensures Dictionaries(MembersRead(members)[i].value) {
          ReadIsDictionaries(members[i].value);
        }
      case _ =>
    }
  }

  lemma {:induction false} PrintableEncodable(v: Json)
    requires Printable(v)
    ensures Encodable(v)
  {
    match v {
      case List(items) => forall i | 0 <= i < |items| ensures Encodable(items[i]) { PrintableEncodable(items[i]); }
      case Object(members) =>
        forall i | 0 <= i < |members| ensures Encodable(members[i].value) { PrintableEncodable(members[i].value); }
      case _ =>
    }
  }

  /** A payload and what it is read as have one text. */
  lemma EncodeRead(v: Json)
    requires Printable(v)
    ensures Encode(v) == Encode(AsRead(v))
  {
    TextRead(v);
    ReadIsExact(v);
    ExactEncodable(AsRead(v));
    PrintableEncodable(v);
    EncodeOutcome(v);
    EncodeOutcome(AsRead(v));
  }

  /** With floats: a text determines the payload up to key order and to the reading of the
      floats that print no point as integers. */
  lemma TextDetermines(v: Json, w: Json)
    requires Dictionaries(v) && Dictionaries(w) && Printable(v) && Printable(w)
    ensures Encode(v) == Encode(w) <==> Same(AsRead(v), AsRead(w))
  {
    EncodeRead(v);
    EncodeRead(w);
    ReadIsExact(v);
    ReadIsExact(w);
    ReadIsDictionaries(v);
    ReadIsDictionaries(w);
    CanonicalText(AsRead(v), AsRead(w));
  }

  lemma {:induction false} ExactIsRead(v: Json)
    requires Exact(v)
    ensures AsRead(v) == v
  {
    match v {
      case List(items) =>
        AllReadAt(items);
        forall i | 0 <= i < |items| ensures AllRead(items)[i] == items[i] { ExactIsRead(items[i]); }
      case Object(members) =>
        MembersReadAt(members);
        forall i | 0 <= i < |members| ensures MembersRead(members)[i] == members[i] { ExactIsRead(members[i].value); }
      case _ =>
    }
  }

  lemma TwinIsNamesake(members: seq<Member>, i: nat, j: nat)
    requires DistinctKeys(members) && i < |members| && j < |members|
    requires Twin(members[i], MemberRead(members[j]))
    ensures i == j && Same(members[i].value, AsRead(members[i].value))
  {
    assert members[i].key == members[j].key;
  }

  lemma {:induction false} SameAsReadIsExact(v: Json)
    requires Dictionaries(v) && Printable(v) && Same(v, AsRead(v))
    ensures Exact(v)
  {
    match v {
      case List(items) =>
        AllReadAt(items);
        forall i | 0 <= i < |items| ensures Exact(items[i]) { SameAsReadIsExact(items[i]); }
      case Object(members) =>
        MembersReadAt(members);
        forall i | 0 <= i < |members| ensures Exact(members[i].value) {
          var j :| 0 <= j < |members| && Twin(members[i], MembersRead(members)[j]);
          TwinIsNamesake(members, i, j);
          SameAsReadIsExact(members[i].value);
        }
      case _ =>
    }
  }

  /** A payload shares its text with its own integer reading, and that is another payload
      exactly when one of its floats prints no point. */
  lemma FloatsCollide(v: Json)
    requires Dictionaries(v) && Printable(v)
    ensures Encode(v) == Encode(AsRead(v))
    ensures Same(v, AsRead(v)) <==> Exact(v)
  {
    EncodeRead(v);
    if Exact(v) {
      ExactIsRead(v);
      NormalSame(v, v);
    }
    if Same(v, AsRead(v)) { SameAsReadIsExact(v); }
  }

  /** A float shares its text with an integer exactly when it prints no point and is not a
      negative zero. */
  lemma FloatCollision(x: string)
    requires Printed(x)
    ensures (exists n :: Encode(Float(Some(x))) == Encode(Integer(n))) <==> '.' !in x && x != "-0"
  {
    if !Pointed(x) {
      PrintedInteger(x);
      assert Encode(Float(Some(x))) == Encode(Integer(IntegerOf(x)));
    }
    if n :| Encode(Float(Some(x))) == Encode(Integer(n)) {
      DecimalRead(n);
    }
  }

  /** An object with one such float, and the object with its integer instead: two payloads
      and one text. */
  lemma SharedText(key: string, x: string)
    requires Printed(x) && !Pointed(x)
    ensures var float := Object([Member(TextKey(key), Float(Some(x)))]);
            var whole := Object([Member(TextKey(key), Integer(IntegerOf(x)))]);
            !Same(float, whole) && Encode(float) == Encode(whole)
  {
    var members := [Member(TextKey(key), Float(Some(x)))];
    assert !Exact(members[0].value);
    MembersReadAt(members);
    assert AsRead(members[0].value) == NumberOf(x);
    assert MembersRead(members)[0] == MemberRead(members[0]);
    assert MembersRead(members) == [Member(TextKey(key), Integer(IntegerOf(x)))];
    FloatsCollide(Object(members));
  }

  /** The float 1e16 is such a one: it prints like the integer. */
  lemma TenToTheSixteenth(x: string)
    requires x == "10000000000000000"
    ensures Printed(x) && !Pointed(x) && IntegerOf(x) == 10000000000000000
  {
    Powers();
    DecimalRead(10000000000000000);
  }

  lemma Powers()
    ensures Digits(10000000000000000) == "10000000000000000"
  {
    assert Digits(10) == "10";
    assert Digits(100) == "100";
    assert Digits(1000) == "1000";
    assert Digits(10000) == "10000";
    assert Digits(100000) == "100000";
    assert Digits(1000000) == "1000000";
    assert Digits(10000000) == "10000000";
    assert Digits(100000000) == "100000000";
    assert Digits(1000000000) == "1000000000";
    assert Digits(10000000000) == "10000000000";
    assert Digits(100000000000) == "100000000000";
    assert Digits(1000000000000) == "1000000000000";
    assert Digits(10000000000000) == "10000000000000";
    assert Digits(100000000000000) == "100000000000000";
    assert Digits(1000000000000000) == "1000000000000000";
  }
}
