/** The payload text is canonical: equal up to key order means one text, and among
    exact values one text means equal up to key order. */
module PayloadCanonical {
  import opened Wrappers
  import opened Permutations
  import opened StableSorting
  import opened PayloadEncoding
  import opened PayloadDecoding

  /** Objects as a dictionary makes them: all the way down, no key twice. */
  predicate Dictionaries(v: Json) {
    match v
    case List(items) => forall i | 0 <= i < |items| :: Dictionaries(items[i])
    case Object(members) =>
      && (forall i, j | 0 <= i < j < |members| :: members[i].key != members[j].key)
      && (forall i | 0 <= i < |members| :: Dictionaries(members[i].value))
    case _ => true
  }

  /** Equal up to the order of object keys. */
  predicate Same(v: Json, w: Json) {
    match (v, w)
    case (List(a), List(b)) => |a| == |b| && forall i | 0 <= i < |a| :: Same(a[i], b[i])
    case (Object(a), Object(b)) =>
      |a| == |b| && forall i | 0 <= i < |a| :: exists j | 0 <= j < |b| :: Twin(a[i], b[j])
    case _ => v == w && !v.List? && !v.Object?
  }

  predicate Twin(m: Member, n: Member) {
    m.key == n.key && Same(m.value, n.value)
  }

  lemma {:induction false} NormalsAt(items: seq<Json>)
    ensures |Normals(items)| == |items| && forall i | 0 <= i < |items| :: Normals(items)[i] == Normal(items[i])
  {
    if items != [] { NormalsAt(items[1..]); }
  }

  lemma {:induction false} NormalMembersAt(members: seq<Member>)
    ensures |NormalMembers(members)| == |members|
    ensures forall i | 0 <= i < |members| :: NormalMembers(members)[i] == NormalMember(members[i])
  {
    if members != [] { NormalMembersAt(members[1..]); }
  }

  predicate DistinctKeys(members: seq<Member>) {
    forall i, j | 0 <= i < j < |members| :: members[i].key != members[j].key
  }

  predicate TextKeys(members: seq<Member>) {
    forall i | 0 <= i < |members| :: members[i].key.TextKey?
  }

  lemma SortTextsDiffer(a: Key, b: Key)
    requires a.TextKey? && b.TextKey? && a != b
    ensures SortText(KeyText(a)) != SortText(KeyText(b))
  {
    if SortText(a.text) == SortText(b.text) { SortTextInjective(a.text, b.text); }
  }

  lemma {:induction false} KeyFilter(members: seq<Member>, name: string)
    requires DistinctKeys(members) && TextKeys(members)
    ensures |Filter(Named(ByMember, name), members)| <= 1
  {
    var f := Named(ByMember, name);
    if members != [] {
      var rest := members[1..];
      assert forall i | 0 <= i < |rest| :: rest[i] == members[i + 1];
      if f(members[0]) {
        forall j | 0 <= j < |rest| ensures !f(rest[j]) { SortTextsDiffer(members[0].key, members[j + 1].key); }
        FilterAll(f, rest);
      } else {
        KeyFilter(rest, name);
      }
    }
  }

  /** What a filter leaves of a rearrangement is the same when it is at most one row. */
  lemma FilterOne<T>(f: T -> bool, a: seq<T>, b: seq<T>)
    requires |Filter(f, a)| <= 1 && |Filter(f, b)| <= 1
    requires forall x | x in a :: x in b
    ensures Filter(f, a) != [] ==> Filter(f, b) == Filter(f, a)
  {
    if Filter(f, a) != [] {
      var x := Filter(f, a)[0];
      InFilter(f, a, x);
      InFilter(f, b, x);
      assert Filter(f, b) == [x];
    }
  }

  /** Rearranging members with distinct keys does not change their sorted order. */
  lemma SortRearranged(a: seq<Member>, b: seq<Member>)
    requires DistinctKeys(a) && DistinctKeys(b) && TextKeys(a) && TextKeys(b) && multiset(a) == multiset(b)
    ensures StableSort(ByMember, a) == StableSort(ByMember, b)
  {
    assert forall x | x in a :: x in multiset(b);
    assert forall x | x in b :: x in multiset(a);
    forall name: string ensures Filter(Named(ByMember, name), a) == Filter(Named(ByMember, name), b) {
      KeyFilter(a, name);
      KeyFilter(b, name);
      FilterOne(Named(ByMember, name), a, b);
      FilterOne(Named(ByMember, name), b, a);
    }
    SortCanonical(ByMember, a, b);
  }

  lemma NormalKeys(members: seq<Member>)
    requires DistinctKeys(members) && TextKeys(members)
    ensures DistinctKeys(NormalMembers(members)) && TextKeys(NormalMembers(members)) && NoDuplicates(NormalMembers(members))
  {
    NormalMembersAt(members);
    var n := NormalMembers(members);
    assert forall i | 0 <= i < |members| :: n[i].key == members[i].key;
  }

  /** Members whose normal forms are found among those of others are a rearrangement of them. */
  lemma MatchedMembers(a: seq<Member>, b: seq<Member>)
    requires DistinctKeys(a) && DistinctKeys(b) && TextKeys(a) && TextKeys(b) && |a| == |b|
    requires forall m | m in a :: NormalMember(m) in NormalMembers(b)
    ensures StableSort(ByMember, NormalMembers(a)) == StableSort(ByMember, NormalMembers(b))
  {
    var m, n := NormalMembers(a), NormalMembers(b);
    NormalMembersAt(a);
    NormalMembersAt(b);
    NormalKeys(a);
    NormalKeys(b);
    forall x | x in m ensures x in n {
      var i :| 0 <= i < |m| && m[i] == x;
      assert a[i] in a;
    }
    Exhausts(m, n);
    SortRearranged(m, n);
  }

  lemma {:induction false} SameNormal(v: Json, w: Json)
    requires Dictionaries(v) && Dictionaries(w) && Encodable(v) && Encodable(w) && Same(v, w)
    ensures Normal(v) == Normal(w)
  {
    match (v, w) {
      case (List(a), List(b)) =>
        NormalsAt(a);
        NormalsAt(b);
        forall i | 0 <= i < |a| ensures Normal(a[i]) == Normal(b[i]) { SameNormal(a[i], b[i]); }
      case (Object(a), Object(b)) =>
        NormalMembersAt(b);
        forall m | m in a ensures NormalMember(m) in NormalMembers(b) {
          var i :| 0 <= i < |a| && a[i] == m;
          var j :| 0 <= j < |b| && Twin(a[i], b[j]);
          SameNormal(a[i].value, b[j].value);
          assert NormalMembers(b)[j] == NormalMember(m);
        }
        assert DistinctKeys(a) && DistinctKeys(b) && TextKeys(a) && TextKeys(b);
        MatchedMembers(a, b);
      case _ =>
    }
  }

  /** Objects with one normal form hold, for each member, one with the same normal form. */
  lemma SortedCounterpart(a: seq<Member>, b: seq<Member>, i: nat) returns (j: nat)
    requires StableSort(ByMember, NormalMembers(a)) == StableSort(ByMember, NormalMembers(b)) && i < |a|
    ensures |a| == |b| && j < |b| && a[i].key == b[j].key && Normal(a[i].value) == Normal(b[j].value)
  {
    var m, n := NormalMembers(a), NormalMembers(b);
    NormalMembersAt(a);
    NormalMembersAt(b);
    assert multiset(m) == multiset(n);
    assert |m| == |multiset(m)| && |n| == |multiset(n)|;
    assert m[i] in multiset(n);
    j :| 0 <= j < |n| && n[j] == m[i];
  }

  lemma SameLengths(a: seq<Member>, b: seq<Member>)
    requires StableSort(ByMember, NormalMembers(a)) == StableSort(ByMember, NormalMembers(b))
    ensures |a| == |b|
  {
    NormalMembersAt(a);
    NormalMembersAt(b);
    assert |NormalMembers(a)| == |multiset(NormalMembers(a))| == |multiset(NormalMembers(b))| == |NormalMembers(b)|;
  }

  lemma SameItems(a: seq<Json>, b: seq<Json>)
    requires Normals(a) == Normals(b)
    requires forall i, j | 0 <= i < |a| && 0 <= j < |b| && Normal(a[i]) == Normal(b[j]) :: Same(a[i], b[j])
    ensures Same(List(a), List(b))
  {
    NormalsAt(a);
    NormalsAt(b);
    assert forall i | 0 <= i < |a| :: Normals(a)[i] == Normals(b)[i];
  }

  lemma SameMembers(a: seq<Member>, b: seq<Member>)
    requires StableSort(ByMember, NormalMembers(a)) == StableSort(ByMember, NormalMembers(b))
    requires forall i, j | 0 <= i < |a| && 0 <= j < |b| && Normal(a[i].value) == Normal(b[j].value) ::
               Same(a[i].value, b[j].value)
    ensures Same(Object(a), Object(b))
  {
    SameLengths(a, b);
    forall i | 0 <= i < |a| ensures exists j | 0 <= j < |b| :: Twin(a[i], b[j]) {
      var j := SortedCounterpart(a, b, i);
      assert Twin(a[i], b[j]);
    }
  }

  lemma {:induction false} NormalSame(v: Json, w: Json)
    requires Normal(v) == Normal(w)
    ensures Same(v, w)
  {
    match (v, w) {
      case (List(a), List(b)) =>
        forall i, j | 0 <= i < |a| && 0 <= j < |b| && Normal(a[i]) == Normal(b[j]) ensures Same(a[i], b[j]) {
          NormalSame(a[i], b[j]);
        }
        SameItems(a, b);
      case (Object(a), Object(b)) =>
        forall i, j | 0 <= i < |a| && 0 <= j < |b| && Normal(a[i].value) == Normal(b[j].value)
          ensures Same(a[i].value, b[j].value)
        {
          NormalSame(a[i].value, b[j].value);
        }
        SameMembers(a, b);
      case _ =>
    }
  }

  lemma {:induction false} NormalTexts(items: seq<Json>)
    requires forall i | 0 <= i < |items| :: TextOf(Normal(items[i])) == TextOf(items[i])
    ensures TextsOf(Normals(items)) == TextsOf(items)
  {
    if items != [] {
      NormalTexts(items[1..]);
      assert Normals(items)[1..] == Normals(items[1..]);
    }
  }

  lemma {:induction false} NormalMemberTexts(members: seq<Member>)
    requires forall i | 0 <= i < |members| :: TextOf(Normal(members[i].value)) == TextOf(members[i].value)
    ensures MembersOf(NormalMembers(members)) == MembersOf(members)
  {
    if members != [] {
      NormalMemberTexts(members[1..]);
      assert NormalMembers(members)[1..] == NormalMembers(members[1..]);
    }
  }

  lemma {:induction false} SortedAgain<T>(key: T -> string, s: seq<T>)
    requires Sorted(key, s)
    ensures StableSort(key, s) == s
  {
    if s != [] { SortedAgain(key, s[1..]); }
  }

  /** The text of a value is the text of its normal form. */
  lemma {:induction false} NormalText(v: Json)
    ensures TextOf(Normal(v)) == TextOf(v)
  {
    match v {
      case List(items) =>
        forall i | 0 <= i < |items| ensures TextOf(Normal(items[i])) == TextOf(items[i]) { NormalText(items[i]); }
        NormalTexts(items);
      case Object(members) =>
        forall i | 0 <= i < |members| ensures TextOf(Normal(members[i].value)) == TextOf(members[i].value) {
          NormalText(members[i].value);
        }
        var n := NormalMembers(members);
        NormalMemberTexts(members);
        SortSorted(ByMember, n);
        SortedAgain(ByMember, StableSort(ByMember, n));
        SortedTogether(StableSort(ByMember, n));
        SortedTogether(n);
      case _ =>
    }
  }

  /** Payloads that differ only in key order encode to one text. */
  lemma SameText(v: Json, w: Json)
    requires Dictionaries(v) && Dictionaries(w) && Encodable(v) && Encodable(w) && Same(v, w)
    ensures Encode(v) == Encode(w)
  {
    EncodeOutcome(v);
    EncodeOutcome(w);
    SameNormal(v, w);
    NormalText(v);
    NormalText(w);
  }

  /** Exact payloads share a text exactly when they differ at most in key order. */
  lemma CanonicalText(v: Json, w: Json)
    requires Dictionaries(v) && Dictionaries(w) && Exact(v) && Exact(w)
    ensures Encode(v) == Encode(w) <==> Same(v, w)
  {
    ExactEncodable(v);
    ExactEncodable(w);
    if Same(v, w) { SameText(v, w); }
    if Encode(v) == Encode(w) {
      DecodesNormal(v);
      DecodesNormal(w);
      NormalSame(v, w);
    }
  }

  /** The encoder refuses exactly the payloads that hold something it has no text for. */
  lemma RefusalExact(v: Json)
    ensures Encode(v) == Err(PayloadInvalid) <==> !Encodable(v)
  {
    EncodeOutcome(v);
  }
}
