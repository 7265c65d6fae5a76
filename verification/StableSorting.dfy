/** Stable sorting of elements by a text key, as a list sort with a key does. */
module StableSorting {

  /** Strict lexicographic order of strings by code point. */
  predicate Before(a: string, b: string) {
    b != "" && (a == "" || a[0] < b[0] || (a[0] == b[0] && Before(a[1..], b[1..])))
  }

  lemma {:induction false} BeforeStrict(a: string, b: string)
    ensures Before(a, b) ==> a != b && !Before(b, a)
    ensures !Before(a, b) && !Before(b, a) ==> a == b
  {
    if a != "" && b != "" {
      BeforeStrict(a[1..], b[1..]);
      assert a == [a[0]] + a[1..] && b == [b[0]] + b[1..];
    }
  }

  lemma {:induction false} BeforeTransitive(a: string, b: string, c: string)
    requires Before(a, b) && !Before(c, b)
    ensures Before(a, c)
  {
    if a != "" && a[0] == b[0] && c != "" && b[0] == c[0] {
      BeforeTransitive(a[1..], b[1..], c[1..]);
    }
  }

  function Filter<T>(f: T -> bool, s: seq<T>): seq<T> {
    if s == [] then [] else (if f(s[0]) then [s[0]] else []) + Filter(f, s[1..])
  }

  lemma {:induction false} InFilter<T>(f: T -> bool, s: seq<T>, x: T)
    ensures x in Filter(f, s) <==> x in s && f(x)
  {
    if s != [] {
      InFilter(f, s[1..], x);
      assert s == [s[0]] + s[1..];
    }
  }

  lemma {:induction false} FilterConcat<T>(f: T -> bool, a: seq<T>, b: seq<T>)
    ensures Filter(f, a + b) == Filter(f, a) + Filter(f, b)
  {
    if a == [] {
      assert a + b == b;
    } else {
      var ab := a + b;
      assert ab[0] == a[0] && ab[1..] == a[1..] + b;
      FilterConcat(f, a[1..], b);
      var h := if f(a[0]) then [a[0]] else [];
      assert h + (Filter(f, a[1..]) + Filter(f, b)) == (h + Filter(f, a[1..])) + Filter(f, b);
    }
  }

  lemma {:induction false} FilterAll<T>(f: T -> bool, s: seq<T>)
    ensures (forall j | 0 <= j < |s| :: f(s[j])) ==> Filter(f, s) == s
    ensures (forall j | 0 <= j < |s| :: !f(s[j])) ==> Filter(f, s) == []
  {
    if s != [] {
      FilterAll(f, s[1..]);
      assert s == [s[0]] + s[1..];
    }
  }

  function Insert<T>(key: T -> string, x: T, s: seq<T>): (r: seq<T>)
    ensures multiset(r) == multiset{x} + multiset(s)
  {
    if s == [] || !Before(key(s[0]), key(x)) then [x] + s
    else
      assert s == [s[0]] + s[1..];
      [s[0]] + Insert(key, x, s[1..])
  }

  /** The list sorted by key, equal keys in their original order. */
  function StableSort<T>(key: T -> string, s: seq<T>): (r: seq<T>)
    ensures multiset(r) == multiset(s)
  {
    if s == [] then []
    else
      assert s == [s[0]] + s[1..];
      Insert(key, s[0], StableSort(key, s[1..]))
  }

  function Mapped<S, T>(f: S -> T, s: seq<S>): seq<T> {
    if s == [] then [] else [f(s[0])] + Mapped(f, s[1..])
  }

  lemma {:induction false} InsertMapped<S, T>(from: S -> string, to: T -> string, f: S -> T, x: S, s: seq<S>)
    requires to(f(x)) == from(x) && forall j | 0 <= j < |s| :: to(f(s[j])) == from(s[j])
    ensures Mapped(f, Insert(from, x, s)) == Insert(to, f(x), Mapped(f, s))
  {
    if s != [] && Before(from(s[0]), from(x)) {
      InsertMapped(from, to, f, x, s[1..]);
      assert Insert(from, x, s)[1..] == Insert(from, x, s[1..]);
      assert Mapped(f, s)[1..] == Mapped(f, s[1..]);
    } else {
      assert ([x] + s)[1..] == s;
    }
  }

  /** Sorting commutes with a map that keeps the key. */
  lemma {:induction false} SortMapped<S, T>(from: S -> string, to: T -> string, f: S -> T, s: seq<S>)
    requires forall j | 0 <= j < |s| :: to(f(s[j])) == from(s[j])
    ensures StableSort(to, Mapped(f, s)) == Mapped(f, StableSort(from, s))
  {
    if s != [] {
      var t := StableSort(from, s[1..]);
      SortMapped(from, to, f, s[1..]);
      forall j | 0 <= j < |t| ensures to(f(t[j])) == from(t[j]) { assert t[j] in multiset(s[1..]); }
      InsertMapped(from, to, f, s[0], t);
      assert Mapped(f, s)[1..] == Mapped(f, s[1..]);
    }
  }

  predicate Sorted<T>(key: T -> string, s: seq<T>) {
    s != [] ==> Least(key, s[0], s[1..]) && Sorted(key, s[1..])
  }

  predicate Least<T>(key: T -> string, x: T, s: seq<T>) {
    forall j | 0 <= j < |s| :: !Before(key(s[j]), key(x))
  }

  lemma LeastMember<T>(key: T -> string, x: T, s: seq<T>, y: T)
    requires Least(key, x, s) && y in s
    ensures !Before(key(y), key(x))
  {
    var j :| 0 <= j < |s| && s[j] == y;
  }

  lemma {:induction false} InsertKeeps<T>(key: T -> string, f: T -> bool, name: string, x: T, s: seq<T>)
    requires f(x) ==> key(x) == name
    requires forall j | 0 <= j < |s| :: f(s[j]) ==> key(s[j]) == name
    ensures Filter(f, Insert(key, x, s)) == Filter(f, [x]) + Filter(f, s)
  {
    if s == [] || !Before(key(s[0]), key(x)) {
      FilterConcat(f, [x], s);
    } else {
      BeforeStrict(key(s[0]), key(x));
      var rest := s[1..];
      assert f(s[0]) ==> !f(x);
      assert forall j | 0 <= j < |rest| :: rest[j] == s[j + 1];
      InsertKeeps(key, f, name, x, rest);
      FilterConcat(f, [s[0]], Insert(key, x, rest));
    }
  }

  lemma SortedAgree<T>(key: T -> string, f: T -> bool, name: string, s: seq<T>)
    requires forall j | 0 <= j < |s| :: f(s[j]) ==> key(s[j]) == name
    ensures forall x | x in StableSort(key, s) :: f(x) ==> key(x) == name
  {
    var t := StableSort(key, s);
    forall x | x in t ensures f(x) ==> key(x) == name {
      assert x in multiset(s);
    }
  }

  /** Elements that agree on the key keep their order, and none is lost. */
  lemma {:induction false} SortKeeps<T>(key: T -> string, f: T -> bool, name: string, s: seq<T>)
    requires forall j | 0 <= j < |s| :: f(s[j]) ==> key(s[j]) == name
    ensures Filter(f, StableSort(key, s)) == Filter(f, s)
  {
    if s != [] {
      SortKeeps(key, f, name, s[1..]);
      SortedAgree(key, f, name, s[1..]);
      InsertKeeps(key, f, name, s[0], StableSort(key, s[1..]));
      assert Filter(f, [s[0]]) == if f(s[0]) then [s[0]] else [];
    }
  }

  lemma {:induction false} InsertSorted<T>(key: T -> string, x: T, s: seq<T>)
    requires Sorted(key, s)
    ensures Sorted(key, Insert(key, x, s))
  {
    if s == [] {
    } else if !Before(key(s[0]), key(x)) {
      forall j | 0 <= j < |s| ensures !Before(key(s[j]), key(x)) {
        if j > 0 {
          LeastMember(key, s[0], s[1..], s[j]);
          if Before(key(s[j]), key(x)) { BeforeTransitive(key(s[j]), key(x), key(s[0])); }
        }
      }
    } else {
      var t := Insert(key, x, s[1..]);
      InsertSorted(key, x, s[1..]);
      BeforeStrict(key(s[0]), key(x));
      forall j | 0 <= j < |t| ensures !Before(key(t[j]), key(s[0])) {
        assert t[j] in multiset(t);
        if t[j] in s[1..] { LeastMember(key, s[0], s[1..], t[j]); }
      }
    }
  }

  lemma {:induction false} SortSorted<T>(key: T -> string, s: seq<T>)
    ensures Sorted(key, StableSort(key, s))
  {
    if s != [] {
      SortSorted(key, s[1..]);
      InsertSorted(key, s[0], StableSort(key, s[1..]));
    }
  }

  function Named<T>(key: T -> string, name: string): T -> bool {
    x => key(x) == name
  }

  lemma HeadFirst<T>(key: T -> string, a: seq<T>, b: seq<T>)
    requires a != [] && b != [] && Sorted(key, b)
    requires Filter(Named(key, key(a[0])), a) == Filter(Named(key, key(a[0])), b)
    ensures !Before(key(a[0]), key(b[0]))
  {
    var f := Named(key, key(a[0]));
    InFilter(f, a, a[0]);
    InFilter(f, b, a[0]);
    if a[0] == b[0] {
      BeforeStrict(key(a[0]), key(a[0]));
    } else {
      LeastMember(key, b[0], b[1..], a[0]);
    }
  }

  lemma TailsAgree<T>(f: T -> bool, a: seq<T>, b: seq<T>)
    requires a != [] && b != [] && a[0] == b[0] && Filter(f, a) == Filter(f, b)
    ensures Filter(f, a[1..]) == Filter(f, b[1..])
  {
    var h := if f(a[0]) then [a[0]] else [];
    assert Filter(f, a)[|h|..] == Filter(f, a[1..]);
    assert Filter(f, b)[|h|..] == Filter(f, b[1..]);
  }

  /** Two sorted lists with the same elements under every name, in order, are one list. */
  lemma {:induction false} SortedUnique<T>(key: T -> string, a: seq<T>, b: seq<T>)
    requires Sorted(key, a) && Sorted(key, b)
    requires forall name: string :: Filter(Named(key, name), a) == Filter(Named(key, name), b)
    ensures a == b
  {
    if a == [] || b == [] {
      if b != [] {
        InFilter(Named(key, key(b[0])), b, b[0]);
      } else if a != [] {
        InFilter(Named(key, key(a[0])), a, a[0]);
      }
    } else {
      HeadFirst(key, a, b);
      HeadFirst(key, b, a);
      BeforeStrict(key(a[0]), key(b[0]));
      assert Filter(Named(key, key(a[0])), a)[0] == a[0];
      assert Filter(Named(key, key(a[0])), b)[0] == b[0];
      forall name: string ensures Filter(Named(key, name), a[1..]) == Filter(Named(key, name), b[1..]) {
        TailsAgree(Named(key, name), a, b);
      }
      SortedUnique(key, a[1..], b[1..]);
      assert a == [a[0]] + a[1..] && b == [b[0]] + b[1..];
    }
  }

  /** Two lists sort alike exactly when they hold the same elements in the same
      order under every name: the order between names is all that sorting forgets. */
  lemma SortCanonical<T>(key: T -> string, a: seq<T>, b: seq<T>)
    ensures StableSort(key, a) == StableSort(key, b)
       <==> forall name: string :: Filter(Named(key, name), a) == Filter(Named(key, name), b)
  {
    forall name: string
      ensures Filter(Named(key, name), StableSort(key, a)) == Filter(Named(key, name), a)
      ensures Filter(Named(key, name), StableSort(key, b)) == Filter(Named(key, name), b)
    {
      SortKeeps(key, Named(key, name), name, a);
      SortKeeps(key, Named(key, name), name, b);
    }
    SortSorted(key, a);
    SortSorted(key, b);
    if forall name: string :: Filter(Named(key, name), a) == Filter(Named(key, name), b) {
      SortedUnique(key, StableSort(key, a), StableSort(key, b));
    }
  }
}
