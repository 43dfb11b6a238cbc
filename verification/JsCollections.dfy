// Insertion-ordered collections: what a JavaScript `Map` is, and what the entries of its own are of a
// plain object used as a record; the names such an object inherits; and the order-preserving removals
// the code uses on lists.
module JsCollections {
  import opened Options

  ghost predicate NoDup<T>(s: seq<T>) {
    forall i, j :: 0 <= i < j < |s| ==> s[i] != s[j]
  }

  const PROTO := "__proto__"

  // The names under which a plain object `{}` answers without having an entry: those of
  // `Object.prototype`, as the ECMAScript specification lists them. `__proto__` is one of them, and
  // is an accessor: what is assigned to it makes no entry.
  predicate Inherited(name: string) {
    name in {
      PROTO, "constructor", "hasOwnProperty", "isPrototypeOf", "propertyIsEnumerable", "toLocaleString",
      "toString", "valueOf", "__defineGetter__", "__defineSetter__", "__lookupGetter__", "__lookupSetter__"}
  }

  // `keys` is the insertion order of the keys of `at`.
  datatype JsMap<K(==,!new), V> = JsMap(keys: seq<K>, at: map<K, V>) {

    ghost predicate Valid() {
      NoDup(keys) && forall k :: k in keys <==> k in at
    }

    predicate Has(k: K) {
      k in at
    }

    // Setting a key that is present keeps its place; a new key goes last.
    function Set(k: K, v: V): (m: JsMap<K, V>)
      ensures Valid() ==> m.Valid()
    {
      JsMap(if k in at then keys else keys + [k], at[k := v])
    }

    function Delete(k: K): JsMap<K, V> {
      if k in at then JsMap(Without(keys, k), map j | j in at && j != k :: at[j]) else this
    }
  }

  lemma DeleteValid<K(!new), V>(m: JsMap<K, V>, k: K)
    requires m.Valid()
    ensures m.Delete(k).Valid()
  {
    ExceptNoDup(m.keys, {k});
    InExcept(m.keys, {k});
  }

  // The elements outside a set, in the same order.
  function Except<T(==)>(s: seq<T>, out: set<T>): seq<T> {
    if s == [] then [] else Except(s[..|s| - 1], out) + if s[|s| - 1] in out then [] else [s[|s| - 1]]
  }

  function Without<T(==)>(s: seq<T>, x: T): seq<T> {
    Except(s, {x})
  }

  lemma {:induction false} InExcept<T(!new)>(s: seq<T>, out: set<T>)
    ensures forall x :: x in Except(s, out) <==> x in s && x !in out
  {
    if s != [] {
      InExcept(s[..|s| - 1], out);
    }
  }

  lemma {:induction false} ExceptNoDup<T(!new)>(s: seq<T>, out: set<T>)
    requires NoDup(s)
    ensures NoDup(Except(s, out))
  {
    if s != [] {
      var n := |s| - 1;
      ExceptNoDup(s[..n], out);
      InExcept(s[..n], out);
    }
  }

  lemma ExceptAppend<T>(s: seq<T>, x: T, out: set<T>)
    ensures Except(s + [x], out) == Except(s, out) + if x in out then [] else [x]
  {
    assert (s + [x])[..|s|] == s;
  }

  lemma {:induction false} ExceptConcat<T>(s: seq<T>, t: seq<T>, out: set<T>)
    ensures Except(s + t, out) == Except(s, out) + Except(t, out)
  {
    if t == [] {
      assert s + t == s;
    } else {
      var n := |t| - 1;
      assert (s + t)[..|s + t| - 1] == s + t[..n];
      ExceptConcat(s, t[..n], out);
    }
  }

  lemma {:induction false} ExceptTwice<T>(s: seq<T>, out: set<T>, more: set<T>)
    ensures Except(Except(s, out), more) == Except(s, out + more)
  {
    if s != [] {
      var n := |s| - 1;
      ExceptTwice(s[..n], out, more);
      if s[n] !in out {
        ExceptAppend(Except(s[..n], out), s[n], more);
      } else {
        assert Except(s, out) == Except(s[..n], out);
      }
    }
  }

  // Sets that agree on the elements leave the same ones.
  lemma {:induction false} ExceptSame<T>(s: seq<T>, out: set<T>, other: set<T>)
    requires forall x :: x in s ==> (x in out <==> x in other)
    ensures Except(s, out) == Except(s, other)
  {
    if s != [] {
      ExceptSame(s[..|s| - 1], out, other);
    }
  }

  lemma {:induction false} ExceptNone<T>(s: seq<T>, out: set<T>)
    requires forall x :: x in s ==> x !in out
    ensures Except(s, out) == s
  {
    if s != [] {
      ExceptNone(s[..|s| - 1], out);
    }
  }

  lemma {:induction false} ExceptSize<T>(s: seq<T>, out: set<T>)
    ensures |Except(s, out)| <= |s|
    ensures (exists x :: x in s && x in out) ==> |Except(s, out)| < |s|
  {
    if s != [] {
      var n := |s| - 1;
      ExceptSize(s[..n], out);
      assert forall x :: x in s <==> x in s[..n] || x == s[n];
    }
  }

  // The first place of an element.
  function IndexOf<T(==)>(s: seq<T>, x: T): (k: Option<nat>)
    ensures k.Some? ==> k.value < |s| && s[k.value] == x && forall i :: 0 <= i < k.value ==> s[i] != x
    ensures k.None? ==> forall i :: 0 <= i < |s| ==> s[i] != x
  {
    if s == [] then None
    else
      var k := IndexOf(s[..|s| - 1], x);
      if k.None? && s[|s| - 1] == x then Some(|s| - 1) else k
  }

  // ---------- sequences of sequences ----------

  function Flatten<T>(ss: seq<seq<T>>): seq<T> {
    if ss == [] then [] else Flatten(ss[..|ss| - 1]) + ss[|ss| - 1]
  }

  lemma {:induction false} FlattenCons<T>(s: seq<T>, ss: seq<seq<T>>)
    ensures Flatten([s] + ss) == s + Flatten(ss)
  {
    if ss == [] {
      assert Flatten([s]) == Flatten([s][..0]) + s;
    } else {
      var n := |ss| - 1;
      assert ([s] + ss)[..n + 1] == [s] + ss[..n];
      FlattenCons(s, ss[..n]);
    }
  }
}
