/** JavaScript values as the schema pipeline builds them.

    An object is a list of members in insertion order, because the order
    in which `reduce` and the conditional loop add members is observable in
    the schema they print. `Undefined` is the value a member gets when it is
    copied from an attribute that a descriptor does not have: the member is
    still present, with the value `undefined`. */
module JsonValues {
  import opened Wrappers

  datatype Json =
    | Undefined
    | Null
    | Bool(b: bool)
    | Int(n: int)
    | Str(s: string)
    | Arr(elems: seq<Json>)
    | Obj(fields: Fields)

  /** Named entries in order, as `Object.entries` lists them. */
  type Entries<V> = seq<(string, V)>

  type Fields = Entries<Json>

  function Keys<V>(f: Entries<V>): (ks: seq<string>)
    ensures |ks| == |f|
    ensures forall i :: 0 <= i < |f| ==> ks[i] == f[i].0
  {
    if f == [] then [] else [f[0].0] + Keys(f[1..])
  }

  /** What a JavaScript object guarantees: no key occurs twice. */
  predicate DistinctKeys<V>(f: Entries<V>) {
    forall i, j :: 0 <= i < j < |f| ==> f[i].0 != f[j].0
  }

  /** Property lookup: `None` when the key is not a member. */
  function Get<V>(f: Entries<V>, k: string): (r: Option<V>)
    ensures r.None? <==> k !in Keys(f)
  {
    if f == [] then None
    else if f[0].0 == k then Some(f[0].1)
    else Get(f[1..], k)
  }

  lemma {:induction false} GetDistinct<V>(f: Entries<V>, i: int)
    requires DistinctKeys(f) && 0 <= i < |f|
    ensures Get(f, f[i].0) == Some(f[i].1)
  {
    if i > 0 {
      assert f[0].0 != f[i].0;
      assert f[1..][i - 1] == f[i];
      GetDistinct(f[1..], i - 1);
    }
  }

  /** In an object without repeated keys, every member reads back its own value. */
  lemma {:induction false} ObjectLookups<V>(f: Entries<V>)
    requires DistinctKeys(f)
    ensures forall i :: 0 <= i < |f| ==> Get(f, f[i].0) == Some(f[i].1)
  {
    forall i | 0 <= i < |f| ensures Get(f, f[i].0) == Some(f[i].1) {
      GetDistinct(f, i);
    }
  }

  /** Property assignment `o[k] = v`: an existing member keeps its place and
      takes the new value; a new member is added at the end. */
  function Set<V>(f: Entries<V>, k: string, v: V): (r: Entries<V>)
    ensures |r| == if k in Keys(f) then |f| else |f| + 1
  {
    if f == [] then [(k, v)]
    else if f[0].0 == k then [(k, v)] + f[1..]
    else [f[0]] + Set(f[1..], k, v)
  }

  /** After the assignment, `k` reads back `v`. */
  lemma {:induction false} SetGet<V>(f: Entries<V>, k: string, v: V)
    ensures Get(Set(f, k, v), k) == Some(v)
  {
    if f != [] && f[0].0 != k {
      SetGet(f[1..], k, v);
    }
  }

  /** After the assignment, every other key reads what it read before. */
  lemma {:induction false} SetGetOther<V>(f: Entries<V>, k: string, v: V, k': string)
    requires k' != k
    ensures Get(Set(f, k, v), k') == Get(f, k')
  {
    if f != [] && f[0].0 != k {
      SetGetOther(f[1..], k, v, k');
    }
  }

  /** The key order changes only by appending a key that was not there. */
  lemma {:induction false} SetKeys<V>(f: Entries<V>, k: string, v: V)
    ensures Keys(Set(f, k, v)) == if k in Keys(f) then Keys(f) else Keys(f) + [k]
  {
    if f != [] && f[0].0 != k {
      SetKeys(f[1..], k, v);
    }
  }

  /** A second assignment to the same key overwrites the first one entirely. */
  lemma {:induction false} SetTwice<V>(f: Entries<V>, k: string, u: V, v: V)
    ensures Set(Set(f, k, u), k, v) == Set(f, k, v)
  {
    if f != [] && f[0].0 != k {
      SetTwice(f[1..], k, u, v);
      assert Set(f, k, u)[1..] == Set(f[1..], k, u);
    }
  }

  /** Reading member `k` of a value; only objects have members. */
  function Member(j: Json, k: string): Option<Json> {
    if j.Obj? then Get(j.fields, k) else None
  }

  /** Reading a chain of members, `j.p0.p1...`. */
  function Path(j: Json, p: seq<string>): Option<Json>
    decreases |p|
  {
    if p == [] then Some(j)
    else match Member(j, p[0])
      case None => None
      case Some(c) => Path(c, p[1..])
  }

  /** A path reads its first member, then the rest of the path from there. */
  lemma PathStep(j: Json, a: string, rest: seq<string>)
    ensures Path(j, [a] + rest) == if Member(j, a).Some? then Path(Member(j, a).value, rest) else None
  {
    assert ([a] + rest)[0] == a && ([a] + rest)[1..] == rest;
  }

  /** A two-step path reads a member of a member. */
  lemma PathTwo(j: Json, a: string, b: string)
    ensures Path(j, [a, b]) == if Member(j, a).Some? then Member(Member(j, a).value, b) else None
  {
    var p, q := [a, b], [b];
    assert p[0] == a && p[1..] == q && q[0] == b && q[1..] == [];
    if Member(j, a).Some? {
      var c := Member(j, a).value;
      assert Path(j, p) == Path(c, q);
      if Member(c, b).Some? {
        assert Path(c, q) == Path(Member(c, b).value, []);
      }
    }
  }

  /** A value that was found, is an object, and has exactly the given members in that order. */
  predicate ObjectWithKeys(v: Option<Json>, keys: seq<string>) {
    v.Some? && v.value.Obj? && Keys(v.value.fields) == keys
  }

  /** An object is determined by its keys and what they hold: one with the
      single member `a` is `{a: j.a}`. */
  lemma OneMember(j: Json, a: string)
    requires ObjectWithKeys(Some(j), [a])
    ensures Member(j, a).Some? && j == Obj([(a, Member(j, a).value)])
  {
    assert j.fields[0].0 == a;
  }

  /** One with the members `a` and then `b` is `{a: j.a, b: j.b}`. */
  lemma TwoMembers(j: Json, a: string, b: string)
    requires a != b && ObjectWithKeys(Some(j), [a, b])
    ensures Member(j, a).Some? && Member(j, b).Some?
    ensures j == Obj([(a, Member(j, a).value), (b, Member(j, b).value)])
  {
    var f := j.fields;
    assert f[0].0 == a && f[1].0 == b;
    assert DistinctKeys(f);
    GetDistinct(f, 0);
    GetDistinct(f, 1);
  }

  function Reverse<T>(s: seq<T>): (r: seq<T>)
    ensures |r| == |s|
    ensures forall i :: 0 <= i < |s| ==> r[i] == s[|s| - 1 - i]
  {
    if s == [] then [] else [s[|s| - 1]] + Reverse(s[..|s| - 1])
  }

  /** Two objects whose members' keys come in opposite orders have the same
      keys, and one has repeated keys only if the other does. */
  lemma {:induction false} ReversedKeys<U, V>(a: Entries<U>, b: Entries<V>)
    requires |b| == |a|
    requires forall i :: 0 <= i < |b| ==> b[i].0 == a[|a| - 1 - i].0
    ensures Keys(b) == Reverse(Keys(a))
    ensures DistinctKeys(a) ==> DistinctKeys(b)
    ensures forall k :: k in Keys(b) <==> k in Keys(a)
  {
    ReversedKeyList(a, b);
    ReversedKeySet(a, b);
    if DistinctKeys(a) {
      ReversedDistinct(a, b);
    }
  }

  lemma {:induction false} ReversedKeyList<U, V>(a: Entries<U>, b: Entries<V>)
    requires |b| == |a|
    requires forall i :: 0 <= i < |b| ==> b[i].0 == a[|a| - 1 - i].0
    ensures Keys(b) == Reverse(Keys(a))
  {
    var n := |a|;
    var ka, kb, rka := Keys(a), Keys(b), Reverse(Keys(a));
    forall i | 0 <= i < n ensures kb[i] == rka[i] {
      var j := n - 1 - i;
      calc {
        kb[i];
        b[i].0;
        a[j].0;
        ka[j];
        rka[i];
      }
    }
    assert kb == rka;
  }

  lemma {:induction false} ReversedKeySet<U, V>(a: Entries<U>, b: Entries<V>)
    requires |b| == |a|
    requires forall i :: 0 <= i < |b| ==> b[i].0 == a[|a| - 1 - i].0
    ensures forall k :: k in Keys(b) <==> k in Keys(a)
  {
    var n := |a|;
    var kb, ka := Keys(b), Keys(a);
    forall k ensures k in kb <==> k in ka {
      if k in kb {
        var i :| 0 <= i < n && kb[i] == k;
        assert ka[n - 1 - i] == k;
      }
      if k in ka {
        var i :| 0 <= i < n && ka[i] == k;
        assert b[n - 1 - i].0 == a[i].0;
        assert kb[n - 1 - i] == k;
      }
    }
  }

  lemma {:induction false} ReversedDistinct<U, V>(a: Entries<U>, b: Entries<V>)
    requires |b| == |a|
    requires forall i :: 0 <= i < |b| ==> b[i].0 == a[|a| - 1 - i].0
    requires DistinctKeys(a)
    ensures DistinctKeys(b)
  {
    var n := |a|;
    forall i, j | 0 <= i < j < n ensures b[i].0 != b[j].0 {
      assert a[n - 1 - j].0 != a[n - 1 - i].0;
    }
  }
}
