/** A plain JavaScript object used as a dictionary from string keys, as the
    pages' `reduce((acc, x) => { acc[k] = ...; return acc }, {})` build it:
    a list of entries in the order the keys were first assigned, which is
    the order `Object.keys` lists them in. */
module Assoc {
  import opened Models
  import opened Seqs

  /** One own property of the object. */
  datatype Entry<V> = Entry(key: string, value: V)

  /** `Object.keys(obj)`. */
  function Keys<V>(es: seq<Entry<V>>): (r: seq<string>)
    ensures |r| == |es|
    ensures forall i :: 0 <= i < |es| ==> r[i] == es[i].key
  {
    if es == [] then [] else [es[0].key] + Keys(es[1..])
  }

  /** No key appears twice: an object has one property per name. */
  ghost predicate DistinctKeys<V>(es: seq<Entry<V>>)
  {
    forall i, j :: 0 <= i < j < |es| ==> es[i].key != es[j].key
  }

  /** Where key `k` is: the first position holding it, or `|es|`. */
  function IndexOf<V>(es: seq<Entry<V>>, k: string): (i: nat)
    ensures i <= |es|
    ensures i < |es| ==> es[i].key == k
    ensures forall j :: 0 <= j < i ==> es[j].key != k
  {
    if es == [] then 0
    else if es[0].key == k then 0
    else 1 + IndexOf(es[1..], k)
  }

  /** `k in obj` holds exactly when `IndexOf` finds the key. */
  lemma KeysIndexOf<V>(es: seq<Entry<V>>, k: string)
    ensures k in Keys(es) <==> IndexOf(es, k) < |es|
  {
    var i, ks := IndexOf(es, k), Keys(es);
    if i < |es| {
      assert ks[i] == k;
    } else {
      assert forall j :: 0 <= j < |ks| ==> ks[j] != k;
    }
  }

  /** `obj[k] = f(k in obj ? obj[k] : init)`: a new key goes last with
      `f(init)`; an existing key keeps its place and its value `v` becomes
      `f(v)`; every other property stays as it was. */
  function Upsert<V>(es: seq<Entry<V>>, k: string, init: V, f: V -> V): (r: seq<Entry<V>>)
    ensures IndexOf(es, k) == |es| ==> r == es + [Entry(k, f(init))]
    ensures IndexOf(es, k) < |es| ==>
      var i := IndexOf(es, k);
      r == es[i := Entry(k, f(es[i].value))]
  {
    if es == [] then [Entry(k, f(init))]
    else if es[0].key == k then [Entry(k, f(es[0].value))] + es[1..]
    else
      var rest := Upsert(es[1..], k, init, f);
      var j := IndexOf(es[1..], k);
      if j < |es| - 1 then
        ConsUpdate(es, j, Entry(k, f(es[j + 1].value)));
        [es[0]] + rest
      else
        ConsAppend(es, Entry(k, f(init)));
        [es[0]] + rest
  }

  lemma ConsUpdate<T>(s: seq<T>, j: nat, x: T)
    requires j + 1 < |s|
    ensures [s[0]] + s[1..][j := x] == s[j + 1 := x]
  {
  }

  lemma ConsAppend<T>(s: seq<T>, x: T)
    requires s != []
    ensures [s[0]] + (s[1..] + [x]) == s + [x]
  {
  }

  /** Assigning a property keeps the names distinct. */
  lemma UpsertDistinct<V>(es: seq<Entry<V>>, k: string, init: V, f: V -> V)
    requires DistinctKeys(es)
    ensures DistinctKeys(Upsert(es, k, init, f))
  {
    KeysIndexOf(es, k);
    var r := Upsert(es, k, init, f);
    if k in Keys(es) {
      forall i, j | 0 <= i < j < |r| ensures r[i].key != r[j].key {
        assert r[i].key == es[i].key && r[j].key == es[j].key;
      }
    } else {
      forall i, j | 0 <= i < j < |r| ensures r[i].key != r[j].key {
        if j == |es| {
          assert Keys(es)[i] == es[i].key;
        }
      }
    }
  }

  /** `Object.keys` after the assignment: unchanged for an existing key,
      the new key appended otherwise. */
  lemma UpsertKeys<V>(es: seq<Entry<V>>, k: string, init: V, f: V -> V)
    ensures Keys(Upsert(es, k, init, f)) == if k in Keys(es) then Keys(es) else Keys(es) + [k]
  {
    if k in Keys(es) {
      UpsertKeysPresent(es, k, init, f);
    } else {
      UpsertKeysAbsent(es, k, init, f);
    }
  }

  lemma UpsertKeysPresent<V>(es: seq<Entry<V>>, k: string, init: V, f: V -> V)
    requires k in Keys(es)
    ensures Keys(Upsert(es, k, init, f)) == Keys(es)
  {
    KeysIndexOf(es, k);
    var i := IndexOf(es, k);
    SameKeys(es[i := Entry(k, f(es[i].value))], es);
  }

  lemma SameKeys<V>(a: seq<Entry<V>>, b: seq<Entry<V>>)
    requires |a| == |b| && forall j :: 0 <= j < |a| ==> a[j].key == b[j].key
    ensures Keys(a) == Keys(b)
  {
    var ka, kb := Keys(a), Keys(b);
    assert forall j :: 0 <= j < |ka| ==> ka[j] == kb[j];
  }

  lemma UpsertKeysAbsent<V>(es: seq<Entry<V>>, k: string, init: V, f: V -> V)
    requires k !in Keys(es)
    ensures Keys(Upsert(es, k, init, f)) == Keys(es) + [k]
  {
    KeysIndexOf(es, k);
    var r := Upsert(es, k, init, f);
    var kr, ke := Keys(r), Keys(es) + [k];
    forall i | 0 <= i < |kr| ensures kr[i] == ke[i] {
      assert r[i] == (es + [Entry(k, f(init))])[i];
    }
  }

  /** A sum over the entries after the assignment: the assigned entry's
      term replaces the old one, or is added when the key is new. */
  lemma UpsertSumBy<V>(es: seq<Entry<V>>, k: string, init: V, f: V -> V, g: Entry<V> -> int)
    ensures SumBy(Upsert(es, k, init, f), g) ==
      if k in Keys(es) then
        var i := IndexOf(es, k);
        SumBy(es, g) - g(es[i]) + g(Entry(k, f(es[i].value)))
      else SumBy(es, g) + g(Entry(k, f(init)))
  {
    KeysIndexOf(es, k);
    var i := IndexOf(es, k);
    if i < |es| {
      var e := Entry(k, f(es[i].value));
      assert Upsert(es, k, init, f) == es[i := e];
      SumByUpdate(es, i, e, g);
    } else {
      var e := Entry(k, f(init));
      assert Upsert(es, k, init, f) == es + [e];
      SumBySnoc(es, e, g);
    }
  }

  lemma SumBySnoc<T>(s: seq<T>, x: T, g: T -> int)
    ensures SumBy(s + [x], g) == SumBy(s, g) + g(x)
  {
    assert (s + [x])[..|s|] == s;
  }
}
