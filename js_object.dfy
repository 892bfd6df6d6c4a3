/** A JavaScript plain object as the client uses it: an ordered list of properties.
    Assigning to a property that already exists replaces its value and keeps its
    position; assigning to a new one appends it. Object spread (`{...a, ...b}`) is
    that assignment applied to the source's properties in order. Integer-like keys,
    which engines enumerate first, are not distinguished. */
module JsObject {
  import opened Wrappers

  type Object<V> = seq<(string, V)>

  /** The property names in enumeration order (`Object.keys`). */
  function Keys<V>(o: Object<V>): (ks: seq<string>)
    ensures |ks| == |o| && forall i :: 0 <= i < |o| ==> ks[i] == o[i].0
  {
    if o == [] then [] else [o[0].0] + Keys(o[1..])
  }

  /** Real JavaScript objects never hold a property name twice. */
  predicate UniqueKeys<V>(o: Object<V>) {
    forall i, j :: 0 <= i < j < |o| ==> o[i].0 != o[j].0
  }

  /** The position of property `k` in `o`, or -1 when `o` has no such property. */
  function IndexOf<V>(o: Object<V>, k: string): (i: int)
    ensures -1 <= i < |o|
    ensures 0 <= i ==> o[i].0 == k && forall j :: 0 <= j < i ==> o[j].0 != k
    ensures i < 0 <==> k !in Keys(o)
  {
    if o == [] then -1
    else if o[0].0 == k then 0
    else
      var j := IndexOf(o[1..], k);
      if j < 0 then -1 else j + 1
  }

  /** Property read: `o[k]`, or None when `o` has no property `k`. */
  function Lookup<V>(o: Object<V>, k: string): (r: Option<V>)
    ensures r.None? <==> k !in Keys(o)
    ensures r.Some? ==> (k, r.value) in o
  {
    var i := IndexOf(o, k);
    if i < 0 then None else Some(o[i].1)
  }

  /** Property assignment `o[k] = v`. */
  function Set<V>(o: Object<V>, k: string, v: V): (r: Object<V>)
    ensures k !in Keys(o) ==> r == o + [(k, v)]
    ensures k in Keys(o) ==> |r| == |o| && Keys(r) == Keys(o)
  {
    var i := IndexOf(o, k);
    if i < 0 then o + [(k, v)] else o[i := (k, v)]
  }

  /** After `o[k] = v`, reading `k` gives `v` and reading any other name gives what it
      gave before. */
  lemma SetLookup<V>(o: Object<V>, k: string, v: V, k': string)
    ensures Lookup(Set(o, k, v), k') == if k' == k then Some(v) else Lookup(o, k')
  {
    if k' == k {
      SetLookupSame(o, k, v);
    } else {
      SetLookupOther(o, k, v, k');
    }
  }

  /** Two objects whose names agree on where `k` occurs give the same read of `k`. */
  lemma {:induction false} LookupSameOccurrences<V>(o: Object<V>, r: Object<V>, k: string)
    requires forall j :: 0 <= j < |o| && j < |r| ==> (o[j].0 == k <==> r[j].0 == k)
    requires forall j :: 0 <= j < |o| && j < |r| && o[j].0 == k ==> o[j] == r[j]
    requires forall j :: |o| <= j < |r| ==> r[j].0 != k
    requires forall j :: |r| <= j < |o| ==> o[j].0 != k
    ensures Lookup(o, k) == Lookup(r, k)
    decreases |o|
  {
    if o != [] && r != [] && o[0].0 != k {
      LookupSameOccurrences(o[1..], r[1..], k);
    }
  }

  lemma {:induction false} LookupAppended<V>(o: Object<V>, k: string, v: V)
    requires k !in Keys(o)
    ensures Lookup(o + [(k, v)], k) == Some(v)
    decreases |o|
  {
    if o != [] {
      assert (o + [(k, v)])[1..] == o[1..] + [(k, v)];
      KeysOfTail(o);
      LookupAppended(o[1..], k, v);
    }
  }

  lemma SetLookupSame<V>(o: Object<V>, k: string, v: V)
    ensures Lookup(Set(o, k, v), k) == Some(v)
  {
    var i := IndexOf(o, k);
    if i < 0 {
      LookupAppended(o, k, v);
    } else {
      var r := Set(o, k, v);
      assert r[i] == (k, v);
    }
  }

  lemma SetLookupOther<V>(o: Object<V>, k: string, v: V, k': string)
    requires k' != k
    ensures Lookup(Set(o, k, v), k') == Lookup(o, k')
  {
    LookupSameOccurrences(o, Set(o, k, v), k');
  }

  /** On an object with distinct names, assigning an existing property changes that
      property's value in place and nothing else. */
  lemma SetInPlace<V>(o: Object<V>, k: string, v: V)
    requires UniqueKeys(o) && k in Keys(o)
    ensures forall i :: 0 <= i < |o| ==> Set(o, k, v)[i] == (if o[i].0 == k then (k, v) else o[i])
    ensures UniqueKeys(Set(o, k, v))
  {
  }

  /** Assignment keeps property names distinct. */
  lemma SetUnique<V>(o: Object<V>, k: string, v: V)
    requires UniqueKeys(o)
    ensures UniqueKeys(Set(o, k, v))
  {
    if k in Keys(o) {
      SetInPlace(o, k, v);
    }
  }

  /** Object spread `{...o, ...src}`: the properties of `src` assigned into `o` in order. */
  function Spread<V>(o: Object<V>, src: Object<V>): (r: Object<V>)
    ensures |r| >= |o| && forall i :: 0 <= i < |o| ==> r[i].0 == o[i].0
    decreases |src|
  {
    if src == [] then o else Spread(Set(o, src[0].0, src[0].1), src[1..])
  }

  /** The names of `ks` missing from `seen`, each once, in first-occurrence order. */
  function NewKeys(seen: seq<string>, ks: seq<string>): seq<string>
    decreases |ks|
  {
    if ks == [] then []
    else if ks[0] in seen then NewKeys(seen, ks[1..])
    else [ks[0]] + NewKeys(seen + [ks[0]], ks[1..])
  }

  lemma KeysOfTail<V>(o: Object<V>)
    requires o != []
    ensures Keys(o) == [o[0].0] + Keys(o[1..])
  {
  }

  /** Spreading keeps the target's properties where they are and appends the source's
      new property names after them, in the source's order. */
  lemma {:induction false} SpreadKeys<V>(o: Object<V>, src: Object<V>)
    ensures Keys(Spread(o, src)) == Keys(o) + NewKeys(Keys(o), Keys(src))
    decreases |src|
  {
    if src != [] {
      var (k, v) := src[0];
      var o' := Set(o, k, v);
      KeysOfTail(src);
      SpreadKeys(o', src[1..]);
      if k !in Keys(o) {
        assert Keys(o') == Keys(o) + [k];
      }
    }
  }

  /** After spreading, a property has the source's value when the source has it and
      the target's value otherwise. */
  lemma {:induction false} SpreadLookup<V>(o: Object<V>, src: Object<V>, k: string)
    requires UniqueKeys(src)
    ensures Lookup(Spread(o, src), k) == if k in Keys(src) then Lookup(src, k) else Lookup(o, k)
    decreases |src|
  {
    if src != [] {
      KeysOfTail(src);
      SetLookup(o, src[0].0, src[0].1, k);
      SpreadLookup(Set(o, src[0].0, src[0].1), src[1..], k);
    }
  }

  /** Spreading preserves distinct property names. */
  lemma {:induction false} SpreadUnique<V>(o: Object<V>, src: Object<V>)
    requires UniqueKeys(o)
    ensures UniqueKeys(Spread(o, src))
    decreases |src|
  {
    if src != [] {
      SetUnique(o, src[0].0, src[0].1);
      SpreadUnique(Set(o, src[0].0, src[0].1), src[1..]);
    }
  }

  /** Every property of a spread comes from the target or from the source. */
  lemma {:induction false} SpreadEntries<V>(o: Object<V>, src: Object<V>)
    ensures forall e :: e in Spread(o, src) ==> e in o || e in src
    decreases |src|
  {
    if src != [] {
      var o' := Set(o, src[0].0, src[0].1);
      SetEntries(o, src[0].0, src[0].1);
      SpreadEntries(o', src[1..]);
    }
  }

  lemma SetEntries<V>(o: Object<V>, k: string, v: V)
    ensures forall e :: e in Set(o, k, v) ==> e in o || e == (k, v)
  {
    var i := IndexOf(o, k);
    if 0 <= i {
      forall e | e in o[i := (k, v)] ensures e in o || e == (k, v) {
        var j :| 0 <= j < |o| && o[i := (k, v)][j] == e;
        if j != i { assert o[j] == e; }
      }
    }
  }

  lemma KeysConcat<V>(a: Object<V>, b: Object<V>)
    ensures Keys(a + b) == Keys(a) + Keys(b)
  {
  }

  lemma UniqueTail<V>(o: Object<V>)
    requires o != [] && UniqueKeys(o)
    ensures UniqueKeys(o[1..])
    ensures o[0].0 !in Keys(o[1..])
  {
    KeysOfTail(o);
    assert forall i :: 0 <= i < |o[1..]| ==> o[1..][i] == o[i + 1];
  }

  /** Spreading an object with distinct names into an object that shares none of them
      appends it unchanged; in particular `{...src}` copies `src`. */
  lemma {:induction false} SpreadDisjoint<V>(o: Object<V>, src: Object<V>)
    requires UniqueKeys(src)
    requires forall k :: k in Keys(src) ==> k !in Keys(o)
    ensures Spread(o, src) == o + src
    decreases |src|
  {
    if src != [] {
      var o' := o + [src[0]];
      DisjointStep(o, src);
      SpreadDisjoint(o', src[1..]);
      ShiftFirst(o, src);
    }
  }

  lemma ShiftFirst<V>(o: Object<V>, src: Object<V>)
    requires src != []
    ensures (o + [src[0]]) + src[1..] == o + src
  {
    assert [src[0]] + src[1..] == src;
  }

  lemma DisjointStep<V>(o: Object<V>, src: Object<V>)
    requires src != [] && UniqueKeys(src)
    requires forall k :: k in Keys(src) ==> k !in Keys(o)
    ensures Spread(o, src) == Spread(o + [src[0]], src[1..])
    ensures UniqueKeys(src[1..])
    ensures forall k :: k in Keys(src[1..]) ==> k !in Keys(o + [src[0]])
  {
    UniqueTail(src);
    KeysOfTail(src);
    KeysConcat(o, [src[0]]);
    assert Keys(o + [src[0]]) == Keys(o) + [src[0].0];
  }
}
