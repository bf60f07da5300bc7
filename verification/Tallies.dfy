/** A JavaScript Map used as a running total: keys keep their insertion order. */
module Tallies {
  import opened Sums

  datatype Entry<K> = Entry(key: K, amount: int)

  datatype Tally<K(==)> = Tally(keys: seq<K>, totals: map<K, int>)

  /** totals.get(k) ?? 0 */
  function Total<K>(t: Tally<K>, k: K): int { if k in t.totals then t.totals[k] else 0 }

  /** totals.set(k, (totals.get(k) ?? 0) + amount) */
  function Add<K>(t: Tally<K>, e: Entry<K>): Tally<K> {
    Tally(if e.key in t.totals then t.keys else t.keys + [e.key], t.totals[e.key := Total(t, e.key) + e.amount])
  }

  function TallyOf<K>(entries: seq<Entry<K>>): Tally<K> {
    if entries == [] then Tally([], map[])
    else Add(TallyOf(entries[..|entries| - 1]), entries[|entries| - 1])
  }

  lemma TallyAdd<K>(entries: seq<Entry<K>>, e: Entry<K>)
    ensures TallyOf(entries + [e]) == Add(TallyOf(entries), e)
  {
    assert (entries + [e])[..|entries|] == entries;
  }

  lemma TallyTake<K>(before: seq<Entry<K>>, entries: seq<Entry<K>>, j: nat)
    requires j < |entries|
    ensures TallyOf(before + entries[..j + 1]) == Add(TallyOf(before + entries[..j]), entries[j])
  {
    assert before + entries[..j + 1] == before + entries[..j] + [entries[j]];
    TallyAdd(before + entries[..j], entries[j]);
  }

  ghost predicate WellFormed<K(!new)>(t: Tally<K>) {
    && (forall i, j | 0 <= i < j < |t.keys| :: t.keys[i] != t.keys[j])
    && (forall k :: k in t.keys <==> k in t.totals)
  }

  lemma {:induction false} TallyIsWellFormed<K(!new)>(entries: seq<Entry<K>>)
    ensures WellFormed(TallyOf(entries))
    ensures forall k :: k in TallyOf(entries).keys <==> exists i :: 0 <= i < |entries| && entries[i].key == k
  {
    if entries != [] {
      var n := |entries| - 1;
      TallyIsWellFormed(entries[..n]);
      forall k ensures k in TallyOf(entries).keys <==> exists i :: 0 <= i < |entries| && entries[i].key == k {
        if exists i :: 0 <= i < n && entries[..n][i].key == k {
          var i :| 0 <= i < n && entries[..n][i].key == k;
          assert entries[i].key == k;
        } else if k != entries[n].key {
          forall i | 0 <= i < n ensures entries[i].key != k { assert entries[..n][i].key != k; }
        }
      }
    }
  }

  function TotalIf<K>(t: Tally<K>, p: K -> bool): K -> int { (k: K) => if p(k) then Total(t, k) else 0 }

  function AmountIf<K>(p: K -> bool): Entry<K> -> int { (e: Entry<K>) => if p(e.key) then e.amount else 0 }

  lemma {:induction false} SumOther<K(!new)>(keys: seq<K>, u: K -> int, v: K -> int, k: K)
    requires forall x | x in keys :: x != k ==> u(x) == v(x)
    requires forall i, j | 0 <= i < j < |keys| :: keys[i] != keys[j]
    ensures Sum(keys, u) - Sum(keys, v) == if k in keys then u(k) - v(k) else 0
  {
    if keys != [] {
      var n := |keys| - 1;
      assert keys[n] in keys;
      SumOther(keys[..n], u, v, k);
      if k in keys[..n] {
        var i :| 0 <= i < n && keys[..n][i] == k;
        assert keys[i] != keys[n];
      }
    }
  }

  /** Grouping loses nothing: any selection of keys has its entries' total. */
  lemma {:induction false} TallySum<K(!new)>(entries: seq<Entry<K>>, p: K -> bool)
    ensures Sum(TallyOf(entries).keys, TotalIf(TallyOf(entries), p)) == Sum(entries, AmountIf(p))
  {
    if entries != [] {
      var n := |entries| - 1;
      var e, before, after := entries[n], TallyOf(entries[..n]), TallyOf(entries);
      TallySum(entries[..n], p);
      TallyIsWellFormed(entries[..n]);
      if e.key in before.totals {
        SumOther(after.keys, TotalIf(after, p), TotalIf(before, p), e.key);
      } else {
        SumAppend(before.keys, [e.key], TotalIf(after, p));
        SumOne(e.key, TotalIf(after, p));
        SumEqual(before.keys, TotalIf(after, p), TotalIf(before, p));
      }
    }
  }

  lemma {:induction false} SumSingle<K(!new)>(keys: seq<K>, u: K -> int, k: K)
    requires forall x | x in keys :: x != k ==> u(x) == 0
    requires forall i, j | 0 <= i < j < |keys| :: keys[i] != keys[j]
    ensures Sum(keys, u) == if k in keys then u(k) else 0
  {
    SumOther(keys, u, Zero<K>(), k);
    SumZero(keys, Zero<K>());
  }

  function Zero<K>(): K -> int { (k: K) => 0 }

  function IsKey<K(==)>(k: K): K -> bool { (x: K) => x == k }

  lemma TotalIsSum<K(!new)>(entries: seq<Entry<K>>, k: K)
    ensures Total(TallyOf(entries), k) == Sum(entries, AmountIf(IsKey(k)))
  {
    var t, p := TallyOf(entries), IsKey(k);
    TallyIsWellFormed(entries);
    TallySum(entries, p);
    SumSingle(t.keys, TotalIf(t, p), k);
  }

  /** rows pushed key by key */
  function Emit<K, M>(keys: seq<K>, f: K -> seq<M>): seq<M> {
    if keys == [] then [] else Emit(keys[..|keys| - 1], f) + f(keys[|keys| - 1])
  }

  lemma EmitTake<K, M>(keys: seq<K>, k: nat, f: K -> seq<M>)
    requires k < |keys|
    ensures Emit(keys[..k + 1], f) == Emit(keys[..k], f) + f(keys[k])
  {
    assert keys[..k + 1][..k] == keys[..k];
  }

  function SumOf<K, M(!new)>(f: K -> seq<M>, w: M -> int): K -> int { (k: K) => Sum(f(k), w) }

  lemma {:induction false} EmitSum<K(!new), M(!new)>(keys: seq<K>, f: K -> seq<M>, w: M -> int)
    ensures Sum(Emit(keys, f), w) == Sum(keys, SumOf(f, w))
  {
    if keys != [] {
      EmitSum(keys[..|keys| - 1], f, w);
      SumAppend(Emit(keys[..|keys| - 1], f), f(keys[|keys| - 1]), w);
    }
  }

  lemma {:induction false} InEmit<K(!new), M(!new)>(keys: seq<K>, f: K -> seq<M>, m: M)
    ensures m in Emit(keys, f) <==> exists i :: 0 <= i < |keys| && m in f(keys[i])
  {
    if keys != [] {
      var n := |keys| - 1;
      InEmit(keys[..n], f, m);
      if i :| 0 <= i < n && m in f(keys[..n][i]) { assert m in f(keys[i]); }
      if i :| 0 <= i < |keys| && m in f(keys[i]) { assert i < n ==> m in f(keys[..n][i]); }
    }
  }
}
