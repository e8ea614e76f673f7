/** JavaScript plain objects used as dictionaries: a key-to-value mapping that
    also remembers the order in which keys were first inserted, because the
    theme engine's outputs (CSS lines, JSON entries) follow that order. */
module Dicts {

  datatype Dict<V> = Dict(keys: seq<string>, items: map<string, V>)
  {
    /** Keys are listed once each, and exactly the mapped keys are listed. */
    ghost predicate Valid() {
      Distinct(keys) && (forall k :: k in items <==> k in keys)
    }

    /** Every listed key has a value: what a walk over `keys` needs of `Valid`. */
    ghost predicate Listed() {
      forall i | 0 <= i < |keys| :: keys[i] in items
    }

    predicate Has(k: string) { k in items }

    function Get(k: string): V
      requires k in items
    {
      items[k]
    }

    /** `obj[k] = v`: an existing key keeps its position, a new key goes last. */
    function Put(k: string, v: V): (d: Dict<V>)
      ensures d.items == items[k := v]
      ensures k in keys ==> d.keys == keys
      ensures k !in keys ==> d.keys == keys + [k]
      ensures Valid() ==> d.Valid()
    {
      Dict(if k in keys then keys else keys + [k], items[k := v])
    }

    /** `delete obj[k]`: the other keys keep their relative order. */
    function Remove(k: string): (d: Dict<V>)
      ensures d.items == map x | x in items && x != k :: items[x]
      ensures k !in d.keys
      ensures forall x :: x in d.keys <==> x in keys && x != k
      ensures Valid() ==> d.Valid()
    {
      Dict(Without(keys, k), map x | x in items && x != k :: items[x])
    }

    function Size(): nat { |keys| }
  }

  /** A second write to the same key replaces the first. */
  lemma PutPut<V>(d: Dict<V>, k: string, x: V, y: V)
    ensures d.Put(k, x).Put(k, y) == d.Put(k, y)
  {
    assert d.items[k := x][k := y] == d.items[k := y];
  }

  function Empty<V>(): (d: Dict<V>)
    ensures d.Valid() && |d.keys| == 0 && d.items == map[]
  {
    Dict([], map[])
  }

  predicate Distinct(s: seq<string>) {
    forall i, j | 0 <= i < j < |s| :: s[i] != s[j]
  }

  lemma DistinctCons(x: string, s: seq<string>)
    ensures Distinct([x] + s) <==> x !in s && Distinct(s)
  {
    if x !in s && Distinct(s) {
      forall i, j | 0 <= i < j < |[x] + s|
        ensures ([x] + s)[i] != ([x] + s)[j]
      {
        if i > 0 {
          assert ([x] + s)[i] == s[i - 1];
        }
        assert ([x] + s)[j] == s[j - 1];
      }
    }
    if Distinct([x] + s) {
      forall i, j | 0 <= i < j < |s| ensures s[i] != s[j] {
        assert s[i] == ([x] + s)[i + 1] && s[j] == ([x] + s)[j + 1];
      }
      forall j | 0 <= j < |s| ensures s[j] != x {
        assert s[j] == ([x] + s)[j + 1] && x == ([x] + s)[0];
      }
    }
  }

  /** `s.filter(x => x !== k)`. */
  function Without(s: seq<string>, k: string): (r: seq<string>)
    ensures forall x :: x in r <==> x in s && x != k
    ensures |r| <= |s|
    ensures Distinct(s) ==> Distinct(r)
  {
    if |s| == 0 then []
    else if s[0] == k then Without(s[1..], k)
    else
      var w := Without(s[1..], k);
      assert Distinct(s) ==> Distinct([s[0]] + w) by {
        DistinctCons(s[0], s[1..]);
        DistinctCons(s[0], w);
        assert s == [s[0]] + s[1..];
      }
      [s[0]] + w
  }

  /** Building a dictionary from a list of distinct keys. */
  function FromKeys<V>(ks: seq<string>, f: string -> V): (d: Dict<V>)
    requires Distinct(ks)
    ensures d.Valid() && d.keys == ks
    ensures forall k | k in ks :: k in d.items && d.items[k] == f(k)
  {
    Dict(ks, map k | k in ks :: f(k))
  }

  // ---------------------------------------------------------------------------
  // A run of writes

  /** The writes of `ws`, one after another, into `d`. */
  function PutAll<V>(d: Dict<V>, ws: seq<(string, V)>): Dict<V>
    decreases |ws|
  {
    if |ws| == 0 then d else PutAll(d, ws[..|ws| - 1]).Put(ws[|ws| - 1].0, ws[|ws| - 1].1)
  }

  /** Some write of `ws` is to `k`. */
  predicate WrittenTo<V>(ws: seq<(string, V)>, k: string)
    decreases |ws|
  {
    |ws| > 0 && (ws[|ws| - 1].0 == k || WrittenTo(ws[..|ws| - 1], k))
  }

  /** The value of the last write of `ws` to `k`. */
  function LastValue<V>(ws: seq<(string, V)>, k: string): V
    requires WrittenTo(ws, k)
    decreases |ws|
  {
    if ws[|ws| - 1].0 == k then ws[|ws| - 1].1 else LastValue(ws[..|ws| - 1], k)
  }

  lemma {:induction false} WrittenToAt<V>(ws: seq<(string, V)>, i: nat)
    requires i < |ws|
    ensures WrittenTo(ws, ws[i].0)
    decreases |ws|
  {
    if i < |ws| - 1 {
      WrittenToAt(ws[..|ws| - 1], i);
    }
  }

  /** After a run of writes a key is mapped when it was before or was written,
      and then to the last value written to it, or to its old value. */
  lemma {:induction false} PutAllAt<V>(d: Dict<V>, ws: seq<(string, V)>, k: string)
    ensures k in PutAll(d, ws).items <==> k in d.items || WrittenTo(ws, k)
    ensures k in PutAll(d, ws).items ==>
      PutAll(d, ws).items[k] == if WrittenTo(ws, k) then LastValue(ws, k) else d.items[k]
    decreases |ws|
  {
    if |ws| > 0 {
      PutAllAt(d, ws[..|ws| - 1], k);
    }
  }

  /** Every written key is listed afterwards. */
  lemma {:induction false} PutAllLists<V>(d: Dict<V>, ws: seq<(string, V)>, k: string)
    requires WrittenTo(ws, k)
    ensures k in PutAll(d, ws).keys
    decreases |ws|
  {
    if ws[|ws| - 1].0 != k {
      PutAllLists(d, ws[..|ws| - 1], k);
    }
  }

  /** Writes to keys already listed keep the key order. */
  lemma {:induction false} PutAllKeys<V>(d: Dict<V>, ws: seq<(string, V)>)
    requires forall i | 0 <= i < |ws| :: ws[i].0 in d.keys
    ensures PutAll(d, ws).keys == d.keys
    decreases |ws|
  {
    if |ws| > 0 {
      PutAllKeys(d, ws[..|ws| - 1]);
    }
  }

  /** One more write at the end of a run is one more `Put`. */
  lemma PutAllSnoc<V>(d: Dict<V>, prev: seq<(string, V)>, k: string, v: V, ws: seq<(string, V)>)
    requires ws == prev + [(k, v)]
    ensures PutAll(d, prev).Put(k, v) == PutAll(d, ws)
  {
    assert ws[..|prev|] == prev;
  }

  /** Two runs of writes, one after the other, are their concatenation. */
  lemma {:induction false} PutAllAppend<V>(d: Dict<V>, a: seq<(string, V)>, b: seq<(string, V)>)
    ensures PutAll(d, a + b) == PutAll(PutAll(d, a), b)
    decreases |b|
  {
    if |b| == 0 {
      assert a + b == a;
    } else {
      assert (a + b)[..|a + b| - 1] == a + b[..|b| - 1];
      PutAllAppend(d, a, b[..|b| - 1]);
    }
  }

  /** Repeating a run of writes changes nothing: every key it writes is already
      listed and already holds the last value written to it. */
  lemma PutAllTwice<V>(d: Dict<V>, ws: seq<(string, V)>)
    ensures PutAll(PutAll(d, ws), ws) == PutAll(d, ws)
  {
    var e := PutAll(d, ws);
    forall i | 0 <= i < |ws|
      ensures ws[i].0 in e.keys
    {
      WrittenToAt(ws, i);
      PutAllLists(d, ws, ws[i].0);
    }
    PutAllKeys(e, ws);
    var f := PutAll(e, ws);
    forall k
      ensures (k in f.items <==> k in e.items) && (k in f.items ==> f.items[k] == e.items[k])
    {
      PutAllAt(e, ws, k);
      PutAllAt(d, ws, k);
    }
    assert f.items == e.items;
  }
}
