/** Chained hash tables with rehashing, their iterators, and the allocation of signal buffers that iterates twice. */
module Hashtable {

  datatype Option<T> = None | Some(value: T)

  datatype Cell<K, V> = Cell(key: K, value: V)

  /** How keys are hashed and compared. */
  datatype Keys<!K> = Keys(hash: K -> nat, eq: (K, K) -> bool)

  /** `eq` is an equivalence that `hash` respects. */
  ghost predicate Consistent<K(!new)>(g: Keys<K>) {
    && (forall a :: g.eq(a, a))
    && (forall a, b :: g.eq(a, b) ==> g.eq(b, a) && g.hash(a) == g.hash(b))
    && (forall a, b, c :: g.eq(a, b) && g.eq(b, c) ==> g.eq(a, c))
  }

  // ---------------------------------------------------------------- chains

  /** The position of the first cell with the key, or the end of the chain. */
  function Position<K, V>(g: Keys<K>, chain: seq<Cell<K, V>>, k: K): (i: nat)
    ensures i <= |chain| && (i < |chain| ==> g.eq(chain[i].key, k))
    ensures forall j :: 0 <= j < i ==> !g.eq(chain[j].key, k)
  {
    if chain == [] || g.eq(chain[0].key, k) then 0
    else
      assert forall j :: 1 <= j < |chain| ==> chain[j] == chain[1..][j - 1];
      1 + Position(g, chain[1..], k)
  }

  type Table<K, V> = seq<seq<Cell<K, V>>>

  function Bucket<K, V>(g: Keys<K>, t: Table<K, V>, k: K): (i: nat)
    requires |t| > 0
    ensures i < |t|
  {
    g.hash(k) % |t|
  }

  predicate Has<K(==), V(==)>(g: Keys<K>, t: Table<K, V>, c: Cell<K, V>) {
    |t| > 0 && c in t[Bucket(g, t, c.key)]
  }

  /** `fts_hashtable_get` */
  function Find<K, V>(g: Keys<K>, t: Table<K, V>, k: K): Option<V>
    requires |t| > 0
  {
    var chain := t[Bucket(g, t, k)];
    var i := Position(g, chain, k);
    if i < |chain| then Some(chain[i].value) else None
  }

  ghost predicate ChainOk<K, V>(g: Keys<K>, t: Table<K, V>, b: nat)
    requires b < |t|
  {
    && (forall i :: 0 <= i < |t[b]| ==> Bucket(g, t, t[b][i].key) == b)
    && (forall i, j :: 0 <= i < j < |t[b]| ==> !g.eq(t[b][i].key, t[b][j].key))
  }

  /** Every cell is in its bucket, and no two cells have the same key. */
  ghost predicate Proper<K, V>(g: Keys<K>, t: Table<K, V>) {
    |t| > 0 && forall b: nat :: b < |t| ==> ChainOk(g, t, b)
  }

  /** The table as a finite map: a key is found with a value exactly when some cell has an equal key and that value. */
  lemma FindIff<K(!new), V(!new)>(g: Keys<K>, t: Table<K, V>, k: K, v: V)
    requires Consistent(g) && Proper(g, t)
    ensures Find(g, t, k) == Some(v) <==> exists c :: Has(g, t, c) && g.eq(c.key, k) && c.value == v
  {
    var b := Bucket(g, t, k);
    var chain := t[b];
    assert ChainOk(g, t, b);
    var i := Position(g, chain, k);
    if Find(g, t, k) == Some(v) {
      assert Has(g, t, chain[i]) && g.eq(chain[i].key, k);
    }
    if c :| Has(g, t, c) && g.eq(c.key, k) && c.value == v {
      Found(g, t, c, k);
    }
  }

  /** A cell is what any key equal to its own finds. */
  lemma Found<K(!new), V(!new)>(g: Keys<K>, t: Table<K, V>, c: Cell<K, V>, k: K)
    requires Consistent(g) && Proper(g, t) && Has(g, t, c) && g.eq(c.key, k)
    ensures Find(g, t, k) == Some(c.value)
  {
    var b := Bucket(g, t, k);
    var chain := t[b];
    assert ChainOk(g, t, b);
    var i, j :| i == Position(g, chain, k) && 0 <= j < |chain| && chain[j] == c;
    assert i <= j;
    assert g.eq(chain[i].key, k) && g.eq(k, c.key);
    assert g.eq(chain[i].key, chain[j].key);
  }

  lemma NothingFound<K(!new), V(!new)>(g: Keys<K>, t: Table<K, V>, k: K)
    requires Consistent(g) && Proper(g, t) && forall c :: Has(g, t, c) ==> !g.eq(c.key, k)
    ensures Find(g, t, k) == None
  {
    var b := Bucket(g, t, k);
    assert ChainOk(g, t, b);
    var i := Position(g, t[b], k);
    assert i < |t[b]| ==> Has(g, t, t[b][i]);
  }

  /** Tables that have the same cells for a key find the same for it. */
  lemma SameFind<K(!new), V(!new)>(g: Keys<K>, t: Table<K, V>, t': Table<K, V>, k: K)
    requires Consistent(g) && Proper(g, t) && Proper(g, t')
    requires forall c: Cell<K, V> :: g.eq(c.key, k) ==> (Has(g, t', c) <==> Has(g, t, c))
    ensures Find(g, t', k) == Find(g, t, k)
  {
    hide Has, Find, Proper, Consistent;
    ProperLength(g, t);
    ProperLength(g, t');
    if Find(g, t, k).Some? {
      FindIff(g, t, k, Find(g, t, k).value);
      FindIff(g, t', k, Find(g, t, k).value);
    } else if Find(g, t', k).Some? {
      FindIff(g, t', k, Find(g, t', k).value);
      FindIff(g, t, k, Find(g, t', k).value);
    }
  }

  lemma ProperLength<K, V>(g: Keys<K>, t: Table<K, V>)
    requires Proper(g, t)
    ensures |t| > 0
  {
  }

  // ---------------------------------------------------------------- the operations

  function Count<K, V>(t: Table<K, V>): nat {
    if t == [] then 0 else Count(t[..|t| - 1]) + |t[|t| - 1]|
  }

  lemma {:induction false} CountUpdate<K, V>(t: Table<K, V>, b: nat, chain: seq<Cell<K, V>>)
    requires b < |t|
    ensures Count(t[b := chain]) == Count(t) - |t[b]| + |chain|
  {
    var t' := t[b := chain];
    if b == |t| - 1 {
      assert t'[..|t| - 1] == t[..|t| - 1];
    } else {
      CountUpdate(t[..|t| - 1], b, chain);
      assert t'[..|t| - 1] == t[..|t| - 1][b := chain];
    }
  }

  lemma {:induction false} CountEmpty<K, V>(n: nat)
    ensures Count(seq<seq<Cell<K, V>>>(n, _ => [])) == 0
  {
    var t := seq<seq<Cell<K, V>>>(n, _ => []);
    if n > 0 {
      CountEmpty<K, V>(n - 1);
      assert t[..n - 1] == seq<seq<Cell<K, V>>>(n - 1, _ => []);
    }
  }

  /** The table after a key is put. */
  function Put<K, V>(g: Keys<K>, t: Table<K, V>, k: K, v: V): (t': Table<K, V>)
    requires |t| > 0
    ensures |t'| == |t|
  {
    var b := Bucket(g, t, k);
    var i := Position(g, t[b], k);
    if i < |t[b]| then t[b := t[b][i := t[b][i].(value := v)]] else t[b := t[b] + [Cell(k, v)]]
  }

  function Remove<K, V>(g: Keys<K>, t: Table<K, V>, k: K): (t': Table<K, V>)
    requires |t| > 0
    ensures |t'| == |t|
  {
    var b := Bucket(g, t, k);
    var i := Position(g, t[b], k);
    if i < |t[b]| then t[b := t[b][..i] + t[b][i + 1..]] else t
  }

  lemma PutProper<K(!new), V>(g: Keys<K>, t: Table<K, V>, k: K, v: V)
    requires Consistent(g) && Proper(g, t)
    ensures Proper(g, Put(g, t, k, v))
    ensures Count(Put(g, t, k, v)) == Count(t) + if Find(g, t, k).None? then 1 else 0
  {
    var b, t' := Bucket(g, t, k), Put(g, t, k, v);
    CountUpdate(t, b, t'[b]);
    forall x: nat | x < |t'| ensures ChainOk(g, t', x) {
      assert ChainOk(g, t, x);
    }
  }

  lemma PutOthers<K(!new), V(!new)>(g: Keys<K>, t: Table<K, V>, k: K, v: V)
    requires Consistent(g) && Proper(g, t)
    ensures forall c: Cell<K, V> :: !g.eq(c.key, k) ==> (Has(g, Put(g, t, k, v), c) <==> Has(g, t, c))
  {
    var b, t' := Bucket(g, t, k), Put(g, t, k, v);
    var p := Position(g, t[b], k);
    forall c: Cell<K, V> | !g.eq(c.key, k) ensures Has(g, t', c) <==> Has(g, t, c) {
      if Has(g, t, c) && Bucket(g, t, c.key) == b {
        var i :| 0 <= i < |t[b]| && t[b][i] == c;
        assert t'[b][i] == c;
      }
      if Has(g, t', c) && Bucket(g, t, c.key) == b {
        var i :| 0 <= i < |t'[b]| && t'[b][i] == c;
        assert i != p && t[b][i] == c;
      }
    }
  }

  /** Putting a key changes what is found for equal keys, and for no other. */
  lemma PutFind<K(!new), V(!new)>(g: Keys<K>, t: Table<K, V>, k: K, v: V, j: K)
    requires Consistent(g) && Proper(g, t)
    ensures Find(g, Put(g, t, k, v), j) == if g.eq(j, k) then Some(v) else Find(g, t, j)
  {
    var b, t' := Bucket(g, t, k), Put(g, t, k, v);
    PutProper(g, t, k, v);
    if g.eq(j, k) {
      var c: Cell<K, V> := t'[b][Position(g, t[b], k)];
      assert g.eq(c.key, k) && c.value == v && Has(g, t', c);
      assert g.eq(k, j) && g.eq(c.key, j);
      Found(g, t', c, j);
    } else {
      PutOthers(g, t, k, v);
      Unequal(g, j, k);
      SameFind(g, t, t', j);
    }
  }

  lemma Unequal<K(!new)>(g: Keys<K>, j: K, k: K)
    requires Consistent(g) && !g.eq(j, k)
    ensures forall x :: g.eq(x, j) ==> !g.eq(x, k)
  {
    forall x | g.eq(x, j) ensures !g.eq(x, k) {
      assert g.eq(j, x);
    }
  }

  lemma RemoveProper<K(!new), V>(g: Keys<K>, t: Table<K, V>, k: K)
    requires Consistent(g) && Proper(g, t)
    ensures Proper(g, Remove(g, t, k))
    ensures Count(Remove(g, t, k)) == Count(t) - if Find(g, t, k).Some? then 1 else 0
  {
    var b, t' := Bucket(g, t, k), Remove(g, t, k);
    CountUpdate(t, b, t'[b]);
    forall x: nat | x < |t'| ensures ChainOk(g, t', x) {
      assert ChainOk(g, t, x);
    }
  }

  lemma RemoveCells<K(!new), V(!new)>(g: Keys<K>, t: Table<K, V>, k: K)
    requires Consistent(g) && Proper(g, t)
    ensures forall c :: Has(g, Remove(g, t, k), c) <==> Has(g, t, c) && !g.eq(c.key, k)
  {
    var b, t' := Bucket(g, t, k), Remove(g, t, k);
    var chain, p := t[b], Position(g, t[b], k);
    assert ChainOk(g, t, b);
    forall c ensures Has(g, t', c) <==> Has(g, t, c) && !g.eq(c.key, k) {
      assert g.eq(c.key, k) ==> g.hash(c.key) == g.hash(k);
      if Bucket(g, t, c.key) == b {
        if c in chain && !g.eq(c.key, k) {
          var i :| 0 <= i < |chain| && chain[i] == c;
          assert p < |chain| ==> t'[b][if i < p then i else i - 1] == c;
        }
        if c in t'[b] {
          var i :| 0 <= i < |t'[b]| && t'[b][i] == c;
          NotRemoved(g, t, k, i);
        }
      }
    }
  }

  /** A cell left in the chain is one that was there, and its key is not the one removed. */
  lemma NotRemoved<K(!new), V(!new)>(g: Keys<K>, t: Table<K, V>, k: K, i: nat)
    requires Consistent(g) && Proper(g, t) && i < |Remove(g, t, k)[Bucket(g, t, k)]|
    ensures var b := Bucket(g, t, k);
            var c := Remove(g, t, k)[b][i];
            c in t[b] && !g.eq(c.key, k)
  {
    var b := Bucket(g, t, k);
    var chain, p := t[b], Position(g, t[b], k);
    assert ChainOk(g, t, b);
    if p < |chain| {
      var at := if i < p then i else i + 1;
      var c := chain[at];
      assert Remove(g, t, k)[b][i] == c;
      var first := chain[p].key;
      assert at > p ==> !g.eq(first, c.key) && g.eq(first, k);
      assert g.eq(first, k) && g.eq(c.key, k) ==> g.eq(k, c.key) && g.eq(first, c.key);
    }
  }

  lemma SameKey<K(!new)>(g: Keys<K>, x: K, y: K, k: K)
    requires Consistent(g) && g.eq(x, k) && g.eq(y, k)
    ensures g.eq(x, y)
  {
    assert g.eq(k, y);
  }

  /** Removing a key removes what is found for equal keys, and for no other. */
  lemma RemoveFind<K(!new), V(!new)>(g: Keys<K>, t: Table<K, V>, k: K, j: K)
    requires Consistent(g) && Proper(g, t)
    ensures Find(g, Remove(g, t, k), j) == if g.eq(j, k) then None else Find(g, t, j)
  {
    hide Remove, Find, Has;
    var t' := Remove(g, t, k);
    RemoveProper(g, t, k);
    RemoveCells(g, t, k);
    if g.eq(j, k) {
      forall c | Has(g, t', c) ensures !g.eq(c.key, j) {
        if g.eq(c.key, j) {
          SameKey(g, c.key, k, j);
        }
      }
      NothingFound(g, t', j);
    } else {
      Unequal(g, j, k);
      SameFind(g, t, t', j);
    }
  }

  // ---------------------------------------------------------------- rehashing

  const PRIMES: seq<nat> := [7, 17, 31, 67, 127, 257, 521, 1031, 2053, 4099, 8191, 16411, 32771, 65537, 131071, 262147,
                             524287, 1048583, 2097169, 4194319, 8388617, 16777259, 33554467]

  /** `new_length`: the next prime of the suite, or the last one. */
  function NewLength(length: nat, i: nat): (n: nat)
    requires i <= |PRIMES|
    ensures n >= 7
    ensures i < |PRIMES| && length < PRIMES[i] ==> n == PRIMES[i]
    ensures (n in PRIMES && length < n && forall j :: i <= j < |PRIMES| && length < PRIMES[j] ==> n <= PRIMES[j])
            || (n == 33554467 && forall j :: i <= j < |PRIMES| ==> PRIMES[j] <= length)
    decreases |PRIMES| - i
  {
    if i == |PRIMES| then PRIMES[|PRIMES| - 1]
    else if length < PRIMES[i] then PRIMES[i]
    else NewLength(length, i + 1)
  }

  /** A cell goes to the front of its new chain. */
  function Move<K, V>(g: Keys<K>, t: Table<K, V>, c: Cell<K, V>): (t': Table<K, V>)
    requires |t| > 0
    ensures |t'| == |t|
  {
    var b := Bucket(g, t, c.key);
    t[b := [c] + t[b]]
  }

  /** The first `n` cells of a chain are moved. */
  function MoveChain<K, V>(g: Keys<K>, t: Table<K, V>, chain: seq<Cell<K, V>>, n: nat): (t': Table<K, V>)
    requires |t| > 0 && n <= |chain|
    ensures |t'| == |t|
  {
    if n == 0 then t else Move(g, MoveChain(g, t, chain, n - 1), chain[n - 1])
  }

  function MoveAll<K, V>(g: Keys<K>, t: Table<K, V>, from: Table<K, V>, n: nat): (t': Table<K, V>)
    requires |t| > 0 && n <= |from|
    ensures |t'| == |t|
  {
    if n == 0 then t else MoveChain(g, MoveAll(g, t, from, n - 1), from[n - 1], |from[n - 1]|)
  }

  function Empty<K, V>(n: nat): (t: Table<K, V>)
    ensures |t| == n
  {
    seq(n, _ => [])
  }

  /** `rehash` */
  function Rehashed<K, V>(g: Keys<K>, t: Table<K, V>): (t': Table<K, V>)
    ensures |t'| > 0
  {
    MoveAll(g, Empty(NewLength(|t|, 0)), t, |t|)
  }

  lemma MoveProper<K(!new), V(!new)>(g: Keys<K>, t: Table<K, V>, c: Cell<K, V>)
    requires Consistent(g) && Proper(g, t) && forall x :: Has(g, t, x) ==> !g.eq(c.key, x.key)
    ensures Proper(g, Move(g, t, c)) && Count(Move(g, t, c)) == Count(t) + 1
    ensures forall x :: Has(g, Move(g, t, c), x) <==> Has(g, t, x) || x == c
  {
    var b, t' := Bucket(g, t, c.key), Move(g, t, c);
    CountUpdate(t, b, t'[b]);
    forall x: nat | x < |t'| ensures ChainOk(g, t', x) {
      assert ChainOk(g, t, x);
      if x == b {
        forall i | 0 <= i < |t[b]| ensures !g.eq(c.key, t[b][i].key) {
          assert Has(g, t, t[b][i]);
        }
      }
    }
    forall x ensures Has(g, t', x) <==> Has(g, t, x) || x == c {
    }
  }

  /** The cells of `to` are those of `was` and of the chains before `b` and the cells before `n` in chain `b` of
      `from`. */
  ghost predicate Moved<K(!new), V(!new)>(g: Keys<K>, to: Table<K, V>, from: Table<K, V>, b: nat, n: nat)
    requires b < |from| && n <= |from[b]|
  {
    && Proper(g, to)
    && forall x :: Has(g, to, x) <==> (Has(g, from, x) && Bucket(g, from, x.key) < b) || x in from[b][..n]
  }

  lemma NextApart<K(!new), V(!new)>(g: Keys<K>, to: Table<K, V>, from: Table<K, V>, b: nat, n: nat)
    requires Consistent(g) && Proper(g, from) && b < |from| && n < |from[b]| && Moved(g, to, from, b, n)
    ensures forall x :: Has(g, to, x) ==> !g.eq(from[b][n].key, x.key)
  {
    var c := from[b][n];
    assert ChainOk(g, from, b);
    forall x | Has(g, to, x) ensures !g.eq(c.key, x.key) {
      if x in from[b][..n] {
        var i :| 0 <= i < n && from[b][i] == x;
        assert !g.eq(from[b][i].key, c.key);
      } else {
        assert Bucket(g, from, c.key) == b;
      }
    }
  }

  lemma {:induction false} MoveChainMoves<K(!new), V(!new)>(g: Keys<K>, to: Table<K, V>, from: Table<K, V>,
                                                            b: nat, n: nat)
    requires Consistent(g) && Proper(g, from) && b < |from| && n <= |from[b]| && Moved(g, to, from, b, 0)
    ensures Moved(g, MoveChain(g, to, from[b], n), from, b, n)
    ensures Count(MoveChain(g, to, from[b], n)) == Count(to) + n
  {
    hide Has, Proper, Move, Consistent;
    ProperLength(g, to);
    if n > 0 {
      var to1 := MoveChain(g, to, from[b], n - 1);
      MoveChainMoves(g, to, from, b, n - 1);
      NextApart(g, to1, from, b, n - 1);
      MoveProper(g, to1, from[b][n - 1]);
      assert from[b][..n] == from[b][..n - 1] + [from[b][n - 1]];
    }
  }

  /** The chains before `n` are moved. */
  ghost predicate MovedAll<K(!new), V(!new)>(g: Keys<K>, to: Table<K, V>, from: Table<K, V>, n: nat)
    requires |from| > 0
  {
    Proper(g, to) && forall x :: Has(g, to, x) <==> Has(g, from, x) && Bucket(g, from, x.key) < n
  }

  lemma {:induction false} MoveAllMoves<K(!new), V(!new)>(g: Keys<K>, from: Table<K, V>, n: nat, length: nat)
    requires Consistent(g) && Proper(g, from) && n <= |from| && length > 0
    ensures MovedAll(g, MoveAll(g, Empty(length), from, n), from, n)
    ensures Count(MoveAll(g, Empty(length), from, n)) == Count(from[..n])
  {
    hide Proper, MoveChain, Consistent;
    ProperLength(g, from);
    if n == 0 {
      EmptyProper<K, V>(g, length);
    } else {
      var to := MoveAll(g, Empty(length), from, n - 1);
      MoveAllMoves(g, from, n - 1, length);
      MoveChainMoves(g, to, from, n - 1, |from[n - 1]|);
      assert from[n - 1][..|from[n - 1]|] == from[n - 1];
      BucketCells(g, from, n - 1);
      assert from[..n][..n - 1] == from[..n - 1];
    }
  }

  lemma BucketCells<K, V>(g: Keys<K>, t: Table<K, V>, b: nat)
    requires Proper(g, t) && b < |t|
    ensures forall x :: x in t[b] ==> Bucket(g, t, x.key) == b
  {
    assert ChainOk(g, t, b);
  }

  lemma EmptyProper<K(!new), V(!new)>(g: Keys<K>, n: nat)
    requires n > 0
    ensures Proper(g, Empty<K, V>(n)) && Count(Empty<K, V>(n)) == 0 && forall x :: !Has(g, Empty<K, V>(n), x)
  {
    CountEmpty<K, V>(n);
  }

  /** Rehashing keeps every cell, so it changes nothing that is found. */
  lemma RehashKeeps<K(!new), V(!new)>(g: Keys<K>, t: Table<K, V>)
    requires Consistent(g) && Proper(g, t)
    ensures Proper(g, Rehashed(g, t)) && Count(Rehashed(g, t)) == Count(t)
    ensures forall k :: Find(g, Rehashed(g, t), k) == Find(g, t, k)
  {
    hide Proper, Find, Consistent, MoveAll, Has;
    ProperLength(g, t);
    MoveAllMoves(g, t, |t|, NewLength(|t|, 0));
    assert t[..|t|] == t;
    InTable(g, t);
    forall k ensures Find(g, Rehashed(g, t), k) == Find(g, t, k) {
      SameFind(g, t, Rehashed(g, t), k);
    }
  }

  lemma InTable<K(!new), V(!new)>(g: Keys<K>, t: Table<K, V>)
    requires |t| > 0
    ensures forall x :: Has(g, t, x) ==> Bucket(g, t, x.key) < |t|
  {
  }

  // ---------------------------------------------------------------- the table itself

  const SMALL: nat := 7
  const MEDIUM: nat := 101
  const BIG: nat := 1031

  class HashTable<K(!new), V(!new)> {
    const g: Keys<K>
    var table: Table<K, V>
    var count: int
    var rehashCount: int

    ghost predicate Valid()
      reads this
    {
      Consistent(g) && Proper(g, table) && count == Count(table) && rehashCount == |table| * 3 / 4
    }

    constructor (g: Keys<K>, length: nat)
      requires Consistent(g) && length in {SMALL, MEDIUM, BIG}
      ensures Valid() && this.g == g && forall k :: Find(g, table, k) == None
    {
      this.g := g;
      table, count, rehashCount := Empty(length), 0, length * 3 / 4;
      new;
      EmptyProper<K, V>(g, length);
    }

    /** `lookup_cell`: walks along the chain of the key. */
    method LookupCell(k: K) returns (b: nat, i: nat)
      requires Valid()
      ensures b < |table| && b == Bucket(g, table, k) && i == Position(g, table[b], k)
    {
      ProperLength(g, table);
      b := g.hash(k) % |table|;
      var chain := table[b];
      i := 0;
      while i < |chain| && !g.eq(chain[i].key, k)
        invariant i <= |chain| && Position(g, chain, k) == i + Position(g, chain[i..], k)
      {
        assert chain[i..][1..] == chain[i + 1..];
        i := i + 1;
      }
    }

    method Get(k: K) returns (r: Option<V>)
      requires Valid()
      ensures |table| > 0 && r == Find(g, table, k)
    {
      var b, i := LookupCell(k);
      r := if i < |table[b]| then Some(table[b][i].value) else None;
    }

    method Rehash()
      requires Valid()
      modifies this
      ensures Valid() && |table| > 0 && table == Rehashed(g, old(table)) && count == old(count)
    {
      hide Proper, Consistent, MoveChain, Count;
      RehashKeeps(g, table);
      ProperLength(g, table);
      var from := table;
      var length := NewLength(|from|, 0);
      rehashCount := length * 3 / 4;
      table := Empty(length);
      var b := 0;
      while b < |from|
        invariant b <= |from| && |table| == length && table == MoveAll(g, Empty(length), from, b)
        invariant count == old(count) && rehashCount == length * 3 / 4
      {
        table := RelinkChain(from[b]);
        b := b + 1;
      }
    }

    /** Every cell of an old chain goes to the front of its new chain. */
    method RelinkChain(chain: seq<Cell<K, V>>) returns (to: Table<K, V>)
      requires |table| > 0
      ensures |to| == |table| && to == MoveChain(g, table, chain, |chain|)
    {
      to := table;
      var i := 0;
      while i < |chain|
        invariant i <= |chain| && |to| == |table| && to == MoveChain(g, table, chain, i)
      {
        var c := chain[i];
        var index := g.hash(c.key) % |to|;
        to := to[index := [c] + to[index]];
        i := i + 1;
      }
    }

    /** `fts_hashtable_put`: tells whether the key was there; a table that is too full is rehashed. */
    method PutKey(k: K, v: V) returns (known: bool)
      requires Valid()
      modifies this
      ensures Valid() && |old(table)| > 0 && |table| > 0
      ensures known <==> Find(g, old(table), k).Some?
      ensures forall j :: Find(g, table, j) == if g.eq(j, k) then Some(v) else Find(g, old(table), j)
      ensures count == old(count) + if known then 0 else 1
      ensures table == if !known && count >= old(rehashCount) then Rehashed(g, Put(g, old(table), k, v))
                       else Put(g, old(table), k, v)
    {
      ghost var was := table;
      PutProper(g, table, k, v);
      forall j { PutFind(g, was, k, v, j); }
      var b, i := LookupCell(k);
      if i < |table[b]| {
        table := table[b := table[b][i := table[b][i].(value := v)]];
        return true;
      }
      table := table[b := table[b] + [Cell(k, v)]];
      count := count + 1;
      known := false;
      if count >= rehashCount {
        RehashKeeps(g, table);
        Rehash();
      }
    }

    /** `fts_hashtable_remove` */
    method RemoveKey(k: K) returns (known: bool)
      requires Valid()
      modifies this
      ensures Valid() && |old(table)| > 0 && |table| > 0
      ensures known <==> Find(g, old(table), k).Some?
      ensures forall j :: Find(g, table, j) == if g.eq(j, k) then None else Find(g, old(table), j)
      ensures count == old(count) - (if known then 1 else 0) && table == Remove(g, old(table), k)
    {
      ghost var was := table;
      RemoveProper(g, table, k);
      forall j { RemoveFind(g, was, k, j); }
      var b, i := LookupCell(k);
      if i < |table[b]| {
        table := table[b := table[b][..i] + table[b][i + 1..]];
        count := count - 1;
        return true;
      }
      known := false;
    }
  }

  // ---------------------------------------------------------------- iterators

  /** The cells as an iterator meets them: the buckets from the last one down, each chain from its front. */
  function Cells<K, V>(t: Table<K, V>, n: nat): seq<Cell<K, V>>
    requires n <= |t|
  {
    if n == 0 then [] else t[n - 1] + Cells(t, n - 1)
  }

  lemma {:induction false} CellsAre<K(!new), V(!new)>(g: Keys<K>, t: Table<K, V>, n: nat)
    requires Proper(g, t) && n <= |t|
    ensures |Cells(t, n)| == Count(t[..n])
    ensures forall c :: c in Cells(t, n) <==> Has(g, t, c) && Bucket(g, t, c.key) < n
  {
    if n > 0 {
      CellsAre(g, t, n - 1);
      assert t[..n][..n - 1] == t[..n - 1];
      BucketCells(g, t, n - 1);
    }
  }

  lemma {:induction false} CellsApart<K(!new), V(!new)>(g: Keys<K>, t: Table<K, V>, n: nat)
    requires Consistent(g) && Proper(g, t) && n <= |t|
    ensures forall i, j :: 0 <= i < j < |Cells(t, n)| ==> !g.eq(Cells(t, n)[i].key, Cells(t, n)[j].key)
  {
    if n > 0 {
      var first, rest := t[n - 1], Cells(t, n - 1);
      CellsApart(g, t, n - 1);
      CellsAre(g, t, n - 1);
      assert ChainOk(g, t, n - 1);
      forall i, j | 0 <= i < |first| && 0 <= j < |rest| ensures !g.eq(first[i].key, rest[j].key) {
        assert rest[j] in rest && Bucket(g, t, rest[j].key) < n - 1;
        assert Bucket(g, t, first[i].key) == n - 1;
      }
      forall i, j | 0 <= i < j < |Cells(t, n)| ensures !g.eq(Cells(t, n)[i].key, Cells(t, n)[j].key) {
        assert Cells(t, n)[i] == if i < |first| then first[i] else rest[i - |first|];
        assert Cells(t, n)[j] == if j < |first| then first[j] else rest[j - |first|];
      }
    }
  }

  /** An iterator meets every cell of the table exactly once. */
  lemma EachCellOnce<K(!new), V(!new)>(g: Keys<K>, t: Table<K, V>)
    requires Consistent(g) && Proper(g, t)
    ensures |Cells(t, |t|)| == Count(t)
    ensures forall c :: c in Cells(t, |t|) <==> Has(g, t, c)
    ensures forall i, j :: 0 <= i < j < |Cells(t, |t|)| ==> !g.eq(Cells(t, |t|)[i].key, Cells(t, |t|)[j].key)
  {
    CellsAre(g, t, |t|);
    CellsApart(g, t, |t|);
    assert t[..|t|] == t;
    InTable(g, t);
  }

  lemma CellsStep<K, V>(t: Table<K, V>, n: nat)
    requires 0 < n <= |t|
    ensures Cells(t, n) == t[n - 1] + Cells(t, n - 1)
    ensures t[n - 1] == [] ==> Cells(t, n) == Cells(t, n - 1)
  {
  }

  lemma CellsNone<K, V>(t: Table<K, V>)
    ensures Cells(t, 0) == []
  {
  }

  class CellIterator<K, V> {
    const table: Table<K, V>
    var index: int
    /** the rest of the current chain */
    var cell: seq<Cell<K, V>>

    ghost predicate Valid()
      reads this
    {
      -1 <= index <= |table|
    }

    ghost function Remaining(): seq<Cell<K, V>>
      requires Valid()
      reads this
    {
      cell + if index > 0 then Cells(table, index) else []
    }

    constructor (table: Table<K, V>)
      ensures Valid() && this.table == table && Remaining() == Cells(table, |table|)
    {
      this.table, index, cell := table, |table|, [];
    }

    method HasMore() returns (more: bool)
      requires Valid()
      modifies this
      ensures Valid() && Remaining() == old(Remaining()) && (more <==> Remaining() != [])
    {
      hide Cells;
      if cell != [] {
        return true;
      }
      CellsNone(table);
      while index > 0
        invariant Valid() && cell == [] && Remaining() == old(Remaining())
      {
        CellsStep(table, index);
        index := index - 1;
        if table[index] != [] {
          cell := table[index];
          return true;
        }
      }
      more := false;
    }

    /** `hashtable_iterator_next`: looks for the next bucket by itself when the chain is used up. */
    method Next() returns (c: Cell<K, V>)
      requires Valid() && Remaining() != []
      modifies this
      ensures Valid() && old(Remaining()) == [c] + Remaining()
    {
      hide Cells;
      if cell == [] {
        CellsNone(table);
        while index > 0
          invariant Valid() && cell == [] && Remaining() == old(Remaining())
        {
          CellsStep(table, index);
          index := index - 1;
          if table[index] != [] {
            cell := table[index];
            break;
          }
        }
      }
      c := cell[0];
      cell := cell[1..];
    }
  }

  // ---------------------------------------------------------------- allocation of signals

  function Sum(sizes: seq<nat>, cells: seq<nat>, n: nat): nat
    requires n <= |cells| && forall i :: 0 <= i < |cells| ==> cells[i] < |sizes|
  {
    if n == 0 then 0 else Sum(sizes, cells, n - 1) + sizes[cells[n - 1]]
  }

  function Values<K>(cells: seq<Cell<K, nat>>): (vs: seq<nat>)
    ensures |vs| == |cells|
  {
    seq(|cells|, i requires 0 <= i < |cells| => cells[i].value)
  }

  lemma {:induction false} SumGrows(sizes: seq<nat>, cells: seq<nat>, m: nat, n: nat)
    requires m <= n <= |cells| && forall i :: 0 <= i < |cells| ==> cells[i] < |sizes|
    ensures Sum(sizes, cells, m) <= Sum(sizes, cells, n)
    ensures m < n ==> Sum(sizes, cells, m) + sizes[cells[m]] <= Sum(sizes, cells, n)
  {
    if m < n {
      SumGrows(sizes, cells, m, n - 1);
    }
  }

  lemma {:induction false} SumCovers(sizes: seq<nat>, cells: seq<nat>, n: nat, x: nat) returns (i: nat)
    requires n <= |cells| && (forall i :: 0 <= i < |cells| ==> cells[i] < |sizes|) && x < Sum(sizes, cells, n)
    ensures i < n && Sum(sizes, cells, i) <= x < Sum(sizes, cells, i) + sizes[cells[i]]
  {
    if x < Sum(sizes, cells, n - 1) {
      i := SumCovers(sizes, cells, n - 1, x);
    } else {
      i := n - 1;
    }
  }

  lemma SumStep<K>(sizes: seq<nat>, cells: seq<Cell<K, nat>>, k: nat)
    requires k < |cells| && forall i :: 0 <= i < |cells| ==> Values(cells)[i] < |sizes|
    ensures Values(cells)[k] == cells[k].value
    ensures Sum(sizes, Values(cells), k + 1) == Sum(sizes, Values(cells), k) + sizes[cells[k].value]
  {
  }

  lemma SumNone(sizes: seq<nat>, cells: seq<nat>)
    requires forall i :: 0 <= i < |cells| ==> cells[i] < |sizes|
    ensures Sum(sizes, cells, 0) == 0
  {
  }

  /** Every declared signal has its slice of the buffer. */
  ghost predicate Allocated(sizes: seq<nat>, cells: seq<nat>, addresses: seq<int>, total: nat) {
    && |addresses| == |sizes| && (forall i :: 0 <= i < |cells| ==> cells[i] < |sizes|)
    && total == Sum(sizes, cells, |cells|)
    && forall i :: 0 <= i < |cells| ==> addresses[cells[i]] == Sum(sizes, cells, i)
  }

  predicate InSlice(sizes: seq<nat>, cells: seq<nat>, addresses: seq<int>, i: nat, x: int)
    requires i < |cells| && cells[i] < |sizes| == |addresses|
  {
    addresses[cells[i]] <= x < addresses[cells[i]] + sizes[cells[i]]
  }

  /** The slices lie in the buffer, no two of them overlap, and together they fill it. */
  lemma SlicesPartition(sizes: seq<nat>, cells: seq<nat>, addresses: seq<int>, total: nat)
    requires Allocated(sizes, cells, addresses, total)
    ensures forall i: nat, x :: i < |cells| && InSlice(sizes, cells, addresses, i, x) ==> 0 <= x < total
    ensures forall i: nat, j: nat, x :: i < j < |cells| && InSlice(sizes, cells, addresses, i, x) ==>
              !InSlice(sizes, cells, addresses, j, x)
    ensures forall x: nat :: x < total ==> Covered(sizes, cells, addresses, x)
  {
    hide Sum;
    forall i: nat, x | i < |cells| && InSlice(sizes, cells, addresses, i, x) ensures 0 <= x < total {
      SumGrows(sizes, cells, i, |cells|);
    }
    forall i: nat, j: nat, x | i < j < |cells| && InSlice(sizes, cells, addresses, i, x)
      ensures !InSlice(sizes, cells, addresses, j, x)
    {
      SumGrows(sizes, cells, i, j);
    }
    forall x: nat | x < total ensures Covered(sizes, cells, addresses, x) {
      var i := SumCovers(sizes, cells, |cells|, x);
      assert InSlice(sizes, cells, addresses, i, x);
    }
  }

  ghost predicate Covered(sizes: seq<nat>, cells: seq<nat>, addresses: seq<int>, x: int)
    requires |addresses| == |sizes| && forall i :: 0 <= i < |cells| ==> cells[i] < |sizes|
  {
    exists i: nat :: i < |cells| && InSlice(sizes, cells, addresses, i, x)
  }

  lemma TailStep<T>(all: seq<T>, k: nat, c: T, rest: seq<T>)
    requires k <= |all| && [c] + rest == all[k..]
    ensures k < |all| && c == all[k] && rest == all[k + 1..]
  {
    assert |[c] + rest| == |all| - k;
    assert ([c] + rest)[0] == all[k..][0];
    assert rest == ([c] + rest)[1..];
  }

  /** The table maps symbols to declarations. */
  predicate Declared(cells: seq<nat>, sizes: seq<nat>) {
    forall i :: 0 <= i < |cells| ==> cells[i] < |sizes|
  }

  /** `ftl_program_allocate_signals`: one pass adds up the sizes, a second one over the same table hands out slices. */
  method AllocateSignals<K>(table: Table<K, nat>, sizes: seq<nat>, before: seq<int>)
    returns (total: nat, addresses: seq<int>)
    requires |before| == |sizes|
    requires var vs := Values(Cells(table, |table|));
             && Declared(vs, sizes)
             && (forall i, j :: 0 <= i < j < |vs| ==> vs[i] != vs[j])
    ensures var vs := Values(Cells(table, |table|));
            && total == Sum(sizes, vs, |vs|)
            && (total > 0 ==> Allocated(sizes, vs, addresses, total))
            && (total == 0 ==> addresses == before)
  {
    hide Cells, CellIterator.Remaining, CellIterator.Valid, Sum, Values;
    ghost var all, vs := Cells(table, |table|), Values(Cells(table, |table|));
    total := TotalSize(table, sizes);
    addresses := before;
    if total == 0 {
      return;
    }
    var p := 0;
    SumNone(sizes, vs);
    var iter := new CellIterator(table);
    ghost var k: nat := 0;
    var more := iter.HasMore();
    while more
      invariant iter.Valid() && iter.table == table && fresh(iter) && (more <==> iter.Remaining() != [])
      invariant k <= |vs| && iter.Remaining() == all[k..]
      invariant p == Sum(sizes, vs, k) && |addresses| == |sizes|
      invariant forall i :: 0 <= i < k ==> addresses[vs[i]] == Sum(sizes, vs, i)
      decreases |vs| - k
    {
      var c := iter.Next();
      TailStep(all, k, c, iter.Remaining());
      SumStep(sizes, all, k);
      addresses := addresses[c.value := p];
      p := p + sizes[c.value];
      k := k + 1;
      more := iter.HasMore();
    }
  }

  method TotalSize<K>(table: Table<K, nat>, sizes: seq<nat>) returns (total: nat)
    requires Declared(Values(Cells(table, |table|)), sizes)
    ensures var vs := Values(Cells(table, |table|)); total == Sum(sizes, vs, |vs|)
  {
    hide Cells, CellIterator.Remaining, CellIterator.Valid, Sum, Values;
    ghost var all, vs := Cells(table, |table|), Values(Cells(table, |table|));
    total := 0;
    SumNone(sizes, vs);
    var iter := new CellIterator(table);
    ghost var k: nat := 0;
    var more := iter.HasMore();
    while more
      invariant iter.Valid() && iter.table == table && fresh(iter) && (more <==> iter.Remaining() != [])
      invariant k <= |vs| && iter.Remaining() == all[k..]
      invariant total == Sum(sizes, vs, k)
      decreases |vs| - k
    {
      var c := iter.Next();
      TailStep(all, k, c, iter.Remaining());
      SumStep(sizes, all, k);
      total := total + sizes[c.value];
      k := k + 1;
      more := iter.HasMore();
    }
  }
}
