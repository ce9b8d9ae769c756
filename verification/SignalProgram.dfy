/** The instruction stream a DSP graph compiles to, and what running it means.

    Buffers hold values of an arbitrary commutative monoid.  The same program has two
    readings: a concrete one, over buffer values, and a symbolic one, where a buffer
    holds the formal sum of the node outputs that have flowed into it.  `SymbolicSound`
    says that the concrete run is always the symbolic one with values filled in. */
module SignalProgram {

  /** `Add` is a call of `__builtin_add`; `Put` is the call a node emits for itself, reading
      all its inputs and then writing all its outputs. */
  datatype Instr =
    | Add(x: nat, y: nat, z: nat)
    | Put(node: nat, ins: seq<nat>, outs: seq<nat>)

  /** The signal `sig_zero`: allocated first, never written. */
  const ZERO_SIGNAL: nat := 0

  // ---------------------------------------------------------------- symbolic reading

  /** What one summand of a buffer is: an output of a node, or what the buffer held before the run. */
  datatype Term = Output(node: nat, outlet: nat) | Initial(sig: nat)

  datatype Symbolic = Symbolic(buf: map<nat, multiset<Term>>, seen: map<nat, seq<multiset<Term>>>)

  function Look(buf: map<nat, multiset<Term>>, s: nat): multiset<Term> {
    if s in buf then buf[s]
    else if s == ZERO_SIGNAL then multiset{}
    else multiset{Initial(s)}
  }

  function WriteOuts(buf: map<nat, multiset<Term>>, node: nat, outs: seq<nat>): map<nat, multiset<Term>> {
    if outs == [] then buf
    else
      var k := |outs| - 1;
      WriteOuts(buf, node, outs[..k])[outs[k] := multiset{Output(node, k)}]
  }

  function SymStep(m: Symbolic, i: Instr): Symbolic {
    match i
    case Add(x, y, z) => m.(buf := m.buf[z := Look(m.buf, x) + Look(m.buf, y)])
    case Put(n, ins, outs) =>
      Symbolic(WriteOuts(m.buf, n, outs), m.seen[n := seq(|ins|, k requires 0 <= k < |ins| => Look(m.buf, ins[k]))])
  }

  function SymExec(prog: seq<Instr>): Symbolic {
    if prog == [] then Symbolic(map[], map[])
    else SymStep(SymExec(prog[..|prog| - 1]), prog[|prog| - 1])
  }

  predicate Distinct(s: seq<nat>) {
    forall i, j :: 0 <= i < j < |s| ==> s[i] != s[j]
  }

  /** No node is put twice, no instruction writes a signal twice, and nothing writes the zero signal. */
  ghost predicate WellFormed(prog: seq<Instr>) {
    prog == [] ||
    (WellFormed(prog[..|prog| - 1]) &&
     match prog[|prog| - 1]
     case Add(_, _, z) => z != ZERO_SIGNAL
     case Put(n, _, outs) =>
       n !in SymExec(prog[..|prog| - 1]).seen && Distinct(outs) && ZERO_SIGNAL !in outs)
  }

  /** Every signal an instruction mentions is below `n`. */
  predicate Within(i: Instr, n: nat) {
    match i
    case Add(x, y, z) => x < n && y < n && z < n
    case Put(_, ins, outs) => (forall s :: s in ins ==> s < n) && forall s :: s in outs ==> s < n
  }

  predicate AllWithin(prog: seq<Instr>, n: nat) {
    forall k :: 0 <= k < |prog| ==> Within(prog[k], n)
  }

  lemma AllWithinGrows(prog: seq<Instr>, i: Instr, n: nat, n': nat)
    requires AllWithin(prog, n) && n <= n' && Within(i, n')
    ensures AllWithin(prog, n') && AllWithin(prog + [i], n')
  {
    forall k | 0 <= k < |prog| ensures Within(prog[k], n') {
      assert Within(prog[k], n);
    }
  }

  lemma Append(prog: seq<Instr>, i: Instr)
    ensures SymExec(prog + [i]) == SymStep(SymExec(prog), i)
    ensures WellFormed(prog + [i]) <==>
            (WellFormed(prog) &&
             match i
             case Add(_, _, z) => z != ZERO_SIGNAL
             case Put(n, _, outs) => n !in SymExec(prog).seen && Distinct(outs) && ZERO_SIGNAL !in outs)
  {
    var p := prog + [i];
    assert p[..|p| - 1] == prog;
  }

  lemma LookUpdate(buf: map<nat, multiset<Term>>, x: nat, v: multiset<Term>, s: nat)
    ensures Look(buf[x := v], s) == if s == x then v else Look(buf, s)
  {
  }

  lemma {:induction false} WriteOutsLook(buf: map<nat, multiset<Term>>, node: nat, outs: seq<nat>)
    requires Distinct(outs)
    ensures forall k :: 0 <= k < |outs| ==> Look(WriteOuts(buf, node, outs), outs[k]) == multiset{Output(node, k)}
    ensures forall s :: s !in outs ==> Look(WriteOuts(buf, node, outs), s) == Look(buf, s)
  {
    hide Look;
    if outs != [] {
      var k := |outs| - 1;
      var init := outs[..k];
      WriteOutsLook(buf, node, init);
      var before := WriteOuts(buf, node, init);
      forall j | 0 <= j <= k ensures Look(WriteOuts(buf, node, outs), outs[j]) == multiset{Output(node, j)} {
        LookUpdate(before, outs[k], multiset{Output(node, k)}, outs[j]);
        assert j < k ==> init[j] == outs[j] && outs[j] != outs[k];
      }
      forall s | s !in outs ensures Look(WriteOuts(buf, node, outs), s) == Look(buf, s) {
        LookUpdate(before, outs[k], multiset{Output(node, k)}, s);
        assert s !in init && s != outs[k];
      }
    }
  }

  // ---------------------------------------------------------------- concrete reading

  /** The values signals carry: a zero, the sum `__builtin_add` computes, what each node computes from its
      inputs, and what each buffer happens to hold before the run. */
  datatype Values<!V> = Values(zero: V, plus: (V, V) -> V, node: (nat, seq<V>) -> seq<V>, start: nat -> V)

  ghost predicate Laws<V>(a: Values<V>, x: V, y: V, z: V) {
    && a.plus(a.zero, x) == x
    && a.plus(x, y) == a.plus(y, x)
    && a.plus(a.plus(x, y), z) == a.plus(x, a.plus(y, z))
  }

  /** `zero` and `plus` form a commutative monoid. */
  ghost predicate Lawful<V(!new)>(a: Values<V>) {
    forall x: V, y: V, z: V :: Laws(a, x, y, z)
  }

  datatype Machine<V> = Machine(buf: map<nat, V>, seen: map<nat, seq<V>>, made: map<nat, seq<V>>)

  function Fetch<V>(a: Values<V>, buf: map<nat, V>, s: nat): V {
    if s in buf then buf[s]
    else if s == ZERO_SIGNAL then a.zero
    else a.start(s)
  }

  /** Output `k` of a node that computed `vs`. */
  function Nth<V>(a: Values<V>, vs: seq<V>, k: nat): V {
    if k < |vs| then vs[k] else a.zero
  }

  function Store<V>(a: Values<V>, buf: map<nat, V>, vs: seq<V>, outs: seq<nat>): map<nat, V> {
    if outs == [] then buf
    else
      var k := |outs| - 1;
      Store(a, buf, vs, outs[..k])[outs[k] := Nth(a, vs, k)]
  }

  function Inputs<V>(a: Values<V>, buf: map<nat, V>, ins: seq<nat>): seq<V> {
    seq(|ins|, k requires 0 <= k < |ins| => Fetch(a, buf, ins[k]))
  }

  function Step<V>(a: Values<V>, m: Machine<V>, i: Instr): Machine<V> {
    match i
    case Add(x, y, z) => m.(buf := m.buf[z := a.plus(Fetch(a, m.buf, x), Fetch(a, m.buf, y))])
    case Put(n, ins, outs) =>
      var vs := Inputs(a, m.buf, ins);
      var ws := a.node(n, vs);
      Machine(Store(a, m.buf, ws, outs), m.seen[n := vs], m.made[n := ws])
  }

  /** One tick: run `prog` from buffers that hold whatever the previous tick left in them. */
  function Exec<V>(a: Values<V>, prog: seq<Instr>): Machine<V> {
    if prog == [] then Machine(map[], map[], map[])
    else Step(a, Exec(a, prog[..|prog| - 1]), prog[|prog| - 1])
  }

  lemma {:induction false} StoreFetch<V>(a: Values<V>, buf: map<nat, V>, vs: seq<V>, outs: seq<nat>)
    requires Distinct(outs)
    ensures forall k :: 0 <= k < |outs| ==> Fetch(a, Store(a, buf, vs, outs), outs[k]) == Nth(a, vs, k)
    ensures forall s :: s !in outs ==> Fetch(a, Store(a, buf, vs, outs), s) == Fetch(a, buf, s)
  {
    if outs != [] {
      var k := |outs| - 1;
      StoreFetch(a, buf, vs, outs[..k]);
      assert forall s :: s !in outs ==> s !in outs[..k];
      forall j | 0 <= j < k
        ensures Fetch(a, Store(a, buf, vs, outs), outs[j]) == Nth(a, vs, j)
      {
        assert outs[..k][j] == outs[j];
      }
    }
  }

  // ---------------------------------------------------------------- sums of terms

  function Value<V>(a: Values<V>, made: map<nat, seq<V>>, t: Term): V {
    match t
    case Initial(s) => a.start(s)
    case Output(n, k) => if n in made then Nth(a, made[n], k) else a.zero
  }

  /** The value of a formal sum, given what each node has written. */
  ghost function Total<V>(a: Values<V>, made: map<nat, seq<V>>, sum: multiset<Term>): V
    decreases |sum|
  {
    if sum == multiset{} then a.zero
    else
      var t :| t in sum;
      a.plus(Value(a, made, t), Total(a, made, sum - multiset{t}))
  }

  lemma {:induction false} TotalPick<V(!new)>(a: Values<V>, w: map<nat, seq<V>>, sum: multiset<Term>, t: Term)
    requires Lawful(a) && t in sum
    ensures Total(a, w, sum) == a.plus(Value(a, w, t), Total(a, w, sum - multiset{t}))
    decreases |sum|
  {
    var u :| u in sum && Total(a, w, sum) == a.plus(Value(a, w, u), Total(a, w, sum - multiset{u}));
    if u != t {
      var rest := sum - multiset{u} - multiset{t};
      assert rest == sum - multiset{t} - multiset{u};
      TotalPick(a, w, sum - multiset{u}, t);
      TotalPick(a, w, sum - multiset{t}, u);
      var x, y, z := Value(a, w, u), Value(a, w, t), Total(a, w, rest);
      assert Laws(a, x, y, z) && Laws(a, y, x, z);
    }
  }

  lemma {:induction false} TotalUnion<V(!new)>(a: Values<V>, w: map<nat, seq<V>>, s: multiset<Term>, t: multiset<Term>)
    requires Lawful(a)
    ensures Total(a, w, s + t) == a.plus(Total(a, w, s), Total(a, w, t))
    decreases |s|
  {
    if s == multiset{} {
      assert s + t == t;
      assert Laws(a, Total(a, w, t), a.zero, a.zero);
    } else {
      var u :| u in s;
      TotalPick(a, w, s, u);
      TotalPick(a, w, s + t, u);
      assert s + t - multiset{u} == (s - multiset{u}) + t;
      TotalUnion(a, w, s - multiset{u}, t);
      assert Laws(a, Value(a, w, u), Total(a, w, s - multiset{u}), Total(a, w, t));
    }
  }

  lemma TotalSingle<V(!new)>(a: Values<V>, w: map<nat, seq<V>>, t: Term)
    requires Lawful(a)
    ensures Total(a, w, multiset{t}) == Value(a, w, t)
  {
    TotalPick(a, w, multiset{t}, t);
    assert multiset{t} - multiset{t} == multiset{};
    assert Laws(a, Value(a, w, t), a.zero, a.zero);
    assert Laws(a, a.zero, Value(a, w, t), a.zero);
  }

  /** Every output a sum mentions belongs to a node that has run. */
  predicate Closed(sum: multiset<Term>, nodes: set<nat>) {
    forall t :: t in sum && t.Output? ==> t.node in nodes
  }

  lemma {:induction false} TotalStable<V(!new)>(a: Values<V>, w: map<nat, seq<V>>, w': map<nat, seq<V>>,
                                                sum: multiset<Term>)
    requires Lawful(a) && Closed(sum, w.Keys)
    requires forall n :: n in w ==> n in w' && w'[n] == w[n]
    ensures Total(a, w', sum) == Total(a, w, sum)
    decreases |sum|
  {
    if sum != multiset{} {
      var t :| t in sum;
      TotalPick(a, w, sum, t);
      TotalPick(a, w', sum, t);
      TotalStable(a, w, w', sum - multiset{t});
    }
  }

  // ---------------------------------------------------------------- soundness

  ghost predicate Agrees<V(!new)>(a: Values<V>, m: Machine<V>, sy: Symbolic) {
    && m.seen.Keys == m.made.Keys == sy.seen.Keys
    && (forall s: nat :: Closed(Look(sy.buf, s), m.made.Keys))
    && (forall s: nat :: Fetch(a, m.buf, s) == Total(a, m.made, Look(sy.buf, s)))
    && (forall n, i :: n in m.seen && 0 <= i < |m.seen[n]| ==>
          |sy.seen[n]| == |m.seen[n]| &&
          Closed(sy.seen[n][i], m.made.Keys) &&
          m.seen[n][i] == Total(a, m.made, sy.seen[n][i]))
    && (forall n :: n in m.seen ==> |sy.seen[n]| == |m.seen[n]| && m.made[n] == a.node(n, m.seen[n]))
  }

  lemma AgreesAdd<V(!new)>(a: Values<V>, m: Machine<V>, sy: Symbolic, i: Instr)
    requires Lawful(a) && Agrees(a, m, sy) && i.Add?
    ensures Agrees(a, Step(a, m, i), SymStep(sy, i))
  {
    hide Total, Lawful;
    var m', sy' := Step(a, m, i), SymStep(sy, i);
    var x, y := Look(sy.buf, i.x), Look(sy.buf, i.y);
    TotalUnion(a, m.made, x, y);
    assert Closed(x, m.made.Keys) && Closed(y, m.made.Keys);
    forall s: nat
      ensures Closed(Look(sy'.buf, s), m'.made.Keys) && Fetch(a, m'.buf, s) == Total(a, m'.made, Look(sy'.buf, s))
    {
      if s == i.z {
        assert Look(sy'.buf, s) == x + y;
      } else {
        assert Look(sy'.buf, s) == Look(sy.buf, s) && Fetch(a, m'.buf, s) == Fetch(a, m.buf, s);
      }
    }
  }

  lemma AgreesPut<V(!new)>(a: Values<V>, m: Machine<V>, sy: Symbolic, i: Instr)
    requires Lawful(a) && Agrees(a, m, sy) && i.Put?
    requires i.node !in sy.seen && Distinct(i.outs)
    ensures Agrees(a, Step(a, m, i), SymStep(sy, i))
  {
    hide Total, Lawful, Store, WriteOuts, Fetch, Look;
    var m', sy' := Step(a, m, i), SymStep(sy, i);
    var vs := Inputs(a, m.buf, i.ins);
    var ws := a.node(i.node, vs);
    WriteOutsLook(sy.buf, i.node, i.outs);
    StoreFetch(a, m.buf, ws, i.outs);
    forall s: nat
      ensures Closed(Look(sy'.buf, s), m'.made.Keys) && Fetch(a, m'.buf, s) == Total(a, m'.made, Look(sy'.buf, s))
    {
      if s in i.outs {
        var k :| 0 <= k < |i.outs| && i.outs[k] == s;
        TotalSingle(a, m'.made, Output(i.node, k));
      } else {
        TotalStable(a, m.made, m'.made, Look(sy.buf, s));
      }
    }
    forall n, k | n in m'.seen && 0 <= k < |m'.seen[n]|
      ensures |sy'.seen[n]| == |m'.seen[n]| && Closed(sy'.seen[n][k], m'.made.Keys)
      ensures m'.seen[n][k] == Total(a, m'.made, sy'.seen[n][k])
    {
      if n == i.node {
        TotalStable(a, m.made, m'.made, Look(sy.buf, i.ins[k]));
      } else {
        TotalStable(a, m.made, m'.made, sy.seen[n][k]);
      }
    }
  }

  /** Whatever the monoid, the nodes and the leftovers in the buffers are: each node reads, at each inlet, the value
      of the formal sum the symbolic run reads there, and writes what it computes from those inputs. */
  lemma {:induction false} SymbolicSound<V(!new)>(a: Values<V>, prog: seq<Instr>)
    requires Lawful(a) && WellFormed(prog)
    ensures Agrees(a, Exec(a, prog), SymExec(prog))
  {
    if prog == [] {
      forall s: nat ensures Fetch(a, map[], s) == Total(a, map[], Look(map[], s)) {
        if s != ZERO_SIGNAL {
          TotalSingle(a, map[], Initial(s));
        }
      }
    } else {
      var init, i := prog[..|prog| - 1], prog[|prog| - 1];
      SymbolicSound(a, init);
      match i
      case Add(_, _, _) => AgreesAdd(a, Exec(a, init), SymExec(init), i);
      case Put(_, _, _) => AgreesPut(a, Exec(a, init), SymExec(init), i);
    }
  }
}
