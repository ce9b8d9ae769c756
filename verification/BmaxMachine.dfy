/** The stack machine that loads bmax code. */
module BmaxMachine {
  import opened Bytes
  import opened BmaxCode

  /** What the evaluation stack holds. */
  datatype Value = Int(i: int) | Float(w: int) | Sym(s: string)

  datatype Received = Received(sel: string, args: seq<Value>)

  datatype Link = Link(dst: nat, inlet: int)

  /** An object as far as loading determines it: what it was made from, the properties put and the messages sent to
      it, and the fan-out list of each outlet. */
  datatype Entity = Entity(parent: nat, desc: seq<Value>, props: map<string, Value>, got: seq<Received>,
                           fan: map<int, seq<Link>>)

  /** Every object ever made; an object is known by its position. */
  type World = seq<Entity>

  datatype Table = Table(size: nat, slots: map<int, nat>)

  /** The top of each stack is its first element. */
  datatype Machine = Machine(eval: seq<Value>, objs: seq<nat>, tables: seq<Table>, world: World)

  /** `Stuck` stands for reading outside a stack or a table. */
  datatype Outcome = Stuck | Running(m: Machine)

  function FanOf(e: Entity, outlet: int): seq<Link> {
    if outlet in e.fan then e.fan[outlet] else []
  }

  /** `fts_connection_new` between valid ports: a new connection goes to the front of the list; a double one is
      ignored. */
  function Connected(w: World, src: nat, outlet: int, l: Link): (w': World)
    requires src < |w|
    ensures |w'| == |w|
  {
    var e := w[src];
    if l in FanOf(e, outlet) then w else w[src := e.(fan := e.fan[outlet := [l] + FanOf(e, outlet)])]
  }

  function Push(m: Machine, v: Value): Outcome {
    Running(m.(eval := [v] + m.eval))
  }

  function SetTop(m: Machine, v: Value): Outcome {
    if m.eval == [] then Stuck else Running(m.(eval := m.eval[0 := v]))
  }

  function Make(m: Machine, n: int): Outcome {
    if m.objs == [] || !(0 <= n <= |m.eval|) then Stuck
    else Running(m.(world := m.world + [Entity(m.objs[0], m.eval[..n], map[], [], map[])],
                    objs := [|m.world|] + m.objs))
  }

  /** One instruction; the machine was started with `ac` arguments. */
  function Do(m: Machine, op: Op, ac: nat): Outcome {
    match op
    case PushInt(i) => Push(m, Int(i))
    case PushFloat(w) => Push(m, Float(w))
    case PushSym(s) => Push(m, Sym(s))
    case SetInt(i) => SetTop(m, Int(i))
    case SetFloat(w) => SetTop(m, Float(w))
    case SetSym(s) => SetTop(m, Sym(s))
    case PopArgs(n) => if 0 <= n <= |m.eval| then Running(m.(eval := m.eval[n..])) else Stuck
    case PushObj(k) =>
      if m.tables == [] || k !in m.tables[0].slots then Stuck
      else Running(m.(objs := [m.tables[0].slots[k]] + m.objs))
    case MvObj(k) =>
      if m.tables == [] || m.objs == [] || !(0 <= k < m.tables[0].size) then Stuck
      else
        var t := m.tables[0];
        Running(m.(tables := [t.(slots := t.slots[k := m.objs[0]])] + m.tables[1..]))
    case PopObjs(n) => if 0 <= n <= |m.objs| then Running(m.(objs := m.objs[n..])) else Stuck
    case MakeObj(n) => Make(m, n)
    case MakeTopObj(n) => Make(m, n + ac)
    case PutProp(s) =>
      if m.objs == [] || m.eval == [] || m.objs[0] >= |m.world| then Stuck
      else
        var e := m.world[m.objs[0]];
        Running(m.(world := m.world[m.objs[0] := e.(props := e.props[s := m.eval[0]])]))
    case ObjMess(s, n) =>
      if m.objs == [] || m.objs[0] >= |m.world| || !(0 <= n <= |m.eval|) then Stuck
      else
        var e := m.world[m.objs[0]];
        Running(m.(world := m.world[m.objs[0] := e.(got := e.got + [Received(s, m.eval[..n])])]))
    case PushObjTable(n) => if n < 0 then Stuck else Running(m.(tables := [Table(n, map[])] + m.tables))
    case PopObjTable => if m.tables == [] then Stuck else Running(m.(tables := m.tables[1..]))
    case Connect =>
      if |m.objs| < 2 || |m.eval| < 2 || !m.eval[0].Int? || !m.eval[1].Int? || m.objs[0] >= |m.world| then Stuck
      else Running(m.(world := Connected(m.world, m.objs[0], m.eval[0].i, Link(m.objs[1], m.eval[1].i))))
    case Return => Stuck
  }

  function DoAll(m: Machine, ops: seq<Op>, ac: nat): Outcome
    decreases |ops|
  {
    if ops == [] then Running(m)
    else
      match Do(m, ops[0], ac)
      case Stuck => Stuck
      case Running(m') => DoAll(m', ops[1..], ac)
  }

  /** Running `ops` from `m` ends in `m'`. */
  predicate Reaches(m: Machine, ops: seq<Op>, m': Machine, ac: nat) {
    DoAll(m, ops, ac) == Running(m')
  }

  lemma {:induction false} Then(m: Machine, a: seq<Op>, m1: Machine, b: seq<Op>, m2: Machine, ac: nat)
    requires Reaches(m, a, m1, ac) && Reaches(m1, b, m2, ac)
    ensures Reaches(m, a + b, m2, ac)
    decreases |a|
  {
    hide Do;
    if a == [] {
      assert a + b == b;
    } else {
      assert (a + b)[0] == a[0] && (a + b)[1..] == a[1..] + b;
      Then(Do(m, a[0], ac).m, a[1..], m1, b, m2, ac);
    }
  }

  lemma Step(m: Machine, op: Op, m': Machine, ac: nat)
    requires Do(m, op, ac) == Running(m')
    ensures Reaches(m, [op], m', ac)
  {
    hide Do;
    assert [op][0] == op && [op][1..] == [];
    assert DoAll(m', [], ac) == Running(m');
  }

  /** The return: arguments are rewound, the object on top is the result, and the parent is taken away. */
  function Returned(m: Machine, ac: nat): Machine
    requires ac <= |m.eval| && |m.objs| >= 1
  {
    m.(eval := m.eval[ac..], objs := if |m.objs| > 1 then m.objs[2..] else [])
  }

  // ---------------------------------------------------------------- the machine itself

  /** A table whose size the reader steps into: the machine returns right after it. */
  predicate Oversized(op: Op) {
    op.PushObjTable? && op.n > 32767
  }

  ghost predicate HasOversized(ops: seq<Op>) {
    exists i :: 0 <= i < |ops| && Oversized(ops[i])
  }

  /** What the machine executes of `ops` before it returns. */
  function Executed(ops: seq<Op>): seq<Op> {
    if ops == [] then [] else if Oversized(ops[0]) then [ops[0]] else [ops[0]] + Executed(ops[1..])
  }

  lemma {:induction false} ExecutedConcat(a: seq<Op>, b: seq<Op>)
    ensures Executed(a + b) == if HasOversized(a) then Executed(a) else a + Executed(b)
  {
    if a == [] {
      assert a + b == b;
    } else {
      assert (a + b)[0] == a[0] && (a + b)[1..] == a[1..] + b && a == [a[0]] + a[1..];
      ExecutedConcat(a[1..], b);
      assert HasOversized(a) <==> Oversized(a[0]) || HasOversized(a[1..]) by {
        if i :| 0 <= i < |a| && Oversized(a[i]) {
          assert i == 0 || a[1..][i - 1] == a[i];
        }
        if j :| 0 <= j < |a[1..]| && Oversized(a[1..][j]) {
          assert a[j + 1] == a[1..][j];
        }
      }
    }
  }

  /** Without such a table everything is executed. */
  lemma ExecutedAll(ops: seq<Op>)
    requires !HasOversized(ops)
    ensures Executed(ops) == ops
  {
    ExecutedConcat(ops, []);
    assert ops + [] == ops;
  }

  /** Instructions that can be written and read back. */
  ghost predicate Readable(symbols: seq<string>, ops: seq<Op>) {
    forall i :: 0 <= i < |ops| ==> ReadableOp(symbols, ops[i])
  }

  ghost predicate ReadableOp(symbols: seq<string>, op: Op) {
    Writable(symbols, op) && !op.Return? && (op.PushObjTable? ==> 0 <= op.n < 0x1_0000)
  }

  /** `p` is what the machine still reads when `rest` is still to be executed. */
  ghost predicate Ahead(symbols: seq<string>, rest: seq<Op>, p: seq<byte>) {
    p == EncodeAll(symbols, rest + [Return]) || (rest == [] && Fetch(symbols, p) == Fetched(Return, 1))
  }

  /** The reader takes an instruction for what it is, and moves on to what is executed after it. */
  lemma FetchNext(symbols: seq<string>, ops: seq<Op>, p: seq<byte>)
    requires Readable(symbols, ops) && ops != [] && Ahead(symbols, ops, p)
    ensures var f := Fetch(symbols, p);
            && f.Fetched? && f.op == ops[0] && !f.op.Return? && f.length <= |p|
            && Ahead(symbols, if Oversized(f.op) then [] else ops[1..], p[f.length..])
  {
    hide Encode, Fetch, EncodeAll, Writable;
    var op, all := ops[0], ops + [Return];
    assert ReadableOp(symbols, op);
    EncodeCons(symbols, all);
    assert all[1..] == ops[1..] + [Return];
    var rest := EncodeAll(symbols, all[1..]);
    FetchEncoded(symbols, op, rest);
    FetchMovesOnIff(symbols, op, rest);
    if Oversized(op) {
      TableOfManyReturns(symbols, op.n, rest);
    } else {
      assert p[|Encode(symbols, op)|..] == rest;
    }
  }

  lemma FetchLast(symbols: seq<string>, p: seq<byte>)
    requires Ahead(symbols, [], p)
    ensures Fetch(symbols, p) == Fetched(Return, 1)
  {
    assert [] + [Op.Return] == [Op.Return];
    assert EncodeAll(symbols, [Return]) == [0] by {
      assert [Op.Return][..0] == [];
    }
  }

  class VirtualMachine {
    var eval: seq<Value>
    var objs: seq<nat>
    var tables: seq<Table>
    var world: World

    ghost function State(): Machine
      reads this
    {
      Machine(eval, objs, tables, world)
    }

    method Execute(op: Op, ac: nat)
      requires Do(State(), op, ac).Running?
      modifies this
      ensures Running(State()) == Do(old(State()), op, ac)
    {
      match op
      case PushInt(i) => eval := [Int(i)] + eval;
      case PushFloat(w) => eval := [Float(w)] + eval;
      case PushSym(s) => eval := [Sym(s)] + eval;
      case SetInt(i) => eval := eval[0 := Int(i)];
      case SetFloat(w) => eval := eval[0 := Float(w)];
      case SetSym(s) => eval := eval[0 := Sym(s)];
      case PopArgs(n) => eval := eval[n..];
      case PushObj(k) => objs := [tables[0].slots[k]] + objs;
      case MvObj(k) => tables := [tables[0].(slots := tables[0].slots[k := objs[0]])] + tables[1..];
      case PopObjs(n) => objs := objs[n..];
      case MakeObj(n) => New(n);
      case MakeTopObj(n) => New(n + ac);
      case PutProp(s) =>
        var e := world[objs[0]];
        world := world[objs[0] := e.(props := e.props[s := eval[0]])];
      case ObjMess(s, n) =>
        var e := world[objs[0]];
        world := world[objs[0] := e.(got := e.got + [Received(s, eval[..n])])];
      case PushObjTable(n) => tables := [Table(n, map[])] + tables;
      case PopObjTable => tables := tables[1..];
      case Connect =>
        world := Connected(world, objs[0], eval[0].i, Link(objs[1], eval[1].i));
    }

    method New(n: nat)
      requires Make(State(), n).Running?
      modifies this
      ensures Running(State()) == Make(old(State()), n)
    {
      var id := |world|;
      world := world + [Entity(objs[0], eval[..n], map[], [], map[])];
      objs := [id] + objs;
    }

    /** `fts_run_mess_vm` */
    method Run(parent: nat, program: seq<byte>, symbols: seq<string>, args: seq<Value>, ghost ops: seq<Op>,
               ghost end: Machine)
      returns (obj: nat)
      requires Readable(symbols, ops) && program == EncodeAll(symbols, ops + [Return])
      requires Reaches(Machine(args + eval, [parent] + objs, tables, world), Executed(ops), end, |args|)
      requires |end.eval| >= |args| && |end.objs| > 1
      modifies this
      ensures State() == Returned(end, |args|) && obj == end.objs[0]
    {
      hide Do, Fetch, Encode, EncodeAll, ReadableOp, Ahead;
      objs := [parent] + objs;
      eval := args + eval;
      ghost var rest := ops;
      var p := program;
      Begins(symbols, ops, program);
      while true
        invariant Ahead(symbols, rest, p) && Readable(symbols, rest)
        invariant Reaches(State(), Executed(rest), end, |args|)
        decreases |rest|
      {
        if rest == [] {
          FetchLast(symbols, p);
        } else {
          FetchNext(symbols, rest, p);
        }
        var f := Fetch(symbols, p);
        if f.op.Return? {
          break;
        }
        p := p[f.length..];
        assert Oversized(f.op) ==> Executed(rest)[1..] == Executed([]);
        Execute(f.op, |args|);
        rest := if Oversized(f.op) then [] else rest[1..];
      }
      eval := eval[|args|..];
      obj := objs[0];
      objs := objs[2..];
    }
  }

  lemma Begins(symbols: seq<string>, ops: seq<Op>, program: seq<byte>)
    requires program == EncodeAll(symbols, ops + [Return])
    ensures Ahead(symbols, ops, program)
  {
  }
}
