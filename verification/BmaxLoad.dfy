/** What loading the code of a saved patcher builds. */
module BmaxLoad {
  import opened Bytes
  import opened BmaxCode
  import opened BmaxMachine
  import opened BmaxPatcher

  // ---------------------------------------------------------------- one object

  /** The value an atom is loaded as. */
  function ValueOf(a: Atom): Value {
    match a
    case AInt(i) => Int(i)
    case AFloat(w) => Float(w)
    case ASym(s) => Sym(s)
    case Other => Int(0)
  }

  function Values(at: seq<Atom>): (vs: seq<Value>)
    ensures |vs| == |at|
  {
    seq(|at|, i requires 0 <= i < |at| => ValueOf(at[i]))
  }

  /** The properties put so far, and the value on top of the evaluation stack: an atom that is not an int, a float or
      a symbol leaves the previous value there. */
  datatype Putting = Putting(props: map<string, Value>, top: Value)

  function PutOne(p: Putting, prop: map<string, Atom>, name: string): Putting {
    if name !in prop then p
    else
      var top := if prop[name].Other? then p.top else ValueOf(prop[name]);
      Putting(p.props[name := top], top)
  }

  function PutAll(p: Putting, prop: map<string, Atom>, names: seq<string>): Putting {
    if names == [] then p else PutOne(PutAll(p, prop, names[..|names| - 1]), prop, names[|names| - 1])
  }

  function Receive(ms: seq<Message>): (rs: seq<Received>)
    ensures |rs| == |ms|
  {
    seq(|ms|, i requires 0 <= i < |ms| => Received(ms[i].sel, Values(ms[i].args)))
  }

  function First(desc: seq<Atom>): Value {
    if desc == [] then Int(0) else ValueOf(desc[0])
  }

  /** The object made for `t` below `parent`, before it is connected. */
  function EntityOf(parent: nat, t: Tree): Entity {
    Entity(parent, Values(t.desc), PutAll(Putting(map[], First(t.desc)), t.prop, Names(t.patcher)).props,
           Receive(Messages(t)), map[])
  }

  lemma {:induction false} RunsAtoms(m: Machine, at: seq<Atom>, ac: nat)
    ensures Reaches(m, PushAtoms(at), m.(eval := Values(at) + m.eval), ac)
  {
    if at == [] {
      assert Values(at) + m.eval == m.eval;
    } else {
      var m1 := m.(eval := Values(at[1..]) + m.eval);
      var m2 := m.(eval := Values(at) + m.eval);
      RunsAtoms(m, at[1..], ac);
      assert Do(m1, PushAtom(at[0]), ac) == Running(m2) by {
        assert Values(at) == [ValueOf(at[0])] + Values(at[1..]);
      }
      hide Reaches;
      Step(m1, PushAtom(at[0]), m2, ac);
      Then(m, PushAtoms(at[1..]), m1, [PushAtom(at[0])], m2, ac);
    }
  }

  /** The object on top of the object stack. */
  ghost predicate Holding(m: Machine) {
    m.objs != [] && m.objs[0] < |m.world|
  }

  function Change(m: Machine, e: Entity): Machine
    requires m.objs != [] && m.objs[0] < |m.world|
  {
    m.(world := m.world[m.objs[0] := e])
  }

  function AfterPut(m: Machine, p: Putting): Machine
    requires m.objs != [] && m.objs[0] < |m.world| && m.eval != []
  {
    Change(m.(eval := m.eval[0 := p.top]), m.world[m.objs[0]].(props := p.props))
  }

  lemma RunsProp(m: Machine, prop: map<string, Atom>, name: string, ac: nat)
    requires Holding(m) && m.eval != []
    ensures Reaches(m, PropOps(prop, name),
                    AfterPut(m, PutOne(Putting(m.world[m.objs[0]].props, m.eval[0]), prop, name)), ac)
  {
    var p := Putting(m.world[m.objs[0]].props, m.eval[0]);
    var p' := PutOne(p, prop, name);
    if name in prop {
      var a := prop[name];
      var m1 := m.(eval := m.eval[0 := p'.top]);
      if a.Other? {
        assert m1 == m;
      } else {
        assert Do(m, SetAtom(a)[0], ac) == Running(m1);
        Step(m, SetAtom(a)[0], m1, ac);
      }
      assert Do(m1, PutProp(name), ac) == Running(AfterPut(m, p'));
      Step(m1, PutProp(name), AfterPut(m, p'), ac);
      hide Reaches;
      Then(m, SetAtom(a), m1, [PutProp(name)], AfterPut(m, p'), ac);
    } else {
      assert AfterPut(m, p') == m;
    }
  }

  lemma {:induction false} RunsProps(m: Machine, prop: map<string, Atom>, names: seq<string>, ac: nat)
    requires Holding(m) && m.eval != []
    ensures Reaches(m, PropsOps(prop, names),
                    AfterPut(m, PutAll(Putting(m.world[m.objs[0]].props, m.eval[0]), prop, names)), ac)
  {
    hide Reaches, PutOne;
    var p := Putting(m.world[m.objs[0]].props, m.eval[0]);
    if names == [] {
      assert AfterPut(m, p) == m;
      Stays(m, ac);
    } else {
      var init, last := names[..|names| - 1], names[|names| - 1];
      RunsProps(m, prop, init, ac);
      var p1 := PutAll(p, prop, init);
      var m1 := AfterPut(m, p1);
      RunsProp(m1, prop, last, ac);
      var p2 := PutOne(p1, prop, last);
      assert AfterPut(m1, p2) == AfterPut(m, p2);
      Then(m, PropsOps(prop, init), m1, PropOps(prop, last), AfterPut(m, p2), ac);
    }
  }

  lemma Stays(m: Machine, ac: nat)
    ensures Reaches(m, [], m, ac)
  {
  }

  function AfterGot(m: Machine, rs: seq<Received>): Machine
    requires m.objs != [] && m.objs[0] < |m.world|
  {
    var e := m.world[m.objs[0]];
    Change(m, e.(got := e.got + rs))
  }

  lemma RunsSend(m: Machine, msg: Message, ac: nat)
    requires Holding(m)
    ensures Reaches(m, SendOps(msg), AfterGot(m, [Received(msg.sel, Values(msg.args))]), ac)
  {
    var n, m4 := |msg.args|, AfterGot(m, [Received(msg.sel, Values(msg.args))]);
    var m1 := m.(eval := Values(msg.args) + m.eval);
    var m2 := AfterGot(m1, [Received(msg.sel, Values(msg.args))]);
    RunsAtoms(m, msg.args, ac);
    assert m1.eval[..n] == Values(msg.args) && m1.eval[n..] == m.eval;
    assert Do(m1, ObjMess(msg.sel, n), ac) == Running(m2);
    assert Do(m2, PopArgs(n), ac) == Running(m4);
    Step(m1, ObjMess(msg.sel, n), m2, ac);
    Step(m2, PopArgs(n), m4, ac);
    hide Reaches;
    Then(m1, [ObjMess(msg.sel, n)], m2, [PopArgs(n)], m4, ac);
    assert [ObjMess(msg.sel, n)] + [PopArgs(n)] == [ObjMess(msg.sel, n), PopArgs(n)];
    Then(m, PushAtoms(msg.args), m1, [ObjMess(msg.sel, n), PopArgs(n)], m4, ac);
  }

  lemma {:induction false} RunsSends(m: Machine, ms: seq<Message>, ac: nat)
    requires Holding(m)
    ensures Reaches(m, SendsOps(ms), AfterGot(m, Receive(ms)), ac)
  {
    hide Reaches, SendOps;
    if ms == [] {
      var e := m.world[m.objs[0]];
      assert Receive(ms) == [] && e.got + [] == e.got && m.world[m.objs[0] := e] == m.world;
      Stays(m, ac);
    } else {
      var init, last := ms[..|ms| - 1], ms[|ms| - 1];
      RunsSends(m, init, ac);
      var m1 := AfterGot(m, Receive(init));
      RunsSend(m1, last, ac);
      var m2 := AfterGot(m1, [Received(last.sel, Values(last.args))]);
      assert m2 == AfterGot(m, Receive(ms)) by {
        assert Receive(ms) == Receive(init) + [Received(last.sel, Values(last.args))];
        var got := m.world[m.objs[0]].got;
        assert (got + Receive(init)) + [Received(last.sel, Values(last.args))] == got + Receive(ms);
      }
      Then(m, SendsOps(init), m1, SendOps(last), m2, ac);
    }
  }

  /** The machine after the object for `t` is made and stored at `idx`. */
  function Made(m: Machine, t: Tree, idx: nat): Machine
    requires m.objs != [] && m.tables != []
  {
    var id, top := |m.world|, m.tables[0];
    Machine(m.eval, [id] + m.objs, [top.(slots := top.slots[idx := id])] + m.tables[1..],
            m.world + [EntityOf(m.objs[0], t)])
  }

  /** `fts_bmax_code_new_object` makes the object, and leaves the evaluation stack as it was and the object stack one
      higher. */
  lemma RunsObject(m: Machine, t: Tree, idx: nat, ac: nat)
    requires m.objs != [] && m.tables != [] && idx < m.tables[0].size
    ensures Reaches(m, ObjectOps(t, idx), Made(m, t, idx), ac)
  {
    hide Reaches, PushAtoms, PropsOps, SendsOps, Messages, Names, PutOne, PutAll;
    var vs, n, id := Values(t.desc), |t.desc|, |m.world|;
    var blank := Entity(m.objs[0], vs, map[], [], map[]);
    var m1 := m.(eval := vs + m.eval);
    RunsAtoms(m, t.desc, ac);
    assert m1.eval[..n] == vs && m1.eval[n..] == m.eval;

    var m2 := m1.(world := m.world + [blank], objs := [id] + m.objs);
    Step(m1, MakeObj(n), m2, ac);
    var top := m.tables[0];
    var m3 := m2.(tables := [top.(slots := top.slots[idx := id])] + m.tables[1..]);
    Step(m2, MvObj(idx), m3, ac);
    Then(m1, [MakeObj(n)], m2, [MvObj(idx)], m3, ac);
    assert [MakeObj(n)] + [MvObj(idx)] == [MakeObj(n), MvObj(idx)];
    Then(m, PushAtoms(t.desc), m1, [MakeObj(n), MvObj(idx)], m3, ac);
    var ops := PushAtoms(t.desc) + [MakeObj(n), MvObj(idx)];

    var extra := if t.desc == [] then [PushInt(0)] else [];
    var m4 := if t.desc == [] then m3.(eval := [Int(0)] + m3.eval) else m3;
    if t.desc == [] {
      Step(m3, PushInt(0), m4, ac);
    } else {
      Stays(m3, ac);
    }
    Then(m, ops, m3, extra, m4, ac);
    assert m4.eval[0] == First(t.desc) && m4.eval[Least1(n)..] == m.eval;
    assert m4.world[id] == blank;
    FinishObject(m, m4, t, ops + extra, Least1(n), ac);
  }

  lemma FinishObject(m: Machine, m4: Machine, t: Tree, ops: seq<Op>, n: nat, ac: nat)
    requires Reaches(m, ops, m4, ac) && m.objs != [] && 1 <= n <= |m4.eval| && m4.eval[0] == First(t.desc)
    requires m4.eval[n..] == m.eval && m4.objs == [|m.world|] + m.objs
    requires m4.world == m.world + [Entity(m.objs[0], Values(t.desc), map[], [], map[])]
    ensures Reaches(m, ops + PropsOps(t.prop, Names(t.patcher)) + [PopArgs(n)] + SendsOps(Messages(t)),
                    Machine(m.eval, m4.objs, m4.tables, m.world + [EntityOf(m.objs[0], t)]), ac)
  {
    hide Reaches, PropsOps, SendsOps, Messages, Names, PutOne, PutAll;
    var id, names := |m.world|, Names(t.patcher);
    var props := PropsOps(t.prop, names);
    var p := PutAll(Putting(map[], First(t.desc)), t.prop, names);
    var e5 := m4.world[id].(props := p.props);
    var m5 := AfterPut(m4, p);
    RunsProps(m4, t.prop, names, ac);
    Then(m, ops, m4, props, m5, ac);
    assert m5.world == m.world + [e5];
    var m6 := m5.(eval := m.eval);
    assert m5.eval[n..] == m.eval;
    Step(m5, PopArgs(n), m6, ac);
    Then(m, ops + props, m5, [PopArgs(n)], m6, ac);
    var m7 := AfterGot(m6, Receive(Messages(t)));
    RunsSends(m6, Messages(t), ac);
    Then(m, ops + props + [PopArgs(n)], m6, SendsOps(Messages(t)), m7, ac);
    assert e5.got + Receive(Messages(t)) == Receive(Messages(t));
    assert m7.world == m.world + [EntityOf(m.objs[0], t)];
  }

  // ---------------------------------------------------------------- patchers

  /** Connects the objects the table names. */
  function Wired(w: World, slots: map<int, nat>, ws: seq<Wire>): (w': World)
    ensures |w'| == |w|
  {
    if ws == [] then w
    else
      var w1, x := Wired(w, slots, ws[..|ws| - 1]), ws[|ws| - 1];
      if x.conn.kind <= HIDDEN || x.src !in slots || x.conn.dst !in slots || slots[x.src] >= |w1| then w1
      else Connected(w1, slots[x.src], x.outlet, Link(slots[x.conn.dst], x.conn.inlet))
  }

  /** The world after an object or patcher `t` is loaded into `parent`. */
  function BuildKid(w: World, parent: nat, t: Tree): World
    decreases t, |t.kids| + 2
  {
    var w1 := w + [EntityOf(parent, t)];
    if t.nested then BuildBody(w1, |w|, t) else w1
  }

  /** The world after the contents of patcher `id` are loaded. */
  function BuildBody(w: World, id: nat, t: Tree): World
    decreases t, |t.kids| + 1
  {
    Wired(BuildKids(w, id, t, |t.kids|), Slots(w, id, t, |t.kids|), Wires(t.kids, |t.kids|))
  }

  function BuildKids(w: World, id: nat, t: Tree, n: nat): World
    requires n <= |t.kids|
    decreases t, n
  {
    if n == 0 then w else BuildKid(BuildKids(w, id, t, n - 1), id, t.kids[n - 1])
  }

  /** The object table once the first `n` objects are made. */
  function Slots(w: World, id: nat, t: Tree, n: nat): map<int, nat>
    requires n <= |t.kids|
    decreases t, n
  {
    if n == 0 then map[] else Slots(w, id, t, n - 1)[n - 1 := |BuildKids(w, id, t, n - 1)|]
  }

  /** Connections lead from one object of the patcher to another. */
  predicate Closed(t: Tree)
    decreases t
  {
    t.nested ==> ClosedBody(t)
  }

  predicate ClosedBody(t: Tree)
    decreases t, 0
  {
    && (forall k :: 0 <= k < |t.kids| ==> Closed(t.kids[k]))
    && (forall k, o, c :: 0 <= k < |t.kids| && 0 <= o < |t.kids[k].outs| && c in t.kids[k].outs[o] ==> c.dst < |t.kids|)
  }

  lemma RunsWire(m: Machine, x: Wire, ac: nat)
    requires m.tables != [] && x.src in m.tables[0].slots && x.conn.dst in m.tables[0].slots
    requires m.tables[0].slots[x.src] < |m.world|
    ensures Reaches(m, WireOps(x), m.(world := Wired(m.world, m.tables[0].slots, [x])), ac)
  {
    var slots := m.tables[0].slots;
    assert [x][..0] == [] && Wired(m.world, slots, []) == m.world;
    var w' := Wired(m.world, slots, [x]);
    if x.conn.kind <= HIDDEN {
      Stays(m, ac);
    } else {
      var src, dst := slots[x.src], slots[x.conn.dst];
      var m1 := m.(eval := [Int(x.outlet), Int(x.conn.inlet)] + m.eval, objs := [src, dst] + m.objs);
      RunsPushes(m, x, m1, ac);
      var m2 := m1.(world := w');
      Step(m1, Connect, m2, ac);
      var m3 := m2.(eval := m.eval);
      assert m2.eval[2..] == m.eval && m2.objs[2..] == m.objs;
      Step(m2, PopArgs(2), m3, ac);
      var m4 := m3.(objs := m.objs);
      Step(m3, PopObjs(2), m4, ac);
      hide Reaches;
      var ops := [PushInt(x.conn.inlet), PushInt(x.outlet), PushObj(x.conn.dst), PushObj(x.src)];
      Then(m, ops, m1, [Connect], m2, ac);
      Then(m, ops + [Connect], m2, [PopArgs(2)], m3, ac);
      Then(m, ops + [Connect] + [PopArgs(2)], m3, [PopObjs(2)], m4, ac);
      assert ops + [Connect] + [PopArgs(2)] + [PopObjs(2)] == WireOps(x);
    }
  }

  lemma RunsPushes(m: Machine, x: Wire, m': Machine, ac: nat)
    requires m.tables != [] && x.src in m.tables[0].slots && x.conn.dst in m.tables[0].slots
    requires m' == m.(eval := [Int(x.outlet), Int(x.conn.inlet)] + m.eval,
                      objs := [m.tables[0].slots[x.src], m.tables[0].slots[x.conn.dst]] + m.objs)
    ensures Reaches(m, [PushInt(x.conn.inlet), PushInt(x.outlet), PushObj(x.conn.dst), PushObj(x.src)], m', ac)
  {
    var m1 := m.(eval := [Int(x.conn.inlet)] + m.eval);
    var m2 := m1.(eval := [Int(x.outlet)] + m1.eval);
    var m3 := m2.(objs := [m.tables[0].slots[x.conn.dst]] + m.objs);
    Step(m, PushInt(x.conn.inlet), m1, ac);
    Step(m1, PushInt(x.outlet), m2, ac);
    Step(m2, PushObj(x.conn.dst), m3, ac);
    assert m'.eval == m3.eval && m'.objs == [m.tables[0].slots[x.src]] + m3.objs;
    Step(m3, PushObj(x.src), m', ac);
    hide Reaches;
    var a, b, c, d := PushInt(x.conn.inlet), PushInt(x.outlet), PushObj(x.conn.dst), PushObj(x.src);
    Then(m, [a], m1, [b], m2, ac);
    Then(m, [a] + [b], m2, [c], m3, ac);
    Then(m, [a] + [b] + [c], m3, [d], m', ac);
    assert [a] + [b] + [c] + [d] == [a, b, c, d];
  }

  /** The table names every end of these connections. */
  predicate InTable(slots: map<int, nat>, size: nat, ws: seq<Wire>) {
    forall i :: 0 <= i < |ws| ==> ws[i].src in slots && ws[i].conn.dst in slots && slots[ws[i].src] < size
  }

  lemma {:induction false} RunsWires(m: Machine, ws: seq<Wire>, ac: nat)
    requires m.tables != [] && InTable(m.tables[0].slots, |m.world|, ws)
    ensures Reaches(m, WiresOps(ws), m.(world := Wired(m.world, m.tables[0].slots, ws)), ac)
  {
    hide Reaches, WireOps;
    if ws == [] {
      Stays(m, ac);
    } else {
      var init, last := ws[..|ws| - 1], ws[|ws| - 1];
      RunsWires(m, init, ac);
      var m1 := m.(world := Wired(m.world, m.tables[0].slots, init));
      RunsWire(m1, last, ac);
      assert [last][..0] == [] && Wired(m1.world, m.tables[0].slots, []) == m1.world;
      Then(m, WiresOps(init), m1, WireOps(last), m.(world := Wired(m.world, m.tables[0].slots, ws)), ac);
    }
  }

  // ---------------------------------------------------------------- where the objects are

  /** How many objects `t`, or the first `n` objects in it, make. */
  function Size(t: Tree): (n: nat)
    ensures n >= 1
    decreases t, |t.kids| + 1
  {
    1 + if t.nested then Sizes(t, |t.kids|) else 0
  }

  function Sizes(t: Tree, n: nat): nat
    requires n <= |t.kids|
    decreases t, n
  {
    if n == 0 then 0 else Sizes(t, n - 1) + Size(t.kids[n - 1])
  }

  /** The position of object `k` in patcher `id`. */
  function KidAt(id: nat, t: Tree, k: nat): nat
    requires k <= |t.kids|
  {
    id + 1 + Sizes(t, k)
  }

  /** `w` only grew, and what it held before is untouched. */
  predicate Extends(w: World, w': World, more: nat) {
    |w'| == |w| + more && w'[..|w|] == w
  }

  lemma {:induction false} WiredExtends(base: nat, w: World, slots: map<int, nat>, ws: seq<Wire>)
    requires base <= |w| && forall k :: k in slots ==> slots[k] >= base
    ensures Wired(w, slots, ws)[..base] == w[..base]
  {
    if ws != [] {
      WiredExtends(base, w, slots, ws[..|ws| - 1]);
    }
  }

  lemma {:induction false} KidExtends(w: World, parent: nat, t: Tree)
    ensures Extends(w, BuildKid(w, parent, t), Size(t))
    decreases t, |t.kids| + 2
  {
    var w1 := w + [EntityOf(parent, t)];
    if t.nested {
      BodyExtends(w1, |w|, t);
      assert BuildKid(w, parent, t)[..|w|] == BuildKid(w, parent, t)[..|w1|][..|w|];
    }
  }

  lemma {:induction false} BodyExtends(w: World, id: nat, t: Tree)
    ensures Extends(w, BuildBody(w, id, t), Sizes(t, |t.kids|))
    decreases t, |t.kids| + 1
  {
    KidsExtend(w, id, t, |t.kids|);
    SlotsAre(w, id, t, |t.kids|);
    WiredExtends(|w|, BuildKids(w, id, t, |t.kids|), Slots(w, id, t, |t.kids|), Wires(t.kids, |t.kids|));
  }

  lemma {:induction false} KidsExtend(w: World, id: nat, t: Tree, n: nat)
    requires n <= |t.kids|
    ensures Extends(w, BuildKids(w, id, t, n), Sizes(t, n))
    decreases t, n
  {
    if n > 0 {
      KidsExtend(w, id, t, n - 1);
      var w1 := BuildKids(w, id, t, n - 1);
      KidExtends(w1, id, t.kids[n - 1]);
      assert BuildKids(w, id, t, n)[..|w|] == BuildKids(w, id, t, n)[..|w1|][..|w|];
    }
  }

  lemma {:induction false} SlotsAre(w: World, id: nat, t: Tree, n: nat)
    requires n <= |t.kids|
    ensures forall k :: k in Slots(w, id, t, n) <==> 0 <= k < n
    ensures forall k :: 0 <= k < n ==> Slots(w, id, t, n)[k] == |w| + Sizes(t, k)
    decreases t, n
  {
    if n > 0 {
      SlotsAre(w, id, t, n - 1);
      KidsExtend(w, id, t, n - 1);
    }
  }

  // ---------------------------------------------------------------- loading contents

  /** The machine while the contents of the patcher on top are loaded: `n` objects are made. */
  function Loading(m: Machine, t: Tree, n: nat): Machine
    requires m.objs != [] && n <= |t.kids|
  {
    Machine(m.eval, m.objs, [Table(|t.kids|, Slots(m.world, m.objs[0], t, n))] + m.tables,
            BuildKids(m.world, m.objs[0], t, n))
  }

  lemma {:induction false} RunsKid(m: Machine, t: Tree, idx: nat, ac: nat)
    requires m.objs != [] && m.tables != [] && idx < m.tables[0].size && Closed(t)
    ensures Reaches(m, KidOps(t, idx) + [PopObjs(1)],
                    Made(m, t, idx).(objs := m.objs, world := BuildKid(m.world, m.objs[0], t)), ac)
    decreases t, |t.kids| + 2
  {
    hide Reaches, ObjectOps, BodyOps, Do, EntityOf;
    var m1 := Made(m, t, idx);
    RunsObject(m, t, idx, ac);
    var m2 := m1.(world := BuildKid(m.world, m.objs[0], t));
    var body := if t.nested then BodyOps(t) else [];
    if t.nested {
      RunsBody(m1, t, ac);
    } else {
      Stays(m1, ac);
    }
    Then(m, ObjectOps(t, idx), m1, body, m2, ac);
    var m3 := m2.(objs := m.objs);
    PopsOne(m2, m3, ac);
    Then(m, KidOps(t, idx), m2, [PopObjs(1)], m3, ac);
  }

  lemma PopsOne(m: Machine, m': Machine, ac: nat)
    requires m.objs != [] && m' == m.(objs := m.objs[1..])
    ensures Reaches(m, [PopObjs(1)], m', ac)
  {
    Step(m, PopObjs(1), m', ac);
  }

  lemma {:induction false} RunsKids(m: Machine, t: Tree, n: nat, ac: nat)
    requires m.objs != [] && n <= |t.kids| && ClosedBody(t)
    ensures Reaches(Loading(m, t, 0), KidsOps(t, n), Loading(m, t, n), ac)
    decreases t, n
  {
    hide Reaches, KidOps, EntityOf;
    if n == 0 {
      Stays(Loading(m, t, 0), ac);
    } else {
      var kid := t.kids[n - 1];
      RunsKids(m, t, n - 1, ac);
      var m1, m2 := Loading(m, t, n - 1), Loading(m, t, n);
      RunsKid(m1, kid, n - 1, ac);
      Then(Loading(m, t, 0), KidsOps(t, n - 1), m1, KidOps(kid, n - 1) + [PopObjs(1)], m2, ac);
    }
  }

  /** Loading the contents of a patcher leaves all three stacks as they were. */
  lemma {:induction false} RunsBody(m: Machine, t: Tree, ac: nat)
    requires m.objs != [] && ClosedBody(t)
    ensures Reaches(m, BodyOps(t), m.(world := BuildBody(m.world, m.objs[0], t)), ac)
    decreases t, |t.kids| + 1
  {
    hide Reaches, KidsOps, WiresOps, Wired, Wires, BuildKids, Slots;
    var n, id := |t.kids|, m.objs[0];
    var m0, m1 := Loading(m, t, 0), Loading(m, t, n);
    OpensTable(m, t, ac);
    RunsKids(m, t, n, ac);
    Then(m, [PushObjTable(n)], m0, KidsOps(t, n), m1, ac);
    var ws := Wires(t.kids, n);
    WiresInTable(m.world, id, t);
    RunsWires(m1, ws, ac);
    var m2 := m1.(world := Wired(m1.world, m1.tables[0].slots, ws));
    Then(m, [PushObjTable(n)] + KidsOps(t, n), m1, WiresOps(ws), m2, ac);
    var m3 := m2.(tables := m.tables);
    assert m2.tables[1..] == m.tables;
    Step(m2, PopObjTable, m3, ac);
    Then(m, [PushObjTable(n)] + KidsOps(t, n) + WiresOps(ws), m2, [PopObjTable], m3, ac);
  }

  lemma OpensTable(m: Machine, t: Tree, ac: nat)
    requires m.objs != []
    ensures Reaches(m, [PushObjTable(|t.kids|)], Loading(m, t, 0), ac)
  {
    Step(m, PushObjTable(|t.kids|), Loading(m, t, 0), ac);
  }

  lemma {:induction false} ObjectWiresAre(i: nat, outs: seq<seq<Conn>>, n: nat)
    requires n <= |outs|
    ensures forall x :: x in ObjectWires(i, outs, n) ==> x.src == i && x.outlet < n && x.conn in outs[x.outlet]
  {
    if n > 0 {
      ObjectWiresAre(i, outs, n - 1);
    }
  }

  lemma {:induction false} WiresAre(kids: seq<Tree>, n: nat)
    requires n <= |kids|
    ensures forall x :: x in Wires(kids, n) ==>
              x.src < n && x.outlet < |kids[x.src].outs| && x.conn in kids[x.src].outs[x.outlet]
  {
    if n > 0 {
      WiresAre(kids, n - 1);
      ObjectWiresAre(n - 1, kids[n - 1].outs, |kids[n - 1].outs|);
    }
  }

  lemma WiresInTable(w: World, id: nat, t: Tree)
    requires ClosedBody(t)
    ensures InTable(Slots(w, id, t, |t.kids|), |BuildKids(w, id, t, |t.kids|)|, Wires(t.kids, |t.kids|))
  {
    var n := |t.kids|;
    SlotsAre(w, id, t, n);
    WiresAre(t.kids, n);
    KidsExtend(w, id, t, n);
    forall k: nat | k < n ensures Sizes(t, k) < Sizes(t, n) {
      SizesGrow(t, k, n);
    }
    var ws := Wires(t.kids, n);
    assert forall i :: 0 <= i < |ws| ==> ws[i] in ws;
  }

  lemma {:induction false} SizesGrow(t: Tree, k: nat, n: nat)
    requires k < n <= |t.kids|
    ensures Sizes(t, k) + Size(t.kids[k]) <= Sizes(t, n)
  {
    if k < n - 1 {
      SizesGrow(t, k, n - 1);
    }
  }

  // ---------------------------------------------------------------- patchers with too many objects

  /** A patcher of more than 32767 objects, or one that holds such a patcher. */
  predicate Oversize(t: Tree)
    decreases t, |t.kids| + 1
  {
    |t.kids| > 32767 || AnyOversize(t, |t.kids|)
  }

  /** Among the first `n` objects of `t`. */
  predicate AnyOversize(t: Tree, n: nat)
    requires n <= |t.kids|
    decreases t, n
  {
    n > 0 && (AnyOversize(t, n - 1) || (t.kids[n - 1].nested && Oversize(t.kids[n - 1])))
  }

  /** The machine when it returns from the contents of the patcher on top: the table just pushed is that of the first
      patcher with too many objects, which is on top. */
  function Halted(m: Machine, t: Tree): (m': Machine)
    requires m.objs != [] && Oversize(t)
    ensures m'.eval == m.eval && |m'.objs| >= |m.objs|
    decreases t, |t.kids| + 1
  {
    if |t.kids| > 32767 then Loading(m, t, 0) else HaltedAmong(m, t, |t.kids|)
  }

  function HaltedAmong(m: Machine, t: Tree, n: nat): (m': Machine)
    requires m.objs != [] && n <= |t.kids| && AnyOversize(t, n)
    ensures m'.eval == m.eval && |m'.objs| >= |m.objs|
    decreases t, n
  {
    if AnyOversize(t, n - 1) then HaltedAmong(m, t, n - 1)
    else Halted(Made(Loading(m, t, n - 1), t.kids[n - 1], n - 1), t.kids[n - 1])
  }

  /** Not all objects are made then. */
  lemma {:induction false} HaltedShort(m: Machine, t: Tree)
    requires m.objs != [] && Oversize(t)
    ensures |m.world| <= |Halted(m, t).world| < |BuildBody(m.world, m.objs[0], t)|
    decreases t, |t.kids| + 1
  {
    hide Made, Extends, Wired;
    BodyAdds(m.world, m.objs[0], t);
    if |t.kids| > 32767 {
      SizesGrow(t, 0, |t.kids|);
    } else {
      HaltedAmongShort(m, t, |t.kids|);
    }
  }

  lemma BodyAdds(w: World, id: nat, t: Tree)
    ensures |BuildBody(w, id, t)| == |w| + Sizes(t, |t.kids|) == |BuildKids(w, id, t, |t.kids|)|
  {
    BodyExtends(w, id, t);
    KidsExtend(w, id, t, |t.kids|);
  }

  lemma {:induction false} HaltedAmongShort(m: Machine, t: Tree, n: nat)
    requires m.objs != [] && n <= |t.kids| && AnyOversize(t, n)
    ensures |m.world| <= |HaltedAmong(m, t, n).world| < |BuildKids(m.world, m.objs[0], t, n)|
    decreases t, n
  {
    hide EntityOf, Oversize;
    var kid, w1 := t.kids[n - 1], BuildKids(m.world, m.objs[0], t, n - 1);
    KidsExtend(m.world, m.objs[0], t, n - 1);
    KidExtends(w1, m.objs[0], kid);
    if AnyOversize(t, n - 1) {
      HaltedAmongShort(m, t, n - 1);
    } else {
      HaltedShort(Made(Loading(m, t, n - 1), kid, n - 1), kid);
    }
  }

  ghost predicate NoTables(ops: seq<Op>) {
    forall i :: 0 <= i < |ops| ==> !ops[i].PushObjTable?
  }

  lemma {:induction false} NoTablesInAtoms(at: seq<Atom>)
    ensures NoTables(PushAtoms(at))
  {
    if at != [] {
      NoTablesInAtoms(at[1..]);
    }
  }

  lemma {:induction false} NoTablesInProps(prop: map<string, Atom>, names: seq<string>)
    ensures NoTables(PropsOps(prop, names))
  {
    if names != [] {
      NoTablesInProps(prop, names[..|names| - 1]);
      assert NoTables(PropOps(prop, names[|names| - 1]));
    }
  }

  lemma {:induction false} NoTablesInSends(ms: seq<Message>)
    ensures NoTables(SendsOps(ms))
  {
    if ms != [] {
      NoTablesInSends(ms[..|ms| - 1]);
      NoTablesInAtoms(ms[|ms| - 1].args);
      assert NoTables(SendOps(ms[|ms| - 1]));
    }
  }

  lemma NoTablesInObject(t: Tree, idx: nat)
    ensures NoTables(ObjectOps(t, idx))
  {
    hide PushAtoms, PropsOps, SendsOps, Messages;
    NoTablesInAtoms(t.desc);
    NoTablesInProps(t.prop, Names(t.patcher));
    NoTablesInSends(Messages(t));
  }

  lemma {:induction false} NoTablesInWires(ws: seq<Wire>)
    ensures NoTables(WiresOps(ws))
  {
    if ws != [] {
      NoTablesInWires(ws[..|ws| - 1]);
      assert NoTables(WireOps(ws[|ws| - 1]));
    }
  }

  lemma {:induction false} KidsOversizedIff(t: Tree, n: nat)
    requires n <= |t.kids|
    ensures HasOversized(KidsOps(t, n)) <==> AnyOversize(t, n)
    decreases t, n
  {
    hide ObjectOps, BodyOps, Oversize;
    if n > 0 {
      var kid := t.kids[n - 1];
      var made, pop := ObjectOps(kid, n - 1), [PopObjs(1)];
      var body := if kid.nested then BodyOps(kid) else [];
      KidsOversizedIff(t, n - 1);
      NoTablesInObject(kid, n - 1);
      if kid.nested {
        BodyOversizedIff(kid);
      }
      assert !HasOversized(made) && !HasOversized(pop) && (!kid.nested ==> !HasOversized(body));
      OversizedConcat(made, body);
      OversizedConcat(made + body, pop);
      OversizedConcat(KidsOps(t, n - 1), made + body + pop);
    }
  }

  /** The code of a patcher has a table that is misread exactly when some patcher is too large. */
  lemma {:induction false} BodyOversizedIff(t: Tree)
    ensures HasOversized(BodyOps(t)) <==> Oversize(t)
    decreases t, |t.kids| + 1
  {
    hide KidsOps, WiresOps, Wires;
    var n := |t.kids|;
    var wires := WiresOps(Wires(t.kids, n));
    KidsOversizedIff(t, n);
    NoTablesInWires(Wires(t.kids, n));
    assert !HasOversized(wires) && !HasOversized([PopObjTable]);
    assert HasOversized([PushObjTable(n)]) <==> n > 32767 by {
      assert [PushObjTable(n)][0] == PushObjTable(n);
    }
    OversizedConcat([PushObjTable(n)], KidsOps(t, n));
    OversizedConcat([PushObjTable(n)] + KidsOps(t, n), wires);
    OversizedConcat([PushObjTable(n)] + KidsOps(t, n) + wires, [PopObjTable]);
  }

  lemma OversizedConcat(a: seq<Op>, b: seq<Op>)
    ensures HasOversized(a + b) <==> HasOversized(a) || HasOversized(b)
  {
    var c := a + b;
    if i :| 0 <= i < |a| && Oversized(a[i]) {
      assert c[i] == a[i];
    }
    if i :| 0 <= i < |b| && Oversized(b[i]) {
      assert c[|a| + i] == b[i];
    }
    if i :| 0 <= i < |c| && Oversized(c[i]) {
      assert if i < |a| then c[i] == a[i] else c[i] == b[i - |a|];
    }
  }

  /** What runs after instructions that are all executed. */
  lemma ThenHalts(m: Machine, a: seq<Op>, m1: Machine, b: seq<Op>, m2: Machine, ac: nat)
    requires !HasOversized(a) && Reaches(m, a, m1, ac) && Reaches(m1, Executed(b), m2, ac)
    ensures Reaches(m, Executed(a + b), m2, ac)
  {
    hide Reaches, Executed;
    ExecutedConcat(a, b);
    Then(m, a, m1, Executed(b), m2, ac);
  }

  /** Loading the contents of such a patcher stops at the first patcher with too many objects. */
  lemma {:induction false} HaltsBody(m: Machine, t: Tree, ac: nat)
    requires m.objs != [] && ClosedBody(t) && Oversize(t)
    ensures Reaches(m, Executed(BodyOps(t)), Halted(m, t), ac)
    decreases t, |t.kids| + 1
  {
    hide Reaches, KidsOps, WiresOps, Wires, BuildKids, Slots, AnyOversize;
    var n := |t.kids|;
    var push, kids, rest := [PushObjTable(n)], KidsOps(t, n), WiresOps(Wires(t.kids, n)) + [PopObjTable];
    assert BodyOps(t) == push + (kids + rest);
    OpensTable(m, t, ac);
    if n > 32767 {
      assert BodyOps(t)[0] == push[0];
    } else {
      KidsOversizedIff(t, n);
      HaltsAmong(m, t, n, ac);
      ExecutedConcat(kids, rest);
      ThenHalts(m, push, Loading(m, t, 0), kids + rest, Halted(m, t), ac);
    }
  }

  lemma {:induction false} HaltsAmong(m: Machine, t: Tree, n: nat, ac: nat)
    requires m.objs != [] && n <= |t.kids| && ClosedBody(t) && AnyOversize(t, n)
    ensures Reaches(Loading(m, t, 0), Executed(KidsOps(t, n)), HaltedAmong(m, t, n), ac)
    decreases t, n
  {
    hide Reaches, ObjectOps, BodyOps, Oversize, Executed, EntityOf;
    var kid, m1 := t.kids[n - 1], Loading(m, t, n - 1);
    var first, made, pop := KidsOps(t, n - 1), ObjectOps(kid, n - 1), [PopObjs(1)];
    KidsOversizedIff(t, n - 1);
    ExecutedConcat(first, KidOps(kid, n - 1) + pop);
    if AnyOversize(t, n - 1) {
      HaltsAmong(m, t, n - 1, ac);
    } else {
      var m2, end := Made(m1, kid, n - 1), HaltedAmong(m, t, n);
      RunsKids(m, t, n - 1, ac);
      RunsObject(m1, kid, n - 1, ac);
      HaltsBody(m2, kid, ac);
      BodyOversizedIff(kid);
      ExecutedConcat(BodyOps(kid), pop);
      NoTablesInObject(kid, n - 1);
      assert !HasOversized(made) && made + BodyOps(kid) + pop == made + (BodyOps(kid) + pop);
      ThenHalts(m1, made, m2, BodyOps(kid) + pop, end, ac);
      ThenHalts(Loading(m, t, 0), first, m1, KidOps(kid, n - 1) + pop, end, ac);
    }
  }

  // ---------------------------------------------------------------- the whole file

  /** The top level patcher: made from the class name and the arguments the file is loaded with. */
  function TopEntity(parent: nat, t: Tree, args: seq<Value>): Entity {
    Entity(parent, [Sym("jpatcher")] + args, PutAll(Putting(map[], Sym("jpatcher")), t.prop, TOP_NAMES).props, [],
           map[])
  }

  function Load(w: World, parent: nat, t: Tree, args: seq<Value>): World {
    BuildBody(w + [TopEntity(parent, t, args)], |w|, t)
  }

  lemma RunsTop(m: Machine, t: Tree, args: seq<Value>)
    requires m.objs != [] && |args| <= |m.eval| && m.eval[..|args|] == args
    ensures Reaches(m, TopOps(t),
                    m.(world := m.world + [TopEntity(m.objs[0], t, args)], objs := [|m.world|] + m.objs), |args|)
  {
    hide Reaches, PropsOps, PutOne, PutAll;
    var ac, id, s := |args|, |m.world|, Sym("jpatcher");
    var m1 := m.(eval := [s] + m.eval);
    Step(m, PushSym("jpatcher"), m1, ac);
    assert m1.eval[..1 + ac] == [s] + args;
    var blank := Entity(m.objs[0], [s] + args, map[], [], map[]);
    var m2 := m1.(world := m.world + [blank], objs := [id] + m.objs);
    Step(m1, MakeTopObj(1), m2, ac);
    Then(m, [PushSym("jpatcher")], m1, [MakeTopObj(1)], m2, ac);
    assert [PushSym("jpatcher")] + [MakeTopObj(1)] == [PushSym("jpatcher"), MakeTopObj(1)];
    var ops, p := [PushSym("jpatcher"), MakeTopObj(1)], PutAll(Putting(map[], s), t.prop, TOP_NAMES);
    assert m2.world[id] == blank;
    RunsProps(m2, t.prop, TOP_NAMES, ac);
    var m3 := AfterPut(m2, p);
    Then(m, ops, m2, PropsOps(t.prop, TOP_NAMES), m3, ac);
    var m4 := m3.(eval := m.eval);
    assert m3.eval[1..] == m.eval && m3.world == m.world + [TopEntity(m.objs[0], t, args)];
    Step(m3, PopArgs(1), m4, ac);
    Then(m, ops + PropsOps(t.prop, TOP_NAMES), m3, [PopArgs(1)], m4, ac);
  }

  lemma RunsPatcher(m: Machine, t: Tree, args: seq<Value>)
    requires m.objs != [] && |args| <= |m.eval| && m.eval[..|args|] == args && ClosedBody(t)
    ensures Reaches(m, PatcherOps(t), m.(world := Load(m.world, m.objs[0], t, args), objs := [|m.world|] + m.objs),
                    |args|)
  {
    hide Reaches, BodyOps, TopOps, TopEntity;
    var m1 := m.(world := m.world + [TopEntity(m.objs[0], t, args)], objs := [|m.world|] + m.objs);
    RunsTop(m, t, args);
    RunsBody(m1, t, |args|);
    Then(m, TopOps(t), m1, BodyOps(t), m1.(world := BuildBody(m1.world, |m.world|, t)), |args|);
  }

  /** The machine once the top level patcher is made. */
  function WithTop(m: Machine, t: Tree, args: seq<Value>): Machine
    requires m.objs != []
  {
    m.(world := m.world + [TopEntity(m.objs[0], t, args)], objs := [|m.world|] + m.objs)
  }

  /** The machine when it returns from the code of a patcher. */
  function Finished(m: Machine, t: Tree, args: seq<Value>): (m': Machine)
    requires m.objs != []
    ensures m'.eval == m.eval && |m'.objs| >= 1 + |m.objs|
  {
    if Oversize(t) then Halted(WithTop(m, t, args), t)
    else m.(world := Load(m.world, m.objs[0], t, args), objs := [|m.world|] + m.objs)
  }

  lemma ExecutesPatcher(m: Machine, t: Tree, args: seq<Value>)
    requires m.objs != [] && |args| <= |m.eval| && m.eval[..|args|] == args && ClosedBody(t)
    ensures Reaches(m, Executed(PatcherOps(t)), Finished(m, t, args), |args|)
  {
    hide Reaches, BodyOps, TopOps, TopEntity, Oversize, Executed;
    NoTablesInTop(t);
    BodyOversizedIff(t);
    if Oversize(t) {
      RunsTop(m, t, args);
      HaltsBody(WithTop(m, t, args), t, |args|);
      ThenHalts(m, TopOps(t), WithTop(m, t, args), BodyOps(t), Finished(m, t, args), |args|);
    } else {
      RunsPatcher(m, t, args);
      OversizedConcat(TopOps(t), BodyOps(t));
      ExecutedAll(PatcherOps(t));
    }
  }

  lemma NoTablesInTop(t: Tree)
    ensures !HasOversized(TopOps(t))
  {
    hide PropsOps;
    NoTablesInProps(t.prop, TOP_NAMES);
    assert NoTables(TopOps(t));
  }

  /** Everything is loaded exactly when no patcher has more than 32767 objects. */
  lemma LoadedWholeIff(m: Machine, t: Tree, args: seq<Value>)
    requires m.objs != []
    ensures Finished(m, t, args).world == Load(m.world, m.objs[0], t, args) <==> !Oversize(t)
  {
    hide Oversize, Halted;
    if Oversize(t) {
      HaltedShort(WithTop(m, t, args), t);
    }
  }

  // ---------------------------------------------------------------- what can be written can be read

  /** The operand fits in 32 bits, and the size of a table in 16. */
  predicate Sound(op: Op) {
    match op
    case Return => false
    case PushObjTable(n) => 0 <= n < 0x1_0000
    case PushInt(i) => Fits32(i)
    case PushFloat(w) => Fits32(w)
    case SetInt(i) => Fits32(i)
    case SetFloat(w) => Fits32(w)
    case PopArgs(n) => Fits32(n)
    case PushObj(k) => Fits32(k)
    case MvObj(k) => Fits32(k)
    case PopObjs(n) => Fits32(n)
    case MakeObj(n) => Fits32(n)
    case MakeTopObj(n) => Fits32(n)
    case ObjMess(_, n) => Fits32(n)
    case _ => true
  }

  predicate Fits32(v: int) {
    -0x8000_0000 <= v < 0x8000_0000
  }

  ghost predicate AllSound(ops: seq<Op>) {
    forall i :: 0 <= i < |ops| ==> Sound(ops[i])
  }

  /** What the file format has room for: 65535 objects in a patcher, and 32-bit counts elsewhere. */
  ghost predicate Fits(t: Tree)
    decreases t
  {
    && |t.desc| < 0x8000_0000
    && (forall i :: 0 <= i < |Messages(t)| ==> |Messages(t)[i].args| < 0x8000_0000)
    && (t.nested ==> FitsBody(t))
  }

  ghost predicate FitsBody(t: Tree)
    decreases t, 0
  {
    && |t.kids| < 0x1_0000
    && (forall k :: 0 <= k < |t.kids| ==> Fits(t.kids[k]) && |t.kids[k].outs| < 0x8000_0000)
    && (forall k, o, c :: 0 <= k < |t.kids| && 0 <= o < |t.kids[k].outs| && c in t.kids[k].outs[o] ==> Fits32(c.inlet))
  }

  lemma {:induction false} SoundAtoms(at: seq<Atom>)
    ensures AllSound(PushAtoms(at))
  {
    if at != [] {
      SoundAtoms(at[1..]);
    }
  }

  lemma {:induction false} SoundProps(prop: map<string, Atom>, names: seq<string>)
    ensures AllSound(PropsOps(prop, names))
  {
    if names != [] {
      SoundProps(prop, names[..|names| - 1]);
      assert AllSound(PropOps(prop, names[|names| - 1]));
    }
  }

  lemma {:induction false} SoundSends(ms: seq<Message>)
    requires forall i :: 0 <= i < |ms| ==> |ms[i].args| < 0x8000_0000
    ensures AllSound(SendsOps(ms))
  {
    if ms != [] {
      SoundSends(ms[..|ms| - 1]);
      SoundAtoms(ms[|ms| - 1].args);
      assert AllSound(SendOps(ms[|ms| - 1]));
    }
  }

  lemma SoundObject(t: Tree, idx: nat)
    requires Fits(t) && idx < 0x8000_0000
    ensures AllSound(ObjectOps(t, idx))
  {
    SoundAtoms(t.desc);
    SoundProps(t.prop, Names(t.patcher));
    SoundSends(Messages(t));
    hide PushAtoms, PropsOps, SendsOps, Messages, Fits;
    assert AllSound([MakeObj(|t.desc|), MvObj(idx)]) && AllSound([PopArgs(Least1(|t.desc|))]);
    assert AllSound(if t.desc == [] then [PushInt(0)] else []);
  }

  lemma {:induction false} SoundWires(ws: seq<Wire>)
    requires forall x :: x in ws ==> Fits32(x.src) && Fits32(x.outlet) && Fits32(x.conn.dst) && Fits32(x.conn.inlet)
    ensures AllSound(WiresOps(ws))
  {
    if ws != [] {
      SoundWires(ws[..|ws| - 1]);
      assert ws[|ws| - 1] in ws && AllSound(WireOps(ws[|ws| - 1]));
    }
  }

  lemma SoundBodyWires(t: Tree)
    requires FitsBody(t) && ClosedBody(t)
    ensures |t.kids| < 0x1_0000 && AllSound(WiresOps(Wires(t.kids, |t.kids|)))
  {
    WiresAre(t.kids, |t.kids|);
    SoundWires(Wires(t.kids, |t.kids|));
  }

  lemma {:induction false} SoundKids(t: Tree, n: nat)
    requires FitsBody(t) && ClosedBody(t) && n <= |t.kids|
    ensures AllSound(KidsOps(t, n))
    decreases t, n
  {
    if n > 0 {
      SoundKids(t, n - 1);
      var kid := t.kids[n - 1];
      SoundObject(kid, n - 1);
      if kid.nested {
        SoundBody(kid);
      }
      hide ObjectOps, BodyOps, Fits, Closed;
      assert AllSound([PopObjs(1)]) && AllSound(KidOps(kid, n - 1));
    }
  }

  lemma {:induction false} SoundBody(t: Tree)
    requires FitsBody(t) && ClosedBody(t)
    ensures AllSound(BodyOps(t))
    decreases t, |t.kids| + 1
  {
    hide KidsOps, WiresOps, Wires, FitsBody, ClosedBody;
    var n := |t.kids|;
    SoundKids(t, n);
    SoundBodyWires(t);
    assert AllSound([PushObjTable(n)]) && AllSound([PopObjTable]);
  }

  lemma SoundPatcher(t: Tree)
    requires FitsBody(t) && ClosedBody(t)
    ensures AllSound(PatcherOps(t))
  {
    SoundProps(t.prop, TOP_NAMES);
    SoundBody(t);
    hide PropsOps, BodyOps, FitsBody, ClosedBody;
    assert AllSound([PushSym("jpatcher"), MakeTopObj(1)]) && AllSound([PopArgs(1)]);
  }

  lemma SoundIsReadable(symbols: seq<string>, op: Op)
    requires Sound(op) && (forall s :: Uses(op, s) ==> s in symbols) && |symbols| <= 0x8000_0000
    ensures ReadableOp(symbols, op)
  {
    if HasSymbol(op) {
      assert Uses(op, op.s);
    }
  }

  /** Saving a patcher and loading the file builds what `Load` says, returns the patcher, and leaves the stacks of the
      machine as they were, exactly when no patcher in it has more than 32767 objects.  Otherwise loading ends at the
      first that has, and returns it without its contents. */
  method SaveAndLoad(t: Tree, vm: VirtualMachine, parent: nat, args: seq<Value>) returns (obj: nat)
    requires ClosedBody(t) && FitsBody(t) && |PatcherOps(t)| < 0x8000_0000
    modifies vm
    ensures vm.world == Load(old(vm.world), parent, t, args) <==> !Oversize(t)
    ensures !Oversize(t) ==> obj == |old(vm.world)| && vm.objs == old(vm.objs) && vm.tables == old(vm.tables)
    ensures vm.eval == old(vm.eval)
    ensures Oversize(t) ==>
              var m := Machine(args + old(vm.eval), [parent] + old(vm.objs), old(vm.tables), old(vm.world));
              var end := Halted(WithTop(m, t, args), t);
              vm.State() == Returned(end, |args|) && obj == end.objs[0]
  {
    var f := SavePatcher(t);
    ghost var ops := PatcherOps(t);
    ghost var m := Machine(args + vm.eval, [parent] + vm.objs, vm.tables, vm.world);
    SoundPatcher(t);
    hide PatcherOps, Fits, FitsBody, Closed, ClosedBody, Sound, Halted, Oversize, Load, TopEntity;
    forall i | 0 <= i < |ops| ensures ReadableOp(f.symbols, ops[i]) {
      assert (ops + [Op.Return])[i] == ops[i];
      SoundIsReadable(f.symbols, ops[i]);
    }
    assert m.eval[..|args|] == args && m.eval[|args|..] == vm.eval;
    ExecutesPatcher(m, t, args);
    LoadedWholeIff(m, t, args);
    obj := vm.Run(parent, f.code, f.symbols, args, ops, Finished(m, t, args));
  }
}
