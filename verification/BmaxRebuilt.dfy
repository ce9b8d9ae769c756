/** Reading a loaded patcher back: the same objects in the same order, with the same properties and messages, and with
    every fan-out list reversed. */
module BmaxRebuilt {
  import opened Bytes
  import opened BmaxCode
  import opened BmaxMachine
  import opened BmaxPatcher
  import opened BmaxLoad

  // ---------------------------------------------------------------- what comes back of one object

  /** Atom `a` as it is loaded: ints, floats and symbols as they are, and 0 for any other atom. */
  predicate IsValue(v: Value, a: Atom) {
    match a
    case AInt(i) => v == Int(i)
    case AFloat(w) => v == Float(w)
    case ASym(s) => v == Sym(s)
    case Other => v == Int(0)
  }

  predicate AreValues(vs: seq<Value>, at: seq<Atom>) {
    |vs| == |at| && forall i :: 0 <= i < |at| ==> IsValue(vs[i], at[i])
  }

  predicate HasHeard(r: Received, msg: Message) {
    r.sel == msg.sel && AreValues(r.args, msg.args)
  }

  /** An object is sent its name, with a 1 behind a global one; then what it dumps for the editor; and if it is
      persistent the state it dumps, and a last message that makes it persistent again. */
  predicate MessagesBack(got: seq<Received>, t: Tree) {
    var a, g, n := if t.name == "" then 0 else 1, |t.gui|, |t.state|;
    && |got| == a + g + (if t.persistent then n + 1 else 0)
    && (t.name != "" ==> got[0] == Received("name", if t.global then [Sym(t.name), Int(1)] else [Sym(t.name)]))
    && (forall k :: 0 <= k < g ==> HasHeard(got[a + k], t.gui[k]))
    && (t.persistent ==>
          (forall k :: 0 <= k < n ==> HasHeard(got[a + g + k], t.state[k]))
          && got[a + g + n] == Received("persistence", [Int(1)]))
  }

  /** No property among those from `j` to `i` is set. */
  predicate NoneBetween(prop: map<string, Atom>, order: seq<string>, j: int, i: int)
    requires -1 <= j && i <= |order|
  {
    forall k :: j < k < i ==> order[k] !in prop
  }

  /** The properties that are set come back, in any of the places of `order`.  An atom that is no int, float or symbol
      comes back as the property set last before it, or as `first` if there is none. */
  ghost predicate PropertiesBack(props: map<string, Value>, prop: map<string, Atom>, order: seq<string>, first: Value) {
    && (forall name :: name in props <==> name in prop && name in order)
    && (forall name :: name in props && !prop[name].Other? ==> IsValue(props[name], prop[name]))
    && (forall i :: 0 <= i < |order| && order[i] in props && prop[order[i]].Other? ==>
          || (NoneBetween(prop, order, -1, i) && props[order[i]] == first)
          || (exists j :: 0 <= j < i && order[j] in props && NoneBetween(prop, order, j, i)
                          && props[order[i]] == props[order[j]]))
  }

  const KEPT := ["x", "y", "height", "width", "font", "fontSize", "fontStyle", "layer"]
  const KEPT_OF_PATCHER := KEPT + ["wx", "wy", "ww", "wh"]
  const KEPT_OF_TOP :=
    ["x", "y", "height", "width", "font", "fontSize", "fontStyle", "wx", "wy", "ww", "wh", "layer"]

  /** Object `e` is what loading `t` into `parent` should make, but for its connections. */
  ghost predicate Restored(e: Entity, parent: nat, t: Tree) {
    && e.parent == parent
    && AreValues(e.desc, t.desc)
    && PropertiesBack(e.props, t.prop, if t.patcher then KEPT_OF_PATCHER else KEPT,
                      if e.desc == [] then Int(0) else e.desc[0])
    && MessagesBack(e.got, t)
  }

  /** The top level patcher is made from the class name and the arguments of the load. */
  ghost predicate TopRestored(e: Entity, parent: nat, t: Tree, args: seq<Value>) {
    && e.parent == parent && e.desc == [Sym("jpatcher")] + args && e.got == [] && e.fan == map[]
    && PropertiesBack(e.props, t.prop, KEPT_OF_TOP, Sym("jpatcher"))
  }

  lemma ValuesAre(at: seq<Atom>)
    ensures AreValues(Values(at), at)
  {
  }

  lemma {:induction false} PutAllBack(p: Putting, prop: map<string, Atom>, names: seq<string>)
    requires p.props == map[] && Unlike(names)
    ensures PropertiesBack(PutAll(p, prop, names).props, prop, names, p.top)
  {
    var props := PutAll(p, prop, names).props;
    forall name ensures name in props <==> name in prop && name in names {
      PutAllNames(p, prop, names, name);
    }
    forall i | 0 <= i < |names| && names[i] in props
      ensures !prop[names[i]].Other? ==> IsValue(props[names[i]], prop[names[i]])
      ensures prop[names[i]].Other? ==>
                || (NoneBetween(prop, names, -1, i) && props[names[i]] == p.top)
                || (exists j :: 0 <= j < i && names[j] in props && NoneBetween(prop, names, j, i)
                                && props[names[i]] == props[names[j]])
    {
      PropertyRestored(p, prop, names, i);
      var j := LastPut(p, prop, names, i);
      if j >= 0 {
        PutAllNames(p, prop, names, names[j]);
      }
    }
  }

  lemma {:induction false} PutAllNames(p: Putting, prop: map<string, Atom>, names: seq<string>, name: string)
    requires p.props == map[]
    ensures name in PutAll(p, prop, names).props <==> name in prop && name in names
  {
    if names != [] {
      var init := names[..|names| - 1];
      PutAllNames(p, prop, init, name);
      assert name in names <==> name in init || name == names[|names| - 1];
    }
  }

  /** Before property `i` is put, the top of the stack is what was put last. */
  lemma {:induction false} LastPut(p: Putting, prop: map<string, Atom>, names: seq<string>, i: nat) returns (j: int)
    requires p.props == map[] && Unlike(names) && i <= |names|
    ensures -1 <= j < i && NoneBetween(prop, names, j, i)
    ensures j == -1 ==> PutAll(p, prop, names[..i]).top == p.top
    ensures j >= 0 ==> names[j] in prop && names[j] in PutAll(p, prop, names).props
                       && PutAll(p, prop, names).props[names[j]] == PutAll(p, prop, names[..i]).top
    decreases i
  {
    if i == 0 {
      j := -1;
    } else {
      assert names[..i][..i - 1] == names[..i - 1] && names[..i][i - 1] == names[i - 1];
      if names[i - 1] in prop {
        j := i - 1;
        PropertyRestored(p, prop, names, j);
      } else {
        j := LastPut(p, prop, names, i - 1);
      }
    }
  }

  lemma NamesDiffer()
    ensures Unlike(KEPT) && Unlike(KEPT_OF_PATCHER) && Unlike(KEPT_OF_TOP)
    ensures Names(false) == KEPT && Names(true) == KEPT_OF_PATCHER && TOP_NAMES == KEPT_OF_TOP
  {
  }

  /** What loading makes of an object has its description, its properties and its messages. */
  lemma EntityRestored(parent: nat, t: Tree)
    ensures Restored(EntityOf(parent, t), parent, t)
  {
    hide PutAll, PropertiesBack, MessagesBack, Unlike;
    var e := EntityOf(parent, t);
    NamesDiffer();
    ValuesAre(t.desc);
    PutAllBack(Putting(map[], First(t.desc)), t.prop, Names(t.patcher));
    MessagesHeard(t);
  }

  lemma ReceivedAre(ms: seq<Message>)
    ensures |Receive(ms)| == |ms| && forall k :: 0 <= k < |ms| ==> HasHeard(Receive(ms)[k], ms[k])
  {
    forall k | 0 <= k < |ms| ensures HasHeard(Receive(ms)[k], ms[k]) {
      ValuesAre(ms[k].args);
    }
  }

  /** The three parts of what an object is sent. */
  lemma MessageParts(t: Tree)
    ensures var ms, a, g, n := Messages(t), if t.name == "" then 0 else 1, |t.gui|, |t.state|;
            && |ms| == a + g + (if t.persistent then n + 1 else 0)
            && (t.name != "" ==> ms[0] == Message("name", [ASym(t.name)] + if t.global then [AInt(1)] else []))
            && (forall k :: 0 <= k < g ==> ms[a + k] == t.gui[k])
            && (t.persistent ==> (forall k :: 0 <= k < n ==> ms[a + g + k] == t.state[k])
                                 && ms[a + g + n] == Message("persistence", [AInt(1)]))
  {
  }

  lemma MessagesHeard(t: Tree)
    ensures MessagesBack(Receive(Messages(t)), t)
  {
    hide Receive, Messages, Values;
    ReceivedAre(Messages(t));
    MessageParts(t);
    var got, a, g, n := Receive(Messages(t)), if t.name == "" then 0 else 1, |t.gui|, |t.state|;
    if t.name != "" {
      NameHeard(got[0], t);
    }
    forall k | 0 <= k < g ensures HasHeard(got[a + k], t.gui[k]) {
      assert HasHeard(got[a + k], Messages(t)[a + k]);
    }
    if t.persistent {
      forall k | 0 <= k < n ensures HasHeard(got[a + g + k], t.state[k]) {
        assert HasHeard(got[a + g + k], Messages(t)[a + g + k]);
      }
      assert HasHeard(got[a + g + n], Messages(t)[a + g + n]);
      assert got[a + g + n].args == [Int(1)];
    }
  }

  lemma NameHeard(r: Received, t: Tree)
    requires HasHeard(r, Message("name", [ASym(t.name)] + if t.global then [AInt(1)] else []))
    ensures r == Received("name", if t.global then [Sym(t.name), Int(1)] else [Sym(t.name)])
  {
    var at := [ASym(t.name)] + if t.global then [AInt(1)] else [];
    assert IsValue(r.args[0], at[0]);
    if t.global {
      assert IsValue(r.args[1], at[1]);
      assert r.args == [Sym(t.name), Int(1)];
    } else {
      assert r.args == [Sym(t.name)];
    }
  }

  lemma TopIsRestored(parent: nat, t: Tree, args: seq<Value>)
    ensures TopRestored(TopEntity(parent, t, args), parent, t, args)
  {
    hide PutAll, PropertiesBack, Unlike;
    NamesDiffer();
    PutAllBack(Putting(map[], Sym("jpatcher")), t.prop, TOP_NAMES);
  }

  // ---------------------------------------------------------------- what comes back of a patcher

  function Bare(e: Entity): Entity {
    e.(fan := map[])
  }

  /** The fan-out list that connecting `cs` in order leaves in patcher `id`. */
  function Fanned(id: nat, t: Tree, cs: seq<Conn>): seq<Link>
    requires forall c :: c in cs ==> c.dst < |t.kids|
  {
    if cs == [] then []
    else
      var rest, c := Fanned(id, t, cs[..|cs| - 1]), cs[|cs| - 1];
      Prepended(rest, c.kind, Link(KidAt(id, t, c.dst), c.inlet))
  }

  lemma FannedNone(id: nat, t: Tree)
    ensures Fanned(id, t, []) == []
  {
  }

  function Prepended(rest: seq<Link>, kind: int, l: Link): seq<Link> {
    if kind <= HIDDEN || l in rest then rest else [l] + rest
  }

  /** The connections from outlet `o` of object `k`. */
  function OutletOf(t: Tree, k: nat, o: int): seq<Conn>
    requires k < |t.kids|
  {
    if 0 <= o < |t.kids[k].outs| then t.kids[k].outs[o] else []
  }

  /** Object `id` of `w` and everything in it is what loading `t` into `parent` should give. */
  ghost predicate Rebuilt(w: World, id: nat, parent: nat, t: Tree)
    requires Closed(t)
    decreases t, |t.kids| + 2
  {
    && id + Size(t) <= |w|
    && Restored(w[id], parent, t)
    && (t.nested ==> RebuiltBody(w, id, t))
  }

  /** The objects whose parent is `id` are those of `t`, in order, and connected as in `t`. */
  ghost predicate RebuiltBody(w: World, id: nat, t: Tree)
    requires ClosedBody(t)
    decreases t, |t.kids| + 1
  {
    && KidAt(id, t, |t.kids|) <= |w|
    && (forall k: nat :: k < |t.kids| ==> Rebuilt(w, KidAt(id, t, k), id, t.kids[k]))
    && (forall k: nat, o: int :: k < |t.kids| ==> FannedOut(w, id, t, k, o))
    && (forall j: nat :: id < j < KidAt(id, t, |t.kids|) ==> (w[j].parent == id <==> IsKid(id, t, j)))
  }

  ghost predicate FannedOut(w: World, id: nat, t: Tree, k: nat, o: int)
    requires ClosedBody(t) && k < |t.kids|
  {
    KidAt(id, t, k) < |w| && FanOf(w[KidAt(id, t, k)], o) == Fanned(id, t, OutletOf(t, k, o))
  }

  ghost predicate IsKid(id: nat, t: Tree, j: nat) {
    exists k: nat :: k < |t.kids| && j == KidAt(id, t, k)
  }

  // ---------------------------------------------------------------- frames

  /** `w'` agrees with `w` on everything in object `id`, and on the object itself but for its own connections. */
  predicate Agree(w: World, w': World, id: nat, size: nat) {
    && 1 <= size && id + size <= |w| && id + size <= |w'|
    && Bare(w'[id]) == Bare(w[id])
    && forall j :: id < j < id + size ==> w'[j] == w[j]
  }

  lemma {:induction false} RebuiltFrame(w: World, w': World, id: nat, parent: nat, t: Tree)
    requires Closed(t) && Rebuilt(w, id, parent, t) && Agree(w, w', id, Size(t))
    ensures Rebuilt(w', id, parent, t)
    decreases t, |t.kids| + 2
  {
    if t.nested {
      BodyFrame(w, w', id, t);
    }
  }

  lemma {:induction false} BodyFrame(w: World, w': World, id: nat, t: Tree)
    requires ClosedBody(t) && RebuiltBody(w, id, t) && KidAt(id, t, |t.kids|) <= |w'|
    requires forall j :: id < j < KidAt(id, t, |t.kids|) ==> w'[j] == w[j]
    ensures RebuiltBody(w', id, t)
    decreases t, |t.kids| + 1
  {
    hide Rebuilt, Fanned, Restored;
    var n := |t.kids|;
    forall k: nat | k < n ensures Rebuilt(w', KidAt(id, t, k), id, t.kids[k]) {
      SizesGrow(t, k, n);
      RebuiltFrame(w, w', KidAt(id, t, k), id, t.kids[k]);
    }
    forall k: nat, o: int | k < n ensures FannedOut(w', id, t, k, o) {
      assert FannedOut(w, id, t, k, o);
      SizesGrow(t, k, n);
    }
  }

  /** Everything inside an object has its parent there too. */
  lemma {:induction false} ParentsInside(w: World, id: nat, parent: nat, t: Tree, j: nat)
    requires Closed(t) && Rebuilt(w, id, parent, t) && id < j < id + Size(t)
    ensures w[j].parent >= id
    decreases t
  {
    var k := KidHolding(id, t, |t.kids|, j);
    var at := KidAt(id, t, k);
    assert Rebuilt(w, at, id, t.kids[k]);
    if j == at {
      assert Bare(w[j]).parent == id;
    } else {
      ParentsInside(w, at, id, t.kids[k], j);
    }
  }

  /** The object of the patcher that position `j` falls into. */
  lemma {:induction false} KidHolding(id: nat, t: Tree, n: nat, j: nat) returns (k: nat)
    requires n <= |t.kids| && id < j < KidAt(id, t, n)
    ensures k < n && KidAt(id, t, k) <= j < KidAt(id, t, k) + Size(t.kids[k])
  {
    if j >= KidAt(id, t, n - 1) {
      k := n - 1;
    } else {
      k := KidHolding(id, t, n - 1, j);
    }
  }

  lemma KidsApart(id: nat, t: Tree, k: nat, j: nat)
    requires k < |t.kids| && j <= |t.kids| && k != j
    ensures KidAt(id, t, k) != KidAt(id, t, j)
    ensures k < j ==> KidAt(id, t, k) + Size(t.kids[k]) <= KidAt(id, t, j)
  {
    if k < j {
      SizesGrow(t, k, j);
    } else {
      SizesGrow(t, j, k);
    }
  }

  // ---------------------------------------------------------------- connecting

  /** Connecting changes nothing but the fan-out lists of the objects in the table. */
  lemma {:induction false} WiredFrame(w: World, slots: map<int, nat>, ws: seq<Wire>, j: nat)
    requires j < |w|
    ensures Bare(Wired(w, slots, ws)[j]) == Bare(w[j])
    ensures (forall k :: k in slots ==> slots[k] != j) ==> Wired(w, slots, ws)[j] == w[j]
  {
    if ws != [] {
      WiredFrame(w, slots, ws[..|ws| - 1], j);
    }
  }

  /** The list of outlet `o` of object `k`, starting from `acc`, after `ws` are connected. */
  function Heard(acc: seq<Link>, slots: map<int, nat>, ws: seq<Wire>, k: nat, o: int): seq<Link>
    requires forall x :: x in ws ==> x.conn.dst in slots
  {
    if ws == [] then acc
    else
      var rest, x := Heard(acc, slots, ws[..|ws| - 1], k, o), ws[|ws| - 1];
      if x.src == k && x.outlet == o then Prepended(rest, x.conn.kind, Link(slots[x.conn.dst], x.conn.inlet)) else rest
  }

  lemma {:induction false} WiredFan(w: World, slots: map<int, nat>, ws: seq<Wire>, k: nat, o: int)
    requires InTable(slots, |w|, ws) && k in slots && slots[k] < |w|
    requires forall i, j :: i in slots && j in slots && i != j ==> slots[i] != slots[j]
    ensures forall x :: x in ws ==> x.conn.dst in slots
    ensures FanOf(Wired(w, slots, ws)[slots[k]], o) == Heard(FanOf(w[slots[k]], o), slots, ws, k, o)
  {
    if ws != [] {
      WiredFan(w, slots, ws[..|ws| - 1], k, o);
    }
  }

  lemma {:induction false} HeardAppend(acc: seq<Link>, slots: map<int, nat>, a: seq<Wire>, b: seq<Wire>, k: nat, o: int)
    requires forall x :: x in a + b ==> x.conn.dst in slots
    ensures (forall x :: x in a ==> x.conn.dst in slots) && (forall x :: x in b ==> x.conn.dst in slots)
    ensures Heard(acc, slots, a + b, k, o) == Heard(Heard(acc, slots, a, k, o), slots, b, k, o)
  {
    assert forall x :: x in a ==> x in a + b;
    assert forall x :: x in b ==> x in a + b;
    if b == [] {
      assert a + b == a;
    } else {
      var init := b[..|b| - 1];
      assert (a + b)[..|a + b| - 1] == a + init;
      HeardAppend(acc, slots, a, init, k, o);
    }
  }

  lemma {:induction false} HeardNothing(acc: seq<Link>, slots: map<int, nat>, ws: seq<Wire>, k: nat, o: int)
    requires forall x :: x in ws ==> x.conn.dst in slots
    requires forall x :: x in ws ==> x.src != k || x.outlet != o
    ensures Heard(acc, slots, ws, k, o) == acc
  {
    if ws != [] {
      HeardNothing(acc, slots, ws[..|ws| - 1], k, o);
      assert ws[|ws| - 1] in ws;
    }
  }

  lemma {:induction false} HeardOutlet(slots: map<int, nat>, id: nat, t: Tree, k: nat, o: nat, cs: seq<Conn>)
    requires forall c :: c in cs ==> c.dst < |t.kids| && c.dst in slots && slots[c.dst] == KidAt(id, t, c.dst)
    ensures forall x :: x in OutletWires(k, o, cs) ==> x.conn.dst in slots
    ensures Heard([], slots, OutletWires(k, o, cs), k, o) == Fanned(id, t, cs)
  {
    forall x | x in OutletWires(k, o, cs) ensures x.conn.dst in slots {
      assert x.conn in cs;
    }
    if cs != [] {
      var init := cs[..|cs| - 1];
      HeardOutlet(slots, id, t, k, o, init);
      assert OutletWires(k, o, cs)[..|cs| - 1] == OutletWires(k, o, init);
      assert cs[|cs| - 1] in cs;
    }
  }

  lemma OutletWiresAre(i: nat, o: nat, cs: seq<Conn>)
    ensures forall x :: x in OutletWires(i, o, cs) ==> x.src == i && x.outlet == o && x.conn in cs
  {
  }

  lemma {:induction false} HeardObject(slots: map<int, nat>, id: nat, t: Tree, k: nat, o: int, n: nat)
    requires ClosedBody(t) && k < |t.kids| && n <= |t.kids[k].outs|
    requires forall j :: 0 <= j < |t.kids| ==> j in slots && slots[j] == KidAt(id, t, j)
    ensures forall x :: x in ObjectWires(k, t.kids[k].outs, n) ==> x.conn.dst in slots
    ensures Heard([], slots, ObjectWires(k, t.kids[k].outs, n), k, o) ==
            if 0 <= o < n then Fanned(id, t, t.kids[k].outs[o]) else []
  {
    hide Heard, Fanned, OutletWires, Closed;
    var outs := t.kids[k].outs;
    ObjectWiresAre(k, outs, n);
    if n == 0 {
      HeardNothing([], slots, [], k, o);
    } else {
      var a, b := ObjectWires(k, outs, n - 1), OutletWires(k, n - 1, outs[n - 1]);
      HeardObject(slots, id, t, k, o, n - 1);
      HeardAppend([], slots, a, b, k, o);
      ObjectWiresAre(k, outs, n - 1);
      OutletWiresAre(k, n - 1, outs[n - 1]);
      if o == n - 1 {
        HeardNothing([], slots, a, k, o);
        HeardOutlet(slots, id, t, k, n - 1, outs[n - 1]);
      } else {
        HeardNothing(Heard([], slots, a, k, o), slots, b, k, o);
      }
    }
  }

  lemma {:induction false} HeardAll(slots: map<int, nat>, id: nat, t: Tree, k: nat, o: int, n: nat)
    requires ClosedBody(t) && k < |t.kids| && n <= |t.kids|
    requires forall j :: 0 <= j < |t.kids| ==> j in slots && slots[j] == KidAt(id, t, j)
    ensures forall x :: x in Wires(t.kids, n) ==> x.conn.dst in slots
    ensures Heard([], slots, Wires(t.kids, n), k, o) == if k < n then Fanned(id, t, OutletOf(t, k, o)) else []
  {
    hide Heard, Fanned, ObjectWires, Closed;
    WiresAre(t.kids, n);
    FannedNone(id, t);
    if n == 0 {
      HeardNothing([], slots, [], k, o);
    } else {
      var outs := t.kids[n - 1].outs;
      var a, b := Wires(t.kids, n - 1), ObjectWires(n - 1, outs, |outs|);
      HeardAll(slots, id, t, k, o, n - 1);
      HeardAppend([], slots, a, b, k, o);
      WiresAre(t.kids, n - 1);
      ObjectWiresAre(n - 1, outs, |outs|);
      if k == n - 1 {
        HeardNothing([], slots, a, k, o);
        HeardObject(slots, id, t, k, o, |outs|);
      } else {
        HeardNothing(Heard([], slots, a, k, o), slots, b, k, o);
      }
    }
  }

  // ---------------------------------------------------------------- loading rebuilds

  /** Every loaded object or nested patcher reads back as what was saved. */
  lemma {:induction false} KidRebuilt(w: World, parent: nat, t: Tree)
    requires Closed(t)
    ensures Rebuilt(BuildKid(w, parent, t), |w|, parent, t)
    ensures BuildKid(w, parent, t)[|w|] == EntityOf(parent, t)
    decreases t, |t.kids| + 2
  {
    hide EntityOf, BuildBody, RebuiltBody, ClosedBody;
    var w1 := w + [EntityOf(parent, t)];
    KidExtends(w, parent, t);
    if t.nested {
      BodyExtends(w1, |w|, t);
      assert BuildKid(w, parent, t)[|w|] == BuildKid(w, parent, t)[..|w1|][|w|];
      BodyRebuilt(w1, |w|, t);
    }
    EntityRestored(parent, t);
  }

  lemma NewHasNoFan(parent: nat, t: Tree)
    ensures EntityOf(parent, t).fan == map[]
  {
  }

  /** The first `n` objects are loaded and not yet connected. */
  ghost predicate Unconnected(w: World, id: nat, t: Tree, n: nat)
    requires ClosedBody(t) && n <= |t.kids|
  {
    forall k: nat :: k < n ==> Rebuilt(w, KidAt(id, t, k), id, t.kids[k]) && w[KidAt(id, t, k)].fan == map[]
  }

  lemma KidsKept(w: World, w': World, id: nat, t: Tree, n: nat, more: nat)
    requires ClosedBody(t) && n <= |t.kids| && |w| == KidAt(id, t, n) && Unconnected(w, id, t, n)
    requires Extends(w, w', more)
    ensures Unconnected(w', id, t, n)
  {
    hide EntityOf, RebuiltBody, Closed;
    assert forall j :: 0 <= j < |w| ==> w'[j] == w'[..|w|][j];
    forall k: nat | k < n ensures Rebuilt(w', KidAt(id, t, k), id, t.kids[k]) && w'[KidAt(id, t, k)].fan == map[] {
      SizesGrow(t, k, n);
      assert Rebuilt(w, KidAt(id, t, k), id, t.kids[k]);
      RebuiltFrame(w, w', KidAt(id, t, k), id, t.kids[k]);
    }
  }

  lemma OneMore(w: World, id: nat, t: Tree, n: nat)
    requires ClosedBody(t) && n < |t.kids| && Unconnected(w, id, t, n)
    requires Rebuilt(w, KidAt(id, t, n), id, t.kids[n]) && w[KidAt(id, t, n)] == EntityOf(id, t.kids[n])
    ensures Unconnected(w, id, t, n + 1)
  {
    hide EntityOf, RebuiltBody, Closed, Restored, Rebuilt;
    NewHasNoFan(id, t.kids[n]);
  }

  lemma NoneYet(w: World, id: nat, t: Tree)
    requires ClosedBody(t)
    ensures Unconnected(w, id, t, 0)
  {
  }

  lemma GrownBy(w: World, w': World, more: nat)
    requires Extends(w, w', more)
    ensures |w'| == |w| + more
  {
  }

  lemma {:induction false} KidsRebuilt(w: World, id: nat, t: Tree, n: nat)
    requires ClosedBody(t) && n <= |t.kids| && |w| == id + 1
    ensures Unconnected(BuildKids(w, id, t, n), id, t, n)
    decreases t, n
  {
    hide EntityOf, Rebuilt, Closed, BuildKid, Unconnected, Extends;
    KidsExtend(w, id, t, n);
    if n == 0 {
      NoneYet(w, id, t);
    } else {
      var w0, w1, kid := BuildKids(w, id, t, n - 1), BuildKids(w, id, t, n), t.kids[n - 1];
      KidsRebuilt(w, id, t, n - 1);
      KidsExtend(w, id, t, n - 1);
      GrownBy(w, w0, Sizes(t, n - 1));
      KidRebuilt(w0, id, kid);
      KidExtends(w0, id, kid);
      KidsKept(w0, w1, id, t, n - 1, Size(kid));
      OneMore(w1, id, t, n - 1);
    }
  }

  lemma {:induction false} BodyRebuilt(w: World, id: nat, t: Tree)
    requires ClosedBody(t) && |w| == id + 1
    ensures RebuiltBody(BuildBody(w, id, t), id, t)
    decreases t, |t.kids| + 1
  {
    hide Rebuilt, FannedOut, IsKid, Wired, Wires, BuildKids;
    var n := |t.kids|;
    var w1, w2 := BuildKids(w, id, t, n), BuildBody(w, id, t);
    BodyExtends(w, id, t);
    KidsRebuilt(w, id, t, n);
    forall k: nat | k < n ensures Rebuilt(w2, KidAt(id, t, k), id, t.kids[k]) {
      KidStaysRebuilt(w, id, t, k);
    }
    forall k: nat, o: int | k < n ensures FannedOut(w2, id, t, k, o) {
      KidFannedOut(w, id, t, k, o);
    }
    forall j: nat | id < j < KidAt(id, t, n) ensures w2[j].parent == id <==> IsKid(id, t, j) {
      KidsByParent(w2, id, t, j);
    }
  }

  lemma KidStaysRebuilt(w: World, id: nat, t: Tree, k: nat)
    requires ClosedBody(t) && |w| == id + 1 && k < |t.kids|
    requires Unconnected(BuildKids(w, id, t, |t.kids|), id, t, |t.kids|)
    ensures Rebuilt(BuildBody(w, id, t), KidAt(id, t, k), id, t.kids[k])
  {
    hide Wires, BuildKids, EntityOf, RebuiltBody, Wired, Slots;
    var n, at, kid := |t.kids|, KidAt(id, t, k), t.kids[k];
    var w1, w2, slots := BuildKids(w, id, t, n), BuildBody(w, id, t), Slots(w, id, t, n);
    assert Rebuilt(w1, at, id, kid);
    SlotsAre(w, id, t, n);
    WiredFrame(w1, slots, Wires(t.kids, n), at);
    forall j | at < j < at + Size(kid) ensures w2[j] == w1[j] {
      forall i | i in slots ensures slots[i] != j {
        if i != k {
          KidsApart(id, t, if i < k then i else k, if i < k then k else i);
        }
      }
      WiredFrame(w1, slots, Wires(t.kids, n), j);
    }
    RebuiltFrame(w1, w2, at, id, kid);
  }

  lemma KidFannedOut(w: World, id: nat, t: Tree, k: nat, o: int)
    requires ClosedBody(t) && |w| == id + 1 && k < |t.kids|
    requires Unconnected(BuildKids(w, id, t, |t.kids|), id, t, |t.kids|)
    ensures FannedOut(BuildBody(w, id, t), id, t, k, o)
  {
    hide Wires, BuildKids, EntityOf, RebuiltBody, Wired, Slots;
    var n := |t.kids|;
    var w1, slots, ws := BuildKids(w, id, t, n), Slots(w, id, t, n), Wires(t.kids, n);
    SlotsAre(w, id, t, n);
    WiresInTable(w, id, t);
    assert Rebuilt(w1, KidAt(id, t, k), id, t.kids[k]);
    forall i, j | i in slots && j in slots && i != j ensures slots[i] != slots[j] {
      KidsApart(id, t, i, j);
    }
    WiredFan(w1, slots, ws, k, o);
    HeardAll(slots, id, t, k, o, n);
  }

  lemma KidsByParent(w: World, id: nat, t: Tree, j: nat)
    requires ClosedBody(t) && id < j < KidAt(id, t, |t.kids|) <= |w|
    requires forall k: nat :: k < |t.kids| ==> Rebuilt(w, KidAt(id, t, k), id, t.kids[k])
    ensures w[j].parent == id <==> IsKid(id, t, j)
  {
    hide EntityOf, RebuiltBody, Closed;
    var k := KidHolding(id, t, |t.kids|, j);
    var at := KidAt(id, t, k);
    assert Rebuilt(w, at, id, t.kids[k]);
    if j == at {
      assert Bare(w[j]).parent == id by { ParentOf(id, t.kids[k]); }
      assert IsKid(id, t, j);
    } else {
      ParentsInside(w, at, id, t.kids[k], j);
      forall i: nat | i < |t.kids| ensures j != KidAt(id, t, i) {
        if i < k {
          KidsApart(id, t, i, k);
        } else if k < i {
          KidsApart(id, t, k, i);
        }
      }
    }
  }

  lemma ParentOf(parent: nat, t: Tree)
    ensures EntityOf(parent, t).parent == parent
  {
  }

  /** Loading a saved patcher rebuilds it: the patcher itself, its contents at every depth, and nothing else changes. */
  lemma LoadRebuilds(w: World, parent: nat, t: Tree, args: seq<Value>)
    requires ClosedBody(t)
    ensures var w' := Load(w, parent, t, args);
            && |w'| == |w| + 1 + Sizes(t, |t.kids|) && w'[..|w|] == w
            && TopRestored(w'[|w|], parent, t, args) && RebuiltBody(w', |w|, t)
  {
    hide BuildBody, RebuiltBody, TopEntity, TopRestored;
    TopIsRestored(parent, t, args);
    var w1 := w + [TopEntity(parent, t, args)];
    BodyExtends(w1, |w|, t);
    BodyRebuilt(w1, |w|, t);
    var w' := Load(w, parent, t, args);
    assert w'[|w|] == w'[..|w1|][|w|];
    assert w'[..|w|] == w'[..|w1|][..|w|];
  }

  // ---------------------------------------------------------------- what reading back gives

  /** Connections of kinds above -2, which is that of hidden ones. */
  function Visible(cs: seq<Conn>): seq<Conn> {
    if cs == [] then []
    else Visible(cs[..|cs| - 1]) + if cs[|cs| - 1].kind > -2 then [cs[|cs| - 1]] else []
  }

  /** No two visible connections of an outlet end at the same inlet. */
  predicate Single(cs: seq<Conn>) {
    forall i, j :: 0 <= i < j < |Visible(cs)| ==>
      Visible(cs)[i].dst != Visible(cs)[j].dst || Visible(cs)[i].inlet != Visible(cs)[j].inlet
  }

  /** A rebuilt fan-out list is the list of visible connections, reversed. */
  lemma {:induction false} FanIsReversed(id: nat, t: Tree, cs: seq<Conn>)
    requires (forall c :: c in cs ==> c.dst < |t.kids|) && Single(cs)
    ensures forall c :: c in Visible(cs) ==> c in cs
    ensures |Fanned(id, t, cs)| == |Visible(cs)|
    ensures forall i :: 0 <= i < |Visible(cs)| ==>
              var c := Visible(cs)[|Visible(cs)| - 1 - i]; Fanned(id, t, cs)[i] == Link(KidAt(id, t, c.dst), c.inlet)
  {
    if cs != [] {
      var init, c := cs[..|cs| - 1], cs[|cs| - 1];
      var v, v0 := Visible(cs), Visible(init);
      assert forall i :: 0 <= i < |v0| ==> v[i] == v0[i];
      FanIsReversed(id, t, init);
      var rest, l := Fanned(id, t, init), Link(KidAt(id, t, c.dst), c.inlet);
      if c.kind > HIDDEN {
        assert v[|v| - 1] == c;
        forall i | 0 <= i < |rest| ensures rest[i] != l {
          var d := v0[|v0| - 1 - i];
          assert v[|v0| - 1 - i] == d && d in init;
          if d.dst != c.dst {
            KidsApart(id, t, d.dst, c.dst);
          }
        }
      }
    }
  }

  predicate Unlike(names: seq<string>) {
    forall i, j :: 0 <= i < j < |names| ==> names[i] != names[j]
  }

  /** A saved property that is an int, a float or a symbol comes back as it was, one that is absent stays absent, and
      any other atom comes back as the last value put before it, or else as the first argument. */
  lemma {:induction false} PropertyRestored(p: Putting, prop: map<string, Atom>, names: seq<string>, i: nat)
    requires Unlike(names) && i < |names|
    ensures names[i] in prop ==> names[i] in PutAll(p, prop, names).props
    ensures names[i] in prop && !prop[names[i]].Other? ==>
            PutAll(p, prop, names).props[names[i]] == ValueOf(prop[names[i]])
    ensures names[i] in prop && prop[names[i]].Other? ==>
            PutAll(p, prop, names).props[names[i]] == PutAll(p, prop, names[..i]).top
    ensures names[i] !in prop && names[i] !in p.props ==> names[i] !in PutAll(p, prop, names).props
    decreases |names|
  {
    var n := |names| - 1;
    var init := names[..n];
    if i < n {
      PropertyRestored(p, prop, init, i);
      assert init[..i] == names[..i];
    } else {
      AbsentProperty(p, prop, init, names[i]);
    }
  }

  lemma {:induction false} AbsentProperty(p: Putting, prop: map<string, Atom>, names: seq<string>, name: string)
    requires name !in names
    ensures name in PutAll(p, prop, names).props ==> name in p.props
  {
    if names != [] {
      AbsentProperty(p, prop, names[..|names| - 1], name);
    }
  }
}
