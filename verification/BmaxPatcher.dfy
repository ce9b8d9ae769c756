/** Saving a patcher as bmax code, and what loading that code builds. */
module BmaxPatcher {
  import opened Bytes
  import opened BmaxCode
  import opened BmaxMachine

  /** `Other` is any atom that is not an int, a float or a symbol. */
  datatype Atom = AInt(i: int32) | AFloat(w: int32) | ASym(s: string) | Other

  datatype Message = Message(sel: string, args: seq<Atom>)

  /** A connection to inlet `inlet` of the sibling at position `dst`. */
  datatype Conn = Conn(dst: nat, inlet: int, kind: int)

  /** `fts_c_hidden`: connections of this kind and below are not saved. */
  const HIDDEN := -2

  /** A patcher or an object in it.  `prop` are its properties; `messages` what it is sent after it is made: its name,
      what it dumps of its own, and its persistence.  Only a `nested` patcher is saved with its `kids`, whose
      connections are in `outs`, outlet by outlet. */
  datatype Tree = Tree(desc: seq<Atom>, prop: map<string, Atom>, patcher: bool, nested: bool,
                       name: string, global: bool, gui: seq<Message>, persistent: bool, state: seq<Message>,
                       kids: seq<Tree>, outs: seq<seq<Conn>>)

  const COMMON := ["x", "y", "height", "width", "font", "fontSize", "fontStyle"]
  const WINDOW := ["wx", "wy", "ww", "wh"]

  function Names(patcher: bool): seq<string> {
    COMMON + ["layer"] + if patcher then WINDOW else []
  }

  const TOP_NAMES := COMMON + WINDOW + ["layer"]

  // ---------------------------------------------------------------- the code

  function PushAtom(a: Atom): Op {
    match a
    case AInt(i) => PushInt(i)
    case AFloat(w) => PushFloat(w)
    case ASym(s) => PushSym(s)
    case Other => PushInt(0)
  }

  /** Arguments are pushed backward. */
  function PushAtoms(at: seq<Atom>): seq<Op> {
    if at == [] then [] else PushAtoms(at[1..]) + [PushAtom(at[0])]
  }

  function SetAtom(a: Atom): seq<Op> {
    match a
    case AInt(i) => [SetInt(i)]
    case AFloat(w) => [SetFloat(w)]
    case ASym(s) => [SetSym(s)]
    case Other => []
  }

  function PropOps(prop: map<string, Atom>, name: string): seq<Op> {
    if name in prop then SetAtom(prop[name]) + [PutProp(name)] else []
  }

  function PropsOps(prop: map<string, Atom>, names: seq<string>): seq<Op> {
    if names == [] then [] else PropsOps(prop, names[..|names| - 1]) + PropOps(prop, names[|names| - 1])
  }

  function SendOps(msg: Message): seq<Op> {
    PushAtoms(msg.args) + [ObjMess(msg.sel, |msg.args|), PopArgs(|msg.args|)]
  }

  function SendsOps(ms: seq<Message>): seq<Op> {
    if ms == [] then [] else SendsOps(ms[..|ms| - 1]) + SendOps(ms[|ms| - 1])
  }

  /** Everything an object is sent after it is made, in order. */
  function Messages(t: Tree): seq<Message> {
    (if t.name == "" then [] else [Message("name", [ASym(t.name)] + if t.global then [AInt(1)] else [])]) +
    t.gui +
    (if t.persistent then t.state + [Message("persistence", [AInt(1)])] else [])
  }

  function Least1(n: nat): nat {
    if n == 0 then 1 else n
  }

  /** `fts_bmax_code_new_object` */
  function ObjectOps(t: Tree, idx: nat): seq<Op> {
    PushAtoms(t.desc) + [MakeObj(|t.desc|), MvObj(idx)] + (if t.desc == [] then [PushInt(0)] else []) +
    PropsOps(t.prop, Names(t.patcher)) + [PopArgs(Least1(|t.desc|))] + SendsOps(Messages(t))
  }

  /** `fts_bmax_code_new_top_object` */
  function TopOps(t: Tree): seq<Op> {
    [PushSym("jpatcher"), MakeTopObj(1)] + PropsOps(t.prop, TOP_NAMES) + [PopArgs(1)]
  }

  datatype Wire = Wire(src: nat, outlet: nat, conn: Conn)

  /** `fts_bmax_code_new_connection` */
  function WireOps(w: Wire): seq<Op> {
    if w.conn.kind <= HIDDEN then []
    else [PushInt(w.conn.inlet), PushInt(w.outlet), PushObj(w.conn.dst), PushObj(w.src), Connect, PopArgs(2),
          PopObjs(2)]
  }

  function WiresOps(ws: seq<Wire>): seq<Op> {
    if ws == [] then [] else WiresOps(ws[..|ws| - 1]) + WireOps(ws[|ws| - 1])
  }

  /** The connections of an outlet, of the first `n` outlets of an object, and of the first `n` objects. */
  function OutletWires(i: nat, o: nat, cs: seq<Conn>): seq<Wire> {
    seq(|cs|, k requires 0 <= k < |cs| => Wire(i, o, cs[k]))
  }

  function ObjectWires(i: nat, outs: seq<seq<Conn>>, n: nat): seq<Wire>
    requires n <= |outs|
  {
    if n == 0 then [] else ObjectWires(i, outs, n - 1) + OutletWires(i, n - 1, outs[n - 1])
  }

  function Wires(kids: seq<Tree>, n: nat): seq<Wire>
    requires n <= |kids|
  {
    if n == 0 then [] else Wires(kids, n - 1) + ObjectWires(n - 1, kids[n - 1].outs, |kids[n - 1].outs|)
  }

  /** What follows the creation of a patcher: its contents. */
  function BodyOps(t: Tree): seq<Op>
    decreases t, |t.kids| + 1
  {
    [PushObjTable(|t.kids|)] + KidsOps(t, |t.kids|) + WiresOps(Wires(t.kids, |t.kids|)) + [PopObjTable]
  }

  function KidsOps(t: Tree, n: nat): seq<Op>
    requires n <= |t.kids|
    decreases t, n
  {
    if n == 0 then [] else KidsOps(t, n - 1) + (KidOps(t.kids[n - 1], n - 1) + [PopObjs(1)])
  }

  function KidOps(t: Tree, idx: nat): seq<Op>
    decreases t, |t.kids| + 2
  {
    ObjectOps(t, idx) + if t.nested then BodyOps(t) else []
  }

  /** `fts_bmax_code_new_patcher` of the top level patcher */
  function PatcherOps(t: Tree): seq<Op> {
    TopOps(t) + BodyOps(t)
  }

  // ---------------------------------------------------------------- the code generator

  method CodePushAtoms(f: BmaxFile, at: seq<Atom>)
    requires f.Valid()
    modifies f
    ensures f.Valid() && f.ops == old(f.ops) + PushAtoms(at)
  {
    hide BmaxFile.Valid;
    var i := |at|;
    while i > 0
      invariant 0 <= i <= |at| && f.Valid()
      invariant f.ops == old(f.ops) + PushAtoms(at[i..])
    {
      i := i - 1;
      assert at[i..][0] == at[i] && at[i..][1..] == at[i + 1..];
      match at[i]
      case AInt(v) => f.Code(PushInt(v));
      case AFloat(w) => f.Code(PushFloat(w));
      case ASym(s) => f.CodeSymbol(PushSym(s));
      case Other => f.Code(PushInt(0));
    }
    assert at[0..] == at;
  }

  method CodeProperty(f: BmaxFile, prop: map<string, Atom>, name: string)
    requires f.Valid()
    modifies f
    ensures f.Valid() && f.ops == old(f.ops) + PropOps(prop, name)
  {
    hide BmaxFile.Valid;
    if name in prop {
      match prop[name] {
        case AInt(v) => f.Code(SetInt(v));
        case AFloat(w) => f.Code(SetFloat(w));
        case ASym(s) => f.CodeSymbol(SetSym(s));
        case Other =>
      }
      f.CodeSymbol(PutProp(name));
    }
  }

  method CodeProperties(f: BmaxFile, prop: map<string, Atom>, names: seq<string>)
    requires f.Valid()
    modifies f
    ensures f.Valid() && f.ops == old(f.ops) + PropsOps(prop, names)
  {
    hide BmaxFile.Valid;
    var i := 0;
    while i < |names|
      invariant i <= |names| && f.Valid()
      invariant f.ops == old(f.ops) + PropsOps(prop, names[..i])
    {
      assert names[..i + 1][..i] == names[..i];
      CodeProperty(f, prop, names[i]);
      i := i + 1;
    }
    assert names[..i] == names;
  }

  /** A message of the saver's dumper. */
  method CodeSend(f: BmaxFile, msg: Message)
    requires f.Valid()
    modifies f
    ensures f.Valid() && f.ops == old(f.ops) + SendOps(msg)
  {
    hide BmaxFile.Valid;
    CodePushAtoms(f, msg.args);
    f.CodeSymbol(ObjMess(msg.sel, |msg.args|));
    f.Code(PopArgs(|msg.args|));
  }

  method CodeSends(f: BmaxFile, ms: seq<Message>)
    requires f.Valid()
    modifies f
    ensures f.Valid() && f.ops == old(f.ops) + SendsOps(ms)
  {
    hide BmaxFile.Valid;
    var i := 0;
    while i < |ms|
      invariant i <= |ms| && f.Valid()
      invariant f.ops == old(f.ops) + SendsOps(ms[..i])
    {
      assert ms[..i + 1][..i] == ms[..i];
      CodeSend(f, ms[i]);
      i := i + 1;
    }
    assert ms[..i] == ms;
  }

  method CodeNewObject(f: BmaxFile, t: Tree, idx: nat)
    requires f.Valid()
    modifies f
    ensures f.Valid() && f.ops == old(f.ops) + ObjectOps(t, idx)
  {
    hide BmaxFile.Valid, PushAtoms, PropsOps, SendsOps, Messages;
    CodePushAtoms(f, t.desc);
    f.Code(MakeObj(|t.desc|));
    f.Code(MvObj(idx));
    if t.desc == [] {
      f.Code(PushInt(0));
    }
    CodeProperties(f, t.prop, Names(t.patcher));
    f.Code(PopArgs(Least1(|t.desc|)));
    CodeSends(f, Messages(t));
  }

  method CodeNewTopObject(f: BmaxFile, t: Tree)
    requires f.Valid()
    modifies f
    ensures f.Valid() && f.ops == old(f.ops) + TopOps(t)
  {
    hide BmaxFile.Valid, PropsOps;
    f.CodeSymbol(PushSym("jpatcher"));
    f.Code(MakeTopObj(1));
    CodeProperties(f, t.prop, TOP_NAMES);
    f.Code(PopArgs(1));
  }

  method CodeNewConnection(f: BmaxFile, w: Wire)
    requires f.Valid()
    modifies f
    ensures f.Valid() && f.ops == old(f.ops) + WireOps(w)
  {
    hide BmaxFile.Valid;
    if w.conn.kind > HIDDEN {
      f.Code(PushInt(w.conn.inlet));
      f.Code(PushInt(w.outlet));
      f.Code(PushObj(w.conn.dst));
      f.Code(PushObj(w.src));
      f.Code(Connect);
      f.Code(PopArgs(2));
      f.Code(PopObjs(2));
    }
  }

  method CodeOutletConnections(f: BmaxFile, i: nat, outlet: nat, cs: seq<Conn>)
    requires f.Valid()
    modifies f
    ensures f.Valid() && f.ops == old(f.ops) + WiresOps(OutletWires(i, outlet, cs))
  {
    hide BmaxFile.Valid, WireOps, WiresOps;
    WiresNone();
    assert OutletWires(i, outlet, cs[..0]) == [];
    var k := 0;
    while k < |cs|
      invariant k <= |cs| && f.Valid()
      invariant f.ops == old(f.ops) + WiresOps(OutletWires(i, outlet, cs[..k]))
    {
      CodeNewConnection(f, Wire(i, outlet, cs[k]));
      WiresSnoc(OutletWires(i, outlet, cs[..k]), Wire(i, outlet, cs[k]));
      assert OutletWires(i, outlet, cs[..k + 1]) == OutletWires(i, outlet, cs[..k]) + [Wire(i, outlet, cs[k])];
      k := k + 1;
    }
    assert cs[..k] == cs;
  }

  method CodeObjectConnections(f: BmaxFile, i: nat, outs: seq<seq<Conn>>)
    requires f.Valid()
    modifies f
    ensures f.Valid() && f.ops == old(f.ops) + WiresOps(ObjectWires(i, outs, |outs|))
  {
    hide BmaxFile.Valid, WiresOps, OutletWires;
    WiresNone();
    var outlet := 0;
    while outlet < |outs|
      invariant outlet <= |outs| && f.Valid()
      invariant f.ops == old(f.ops) + WiresOps(ObjectWires(i, outs, outlet))
    {
      CodeOutletConnections(f, i, outlet, outs[outlet]);
      WiresAppend(ObjectWires(i, outs, outlet), OutletWires(i, outlet, outs[outlet]));
      outlet := outlet + 1;
    }
  }

  lemma WiresSnoc(ws: seq<Wire>, w: Wire)
    ensures WiresOps(ws + [w]) == WiresOps(ws) + WireOps(w)
  {
    assert (ws + [w])[..|ws + [w]| - 1] == ws;
  }

  lemma {:induction false} WiresAppend(a: seq<Wire>, b: seq<Wire>)
    ensures WiresOps(a + b) == WiresOps(a) + WiresOps(b)
  {
    hide WireOps;
    if b == [] {
      assert a + b == a;
    } else {
      var init, last := b[..|b| - 1], b[|b| - 1];
      WiresAppend(a, init);
      assert a + b == (a + init) + [last] && b == init + [last];
      WiresSnoc(a + init, last);
      WiresSnoc(init, last);
    }
  }

  /** `fts_bmax_code_new_patcher`, after the patcher itself is made */
  method CodeBody(f: BmaxFile, t: Tree)
    requires f.Valid()
    modifies f
    ensures f.Valid() && f.ops == old(f.ops) + BodyOps(t)
    decreases t, |t.kids| + 1
  {
    hide BmaxFile.Valid, KidsOps, WiresOps, Wires;
    f.Code(PushObjTable(|t.kids|));
    CodeKids(f, t);
    CodeConnections(f, t);
    f.Code(PopObjTable);
  }

  method CodeKids(f: BmaxFile, t: Tree)
    requires f.Valid()
    modifies f
    ensures f.Valid() && f.ops == old(f.ops) + KidsOps(t, |t.kids|)
    decreases t, |t.kids|
  {
    hide BmaxFile.Valid, KidOps;
    var i := 0;
    while i < |t.kids|
      invariant i <= |t.kids| && f.Valid()
      invariant f.ops == old(f.ops) + KidsOps(t, i)
    {
      CodeKid(f, t.kids[i], i);
      f.Code(PopObjs(1));
      i := i + 1;
    }
  }

  method CodeKid(f: BmaxFile, t: Tree, idx: nat)
    requires f.Valid()
    modifies f
    ensures f.Valid() && f.ops == old(f.ops) + KidOps(t, idx)
    decreases t, |t.kids| + 2
  {
    hide BmaxFile.Valid, ObjectOps, BodyOps;
    CodeNewObject(f, t, idx);
    if t.nested {
      CodeBody(f, t);
    }
    OpsJoined(old(f.ops), ObjectOps(t, idx), if t.nested then BodyOps(t) else []);
  }

  lemma OpsJoined(a: seq<Op>, b: seq<Op>, c: seq<Op>)
    ensures a + b + c == a + (b + c) && a + b + [] == a + b
  {
  }

  method CodeConnections(f: BmaxFile, t: Tree)
    requires f.Valid()
    modifies f
    ensures f.Valid() && f.ops == old(f.ops) + WiresOps(Wires(t.kids, |t.kids|))
  {
    hide BmaxFile.Valid, WiresOps, ObjectWires;
    WiresNone();
    var i := 0;
    while i < |t.kids|
      invariant i <= |t.kids| && f.Valid()
      invariant f.ops == old(f.ops) + WiresOps(Wires(t.kids, i))
    {
      CodeObjectConnections(f, i, t.kids[i].outs);
      WiresAppend(Wires(t.kids, i), ObjectWires(i, t.kids[i].outs, |t.kids[i].outs|));
      i := i + 1;
    }
  }

  lemma WiresNone()
    ensures WiresOps([]) == []
  {
  }

  /** `fts_save_patcher_as_bmax` */
  method SavePatcher(t: Tree) returns (f: BmaxFile)
    ensures fresh(f) && f.Valid() && f.ops == PatcherOps(t) + [Return]
  {
    hide BodyOps, TopOps;
    f := new BmaxFile();
    CodeNewTopObject(f, t);
    CodeBody(f, t);
    f.Code(Return);
  }
}
