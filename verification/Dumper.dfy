/** Dumping an object graph, with sharing and cycles, as lines, and loading the lines again. */
module Dumper {
  import opened Sets

  // ---------------------------------------------------------------- id symbols

  function Digit(n: nat): char
    requires n < 10
  {
    n as char + '0'
  }

  /** `%d` of a natural number */
  function Decimal(n: nat): (s: string)
    ensures |s| > 0
  {
    if n < 10 then [Digit(n)] else Decimal(n / 10) + [Digit(n % 10)]
  }

  function IdToSymbol(id: int): string {
    if id > 0 then "#" + Decimal(id) else "#NULL"
  }

  /** What a digit string, or any other string, contributes: each character counts as its distance from '0'. */
  function Digits(s: string): int {
    if s == "" then 0 else Digits(s[..|s| - 1]) * 10 + (s[|s| - 1] as int - '0' as int)
  }

  function StringToId(s: string): int {
    if |s| > 1 && s[0] == '#' && '0' < s[1] <= '9' then Digits(s[1..]) else 0
  }

  lemma {:induction false} DecimalIs(n: nat)
    ensures Digits(Decimal(n)) == n
    ensures '0' <= Decimal(n)[0] <= '9' && (n > 0 ==> Decimal(n)[0] != '0')
  {
    if n < 10 {
      assert Decimal(n)[..0] == "";
    } else {
      DecimalIs(n / 10);
      var s := Decimal(n);
      assert s[..|s| - 1] == Decimal(n / 10) && s[0] == Decimal(n / 10)[0];
    }
  }

  /** An id symbol is read back as its id. */
  lemma IdRoundTrip(id: int)
    ensures StringToId(IdToSymbol(id)) == if id > 0 then id else 0
    ensures IdToSymbol(id)[0] == '#' && (id <= 0 ==> IdToSymbol(id) == "#NULL")
  {
    if id > 0 {
      DecimalIs(id);
      assert IdToSymbol(id)[1..] == Decimal(id);
    }
  }

  /** A symbol is read as an id only if it is a '#' with a digit behind it that is not 0. */
  lemma OnlyIds(s: string)
    ensures StringToId(s) != 0 ==> |s| > 1 && s[0] == '#' && s[1] in "123456789"
  {
  }

  // ---------------------------------------------------------------- graphs

  datatype Atom = Sym(s: string) | Num(i: int)

  datatype Arg = Plain(a: Atom) | Ref(n: nat)

  datatype Message = Message(sel: string, args: seq<Arg>)

  /** An object: its class, the arguments of its description, and the messages it dumps of its state. */
  datatype Node = Node(cls: string, args: seq<Arg>, mess: seq<Message>)

  type Graph = seq<Node>

  ghost predicate ArgsIn(g: Graph, args: seq<Arg>) {
    forall i :: 0 <= i < |args| && args[i].Ref? ==> args[i].n < |g|
  }

  ghost predicate Closed(g: Graph) {
    forall n :: 0 <= n < |g| ==> ArgsIn(g, g[n].args) && forall k :: 0 <= k < |g[n].mess| ==>
      ArgsIn(g, g[n].mess[k].args)
  }

  /** Is `m` referred to among `args`? */
  predicate Refers(args: seq<Arg>, m: nat) {
    Ref(m) in args
  }

  predicate DescEdge(g: Graph, n: nat, m: nat) {
    n < |g| && Refers(g[n].args, m)
  }

  predicate MessEdge(g: Graph, n: nat, m: nat) {
    n < |g| && exists k :: 0 <= k < |g[n].mess| && Refers(g[n].mess[k].args, m)
  }

  predicate Edge(g: Graph, n: nat, m: nat) {
    DescEdge(g, n, m) || MessEdge(g, n, m)
  }

  ghost predicate Path(g: Graph, p: seq<nat>) {
    |p| > 0 && forall i :: 0 <= i < |p| - 1 ==> Edge(g, p[i], p[i + 1])
  }

  ghost predicate Reaches(g: Graph, n: nat, m: nat) {
    exists p :: Path(g, p) && p[0] == n && p[|p| - 1] == m
  }

  lemma ReachesSelf(g: Graph, n: nat)
    ensures Reaches(g, n, n)
  {
    assert Path(g, [n]);
  }

  lemma ReachesStep(g: Graph, n: nat, m: nat, o: nat)
    requires Edge(g, n, m) && Reaches(g, m, o)
    ensures Reaches(g, n, o)
  {
    var p :| Path(g, p) && p[0] == m && p[|p| - 1] == o;
    var q := [n] + p;
    forall i | 0 <= i < |q| - 1 ensures Edge(g, q[i], q[i + 1]) {
      if i > 0 {
        assert q[i] == p[i - 1] && q[i + 1] == p[i];
      }
    }
    assert Path(g, q) && q[0] == n && q[|q| - 1] == o;
  }

  /** No reference cycle uses a description edge. */
  ghost predicate NoDescCycle(g: Graph) {
    forall n, m :: DescEdge(g, n, m) ==> !Reaches(g, m, n)
  }

  /** None among the objects reachable from `r`. */
  ghost predicate NoDescCycleFrom(g: Graph, r: nat) {
    forall n, m :: Reaches(g, r, n) && DescEdge(g, n, m) ==> !Reaches(g, m, n)
  }

  // ---------------------------------------------------------------- dumping

  datatype Line = ObjLine(id: int, cls: string, args: seq<Atom>) | MessLine(id: int, sel: string, args: seq<Atom>)

  /** `ids` are the ids assigned, on first visit. */
  datatype Dump = Dump(ids: map<nat, int>, index: int, lines: seq<Line>)

  function All(g: Graph): set<nat> {
    Below(|g|)
  }

  function Put(d: Dump, n: nat): Dump {
    d.(ids := d.ids[n := d.index + 1], index := d.index + 1)
  }

  function NameArg(ids: map<nat, int>, a: Arg): Atom {
    match a
    case Plain(x) => x
    case Ref(n) => Sym(IdToSymbol(if n in ids then ids[n] else 0))
  }

  /** Arguments as they are written: references as id symbols. */
  function Named(ids: map<nat, int>, args: seq<Arg>): (r: seq<Atom>)
    ensures |r| == |args|
  {
    seq(|args|, i requires 0 <= i < |args| => NameArg(ids, args[i]))
  }

  /** `d'` continues `d`: nothing assigned or written is changed. */
  ghost predicate Continues(d: Dump, d': Dump) {
    d.ids.Keys <= d'.ids.Keys && (forall n :: n in d.ids ==> d'.ids[n] == d.ids[n]) && d.lines <= d'.lines
  }

  /** `object_dumper_dump_reference` */
  ghost function DumpRef(g: Graph, d: Dump, n: nat): (d': Dump)
    requires Closed(g) && n < |g|
    ensures Continues(d, d') && n in d'.ids
    decreases All(g) - d.ids.Keys, 1, 0
  {
    if n in d.ids then d
    else
      assert n in All(g) - d.ids.Keys;
      DumpNode(g, Put(d, n), n)
  }

  /** The objects referred to by the first `i` arguments. */
  ghost function DumpArgs(g: Graph, d: Dump, args: seq<Arg>, i: nat): (d': Dump)
    requires Closed(g) && ArgsIn(g, args) && i <= |args|
    ensures Continues(d, d')
    ensures forall k :: 0 <= k < i && args[k].Ref? ==> args[k].n in d'.ids
    decreases All(g) - d.ids.Keys, 2, i
  {
    if i == 0 then d
    else
      var d1 := DumpArgs(g, d, args, i - 1);
      if args[i - 1].Ref? then DumpRef(g, d1, args[i - 1].n) else d1
  }

  /** The line of an object whose description is dumped. */
  function WithObj(g: Graph, d: Dump, n: nat): Dump
    requires n < |g|
  {
    d.(lines := d.lines + [ObjLine(if n in d.ids then d.ids[n] else 0, g[n].cls, Named(d.ids, g[n].args))])
  }

  function WithMess(g: Graph, d: Dump, n: nat, msg: Message): Dump {
    d.(lines := d.lines + [MessLine(if n in d.ids then d.ids[n] else 0, msg.sel, Named(d.ids, msg.args))])
  }

  /** `object_dumper_dump_object`: first what the description refers to, then the object, then its state. */
  ghost function DumpNode(g: Graph, d: Dump, n: nat): (d': Dump)
    requires Closed(g) && n < |g|
    ensures Continues(d, d')
    decreases All(g) - d.ids.Keys, 4, 0
  {
    DumpMessages(g, WithObj(g, DumpArgs(g, d, g[n].args, |g[n].args|), n), n, |g[n].mess|)
  }

  /** The first `k` messages of the state. */
  ghost function DumpMessages(g: Graph, d: Dump, n: nat, k: nat): (d': Dump)
    requires Closed(g) && n < |g| && k <= |g[n].mess|
    ensures Continues(d, d')
    decreases All(g) - d.ids.Keys, 3, k
  {
    if k == 0 then d
    else
      var msg, d1 := g[n].mess[k - 1], DumpMessages(g, d, n, k - 1);
      WithMess(g, DumpArgs(g, d1, msg.args, |msg.args|), n, msg)
  }

  const START := Dump(map[], 0, [])

  /** `fts_object_dump` */
  ghost function DumpGraph(g: Graph, root: nat): Dump
    requires Closed(g) && root < |g|
  {
    DumpNode(g, Put(START, root), root)
  }

  class ObjectDumper {
    const g: Graph
    var ids: map<nat, int>
    var index: int
    var stack: seq<int>
    var currentId: int
    var lines: seq<Line>

    ghost function D(): Dump
      reads this
    {
      Dump(ids, index, lines)
    }

    constructor (g: Graph)
      ensures this.g == g && D() == START && stack == []
    {
      this.g := g;
      ids, index, stack, currentId, lines := map[], 0, [], 0, [];
    }

    method PutObject(n: nat) returns (id: int)
      modifies this`ids, this`index
      ensures D() == Put(old(D()), n) && id == ids[n]
    {
      index := index + 1;
      id := index;
      ids := ids[n := id];
    }

    /** While an object is dumped, its id is on top of the stack. */
    method DumpObject(n: nat, id: int)
      requires Closed(g) && n < |g| && n in ids && ids[n] == id
      modifies this
      ensures D() == DumpNode(g, old(D()), n) && stack == old(stack)
      ensures currentId == if stack == [] then 0 else stack[|stack| - 1]
      decreases All(g) - ids.Keys, 4, 0
    {
      stack := stack + [id];
      currentId := id;
      var args := g[n].args;
      var at := [];
      var i := 0;
      while i < |args|
        invariant i <= |args| && |at| == i && stack == old(stack) + [id] && currentId == id
        invariant D() == DumpArgs(g, old(D()), args, i)
        invariant n in ids && ids[n] == id
        invariant forall k :: 0 <= k < i ==> at[k] == NameArg(ids, args[k])
      {
        if args[i].Ref? {
          ghost var was := ids;
          var argid := DumpReference(args[i].n);
          at := at + [Sym(IdToSymbol(argid))];
        } else {
          at := at + [args[i].a];
        }
        i := i + 1;
      }
      assert at == Named(ids, args);
      lines := lines + [ObjLine(id, g[n].cls, at)];
      DumpState(n);
      stack := stack[..|stack| - 1];
      assert stack == old(stack);
      currentId := if stack == [] then 0 else stack[|stack| - 1];
    }

    method DumpReference(n: nat) returns (id: int)
      requires Closed(g) && n < |g| && stack != [] && currentId == stack[|stack| - 1]
      modifies this
      ensures D() == DumpRef(g, old(D()), n) && id == ids[n] && stack == old(stack) && currentId == old(currentId)
      decreases All(g) - ids.Keys, 1, 0
    {
      if n in ids {
        return ids[n];
      }
      assert n in All(g) - ids.Keys;
      id := PutObject(n);
      DumpObject(n, id);
    }

    /** What the object does on being asked for its state: it sends its messages to the dumper. */
    method DumpState(n: nat)
      requires Closed(g) && n < |g| && n in ids && stack != [] && currentId == ids[n] == stack[|stack| - 1]
      modifies this
      ensures D() == DumpMessages(g, old(D()), n, |g[n].mess|) && stack == old(stack) && currentId == old(currentId)
      decreases All(g) - ids.Keys, 3, |g[n].mess|
    {
      var k := 0;
      while k < |g[n].mess|
        invariant k <= |g[n].mess| && stack == old(stack) && currentId == old(currentId)
        invariant D() == DumpMessages(g, old(D()), n, k)
      {
        Send(n, g[n].mess[k]);
        k := k + 1;
      }
    }

    /** `object_dumper_send` */
    method Send(ghost n: nat, msg: Message)
      requires Closed(g) && ArgsIn(g, msg.args) && stack != [] && currentId == stack[|stack| - 1]
      requires n in ids && ids[n] == currentId
      modifies this
      ensures D() == WithMess(g, DumpArgs(g, old(D()), msg.args, |msg.args|), n, msg)
      ensures stack == old(stack) && currentId == old(currentId)
      decreases All(g) - ids.Keys, 2, |msg.args| + 1
    {
      var args := msg.args;
      var at := [];
      var i := 0;
      while i < |args|
        invariant i <= |args| && |at| == i && stack == old(stack) && currentId == old(currentId)
        invariant D() == DumpArgs(g, old(D()), args, i)
        invariant n in ids && ids[n] == currentId
        invariant forall k :: 0 <= k < i ==> at[k] == NameArg(ids, args[k])
      {
        if args[i].Ref? {
          var id := DumpReference(args[i].n);
          at := at + [Sym(IdToSymbol(id))];
        } else {
          at := at + [args[i].a];
        }
        i := i + 1;
      }
      assert at == Named(ids, args);
      lines := lines + [MessLine(currentId, msg.sel, at)];
    }
  }

  // ---------------------------------------------------------------- what is dumped

  /** The ids of the object lines, in order. */
  function ObjIds(lines: seq<Line>): seq<int> {
    if lines == [] then []
    else
      var l := lines[|lines| - 1];
      ObjIds(lines[..|lines| - 1]) + if l.ObjLine? then [l.id] else []
  }

  lemma ObjIdsSnoc(lines: seq<Line>, l: Line)
    ensures ObjIds(lines + [l]) == if l.ObjLine? then ObjIds(lines) + [l.id] else ObjIds(lines)
  {
    assert (lines + [l])[..|lines + [l]| - 1] == lines;
  }

  predicate Distinct(s: seq<int>) {
    forall i, j :: 0 <= i < j < |s| ==> s[i] != s[j]
  }

  /** The ids are 1, 2, ... in order of first visit, and those of `open` objects have no line yet. */
  ghost predicate IdsOk(g: Graph, d: Dump, open: set<nat>) {
    && (forall n :: n in d.ids ==> n < |g| && 1 <= d.ids[n] <= d.index)
    && (forall n, m :: n in d.ids && m in d.ids && n != m ==> d.ids[n] != d.ids[m])
    && Distinct(ObjIds(d.lines))
    && (forall n :: n in d.ids ==> (d.ids[n] in ObjIds(d.lines) <==> n !in open))
    && (forall x :: x in ObjIds(d.lines) ==> 1 <= x <= d.index)
    && d.index >= 0 && open <= d.ids.Keys
  }

  lemma PutOk(g: Graph, d: Dump, open: set<nat>, n: nat)
    requires IdsOk(g, d, open) && n < |g| && n !in d.ids
    ensures IdsOk(g, Put(d, n), open + {n})
  {
  }

  lemma WithObjOk(g: Graph, d: Dump, open: set<nat>, n: nat)
    requires IdsOk(g, d, open) && n < |g| && n in open
    ensures IdsOk(g, WithObj(g, d, n), open - {n})
  {
    hide Named;
    var l := ObjLine(d.ids[n], g[n].cls, Named(d.ids, g[n].args));
    ObjIdsSnoc(d.lines, l);
    var a := ObjIds(d.lines);
    assert forall x :: x in a + [d.ids[n]] <==> x in a || x == d.ids[n];
  }

  lemma WithMessOk(g: Graph, d: Dump, open: set<nat>, n: nat, msg: Message)
    requires IdsOk(g, d, open)
    ensures IdsOk(g, WithMess(g, d, n, msg), open)
  {
    hide Named, ObjIds, Distinct;
    ObjIdsSnoc(d.lines, MessLine(if n in d.ids then d.ids[n] else 0, msg.sel, Named(d.ids, msg.args)));
  }

  /** Dumping assigns ids in order and writes one line for each object it visits. */
  lemma {:induction false} RefIdsOk(g: Graph, d: Dump, open: set<nat>, n: nat)
    requires Closed(g) && n < |g| && IdsOk(g, d, open)
    ensures IdsOk(g, DumpRef(g, d, n), open)
    decreases All(g) - d.ids.Keys, 1, 0
  {
    hide IdsOk, DumpNode;
    if n !in d.ids {
      assert n in All(g) - d.ids.Keys;
      PutOk(g, d, open, n);
      OpenKnown(g, d, open);
      NodeIdsOk(g, Put(d, n), open + {n}, n);
      assert open + {n} - {n} == open;
    }
  }

  lemma OpenKnown(g: Graph, d: Dump, open: set<nat>)
    requires IdsOk(g, d, open)
    ensures open <= d.ids.Keys
  {
  }

  lemma {:induction false} ArgsIdsOk(g: Graph, d: Dump, open: set<nat>, args: seq<Arg>, i: nat)
    requires Closed(g) && ArgsIn(g, args) && i <= |args| && IdsOk(g, d, open)
    ensures IdsOk(g, DumpArgs(g, d, args, i), open)
    decreases All(g) - d.ids.Keys, 2, i
  {
    hide IdsOk, DumpRef;
    if i > 0 {
      ArgsIdsOk(g, d, open, args, i - 1);
      if args[i - 1].Ref? {
        RefIdsOk(g, DumpArgs(g, d, args, i - 1), open, args[i - 1].n);
      }
    }
  }

  lemma {:induction false} NodeIdsOk(g: Graph, d: Dump, open: set<nat>, n: nat)
    requires Closed(g) && n < |g| && IdsOk(g, d, open) && n in open
    ensures IdsOk(g, DumpNode(g, d, n), open - {n})
    decreases All(g) - d.ids.Keys, 4, 0
  {
    hide IdsOk, DumpArgs, DumpMessages, WithObj;
    var d1 := DumpArgs(g, d, g[n].args, |g[n].args|);
    ArgsIdsOk(g, d, open, g[n].args, |g[n].args|);
    WithObjOk(g, d1, open, n);
    WithObjKeys(g, d1, n);
    MessagesIdsOk(g, WithObj(g, d1, n), open - {n}, n, |g[n].mess|);
  }

  lemma WithObjKeys(g: Graph, d: Dump, n: nat)
    requires n < |g|
    ensures WithObj(g, d, n).ids == d.ids
  {
  }

  lemma {:induction false} MessagesIdsOk(g: Graph, d: Dump, open: set<nat>, n: nat, k: nat)
    requires Closed(g) && n < |g| && k <= |g[n].mess| && IdsOk(g, d, open)
    ensures IdsOk(g, DumpMessages(g, d, n, k), open)
    decreases All(g) - d.ids.Keys, 3, k
  {
    hide IdsOk, DumpArgs, WithMess;
    if k > 0 {
      var msg, d1 := g[n].mess[k - 1], DumpMessages(g, d, n, k - 1);
      MessagesIdsOk(g, d, open, n, k - 1);
      ArgsIdsOk(g, d1, open, msg.args, |msg.args|);
      WithMessOk(g, DumpArgs(g, d1, msg.args, |msg.args|), open, n, msg);
    }
  }

  // ---------------------------------------------------------------- who is visited

  /** Everything `m` refers to has an id. */
  ghost predicate Full(g: Graph, d: Dump, m: nat) {
    forall o :: Edge(g, m, o) ==> o in d.ids
  }

  /** What is visited between `d` and `d'` is reachable from `n`, and everything it refers to is visited. */
  ghost predicate Visits(g: Graph, d: Dump, d': Dump, n: nat) {
    forall m :: m in d'.ids && m !in d.ids ==> Reaches(g, n, m) && Full(g, d', m)
  }

  lemma VisitsThen(g: Graph, d: Dump, d1: Dump, d2: Dump, n: nat)
    requires Visits(g, d, d1, n) && Visits(g, d1, d2, n) && Continues(d1, d2)
    ensures Visits(g, d, d2, n)
  {
    hide Reaches, Edge;
  }

  /** The arguments belong to object `n`. */
  ghost predicate Owned(g: Graph, n: nat, args: seq<Arg>) {
    forall i :: 0 <= i < |args| && args[i].Ref? ==> Edge(g, n, args[i].n)
  }

  lemma VisitsBelow(g: Graph, d: Dump, d': Dump, n: nat, m: nat)
    requires Visits(g, d, d', m) && Edge(g, n, m)
    ensures Visits(g, d, d', n)
  {
    hide Reaches, Edge;
    forall o | o in d'.ids && o !in d.ids ensures Reaches(g, n, o) {
      ReachesStep(g, n, m, o);
    }
  }

  lemma {:induction false} RefVisits(g: Graph, d: Dump, n: nat)
    requires Closed(g) && n < |g|
    ensures Visits(g, d, DumpRef(g, d, n), n)
    decreases All(g) - d.ids.Keys, 1, 0
  {
    hide Reaches, Edge, DumpNode;
    if n !in d.ids {
      assert n in All(g) - d.ids.Keys;
      NodeVisits(g, Put(d, n), n);
      ReachesSelf(g, n);
    }
  }

  lemma {:induction false} ArgsVisit(g: Graph, d: Dump, n: nat, args: seq<Arg>, i: nat)
    requires Closed(g) && ArgsIn(g, args) && i <= |args| && Owned(g, n, args)
    ensures Visits(g, d, DumpArgs(g, d, args, i), n)
    decreases All(g) - d.ids.Keys, 2, i
  {
    hide Reaches, Edge, DumpRef, Visits;
    if i > 0 {
      var d1 := DumpArgs(g, d, args, i - 1);
      ArgsVisit(g, d, n, args, i - 1);
      if args[i - 1].Ref? {
        var m := args[i - 1].n;
        RefVisits(g, d1, m);
        VisitsBelow(g, d1, DumpRef(g, d1, m), n, m);
        VisitsThen(g, d, d1, DumpRef(g, d1, m), n);
      }
    } else {
      VisitsNone(g, d, n);
    }
  }

  lemma VisitsNone(g: Graph, d: Dump, n: nat)
    ensures Visits(g, d, d, n)
  {
  }

  lemma SameIds(g: Graph, d: Dump, d1: Dump, d2: Dump, n: nat)
    requires Visits(g, d, d1, n) && d2.ids == d1.ids
    ensures Visits(g, d, d2, n)
  {
  }

  lemma {:induction false} NodeVisits(g: Graph, d: Dump, n: nat)
    requires Closed(g) && n < |g|
    ensures Visits(g, d, DumpNode(g, d, n), n) && Full(g, DumpNode(g, d, n), n)
    decreases All(g) - d.ids.Keys, 4, 0
  {
    hide Reaches, Visits, DumpArgs, DumpMessages;
    var d1 := DumpArgs(g, d, g[n].args, |g[n].args|);
    var d2 := WithObj(g, d1, n);
    ArgsVisit(g, d, n, g[n].args, |g[n].args|);
    SameIds(g, d, d1, d2, n);
    MessagesVisit(g, d2, n, |g[n].mess|);
    VisitsThen(g, d, d2, DumpNode(g, d, n), n);
  }

  lemma {:induction false} MessagesVisit(g: Graph, d: Dump, n: nat, k: nat)
    requires Closed(g) && n < |g| && k <= |g[n].mess|
    ensures Visits(g, d, DumpMessages(g, d, n, k), n)
    ensures forall j, o :: 0 <= j < k && Refers(g[n].mess[j].args, o) ==> o in DumpMessages(g, d, n, k).ids
    decreases All(g) - d.ids.Keys, 3, k
  {
    hide Reaches, Visits, DumpArgs;
    if k > 0 {
      var msg, d1 := g[n].mess[k - 1], DumpMessages(g, d, n, k - 1);
      var d2 := DumpArgs(g, d1, msg.args, |msg.args|);
      MessagesVisit(g, d, n, k - 1);
      forall i | 0 <= i < |msg.args| && msg.args[i].Ref? ensures Edge(g, n, msg.args[i].n) {
        assert Refers(msg.args, msg.args[i].n);
      }
      ArgsVisit(g, d1, n, msg.args, |msg.args|);
      VisitsThen(g, d, d1, d2, n);
      SameIds(g, d, d2, DumpMessages(g, d, n, k), n);
    } else {
      VisitsNone(g, d, n);
    }
  }

  /** Dumping ends on every finite graph, shared and cyclic ones included, and visits exactly the objects that are
      reachable, each with one line of its own. */
  lemma DumpVisits(g: Graph, root: nat)
    requires Closed(g) && root < |g|
    ensures var d := DumpGraph(g, root);
            && IdsOk(g, d, {}) && d.ids[root] == 1
            && (forall m :: m in d.ids <==> Reaches(g, root, m))
            && (forall m :: m in d.ids ==> d.ids[m] in ObjIds(d.lines))
            && Distinct(ObjIds(d.lines))
  {
    hide Reaches, Edge, DumpNode;
    var d0, d := Put(START, root), DumpGraph(g, root);
    assert IdsOk(g, START, {});
    PutOk(g, START, {}, root);
    assert {} + {root} == {root} && {root} - {root} == {};
    NodeIdsOk(g, d0, {root}, root);
    NodeVisits(g, d0, root);
    ReachesSelf(g, root);
    forall m ensures m in d.ids <==> Reaches(g, root, m) {
      if Reaches(g, root, m) {
        AllReached(g, d, root, m);
      }
    }
  }

  lemma {:induction false} PathStays(g: Graph, d: Dump, p: seq<nat>)
    requires Path(g, p) && p[0] in d.ids && forall m :: m in d.ids ==> Full(g, d, m)
    ensures p[|p| - 1] in d.ids
    decreases |p|
  {
    hide Edge;
    if |p| > 1 {
      var init := p[..|p| - 1];
      PathStays(g, d, init);
      assert Edge(g, p[|p| - 2], p[|p| - 1]);
    }
  }

  lemma AllReached(g: Graph, d: Dump, root: nat, m: nat)
    requires Reaches(g, root, m) && root in d.ids && forall o :: o in d.ids ==> Full(g, d, o)
    ensures m in d.ids
  {
    var p :| Path(g, p) && p[0] == root && p[|p| - 1] == m;
    PathStays(g, d, p);
  }

  // ---------------------------------------------------------------- mentioned after it is declared

  predicate MentionsId(a: Atom, k: int) {
    a.Sym? && StringToId(a.s) == k
  }

  predicate Mentions(l: Line, k: int) {
    k > 0 && ((l.MessLine? && l.id == k) || exists i :: 0 <= i < |l.args| && MentionsId(l.args[i], k))
  }

  /** Every id is mentioned only after its object line. */
  ghost predicate Declared(lines: seq<Line>) {
    forall i, k :: 0 <= i < |lines| && Mentions(lines[i], k) ==> k in ObjIds(lines[..i])
  }

  lemma DeclaredSnoc(lines: seq<Line>, l: Line)
    requires Declared(lines) && forall k :: Mentions(l, k) ==> k in ObjIds(lines)
    ensures Declared(lines + [l])
  {
    hide Mentions, ObjIds;
    var all := lines + [l];
    forall i, k | 0 <= i < |all| && Mentions(all[i], k) ensures k in ObjIds(all[..i]) {
      if i < |lines| {
        assert all[i] == lines[i] && all[..i] == lines[..i];
      } else {
        assert all[..i] == lines;
      }
    }
  }

  /** No plain symbol looks like an id. */
  predicate CleanArg(a: Arg) {
    a.Plain? && a.a.Sym? ==> StringToId(a.a.s) <= 0
  }

  ghost predicate CleanArgs(args: seq<Arg>) {
    forall i :: 0 <= i < |args| ==> CleanArg(args[i])
  }

  ghost predicate CleanNode(x: Node) {
    CleanArgs(x.args) && forall k :: 0 <= k < |x.mess| ==> CleanArgs(x.mess[k].args)
  }

  /** No object reachable from `r` has a plain symbol that looks like an id. */
  ghost predicate CleanFrom(g: Graph, r: nat) {
    forall n: nat :: n < |g| && Reaches(g, r, n) ==> CleanNode(g[n])
  }

  /** The objects seen by a depth-first search, unless a reference led back to an object whose description was still
      being searched. */
  datatype Search = Back | Seen(objs: set<nat>)

  /** Searching from `n`, when the objects of `seen` have been met and those of `open` have a description half done. */
  ghost function SearchRef(g: Graph, seen: set<nat>, open: set<nat>, n: nat): (r: Search)
    requires Closed(g) && n < |g|
    ensures r.Seen? ==> seen <= r.objs && n !in open
    decreases All(g) - seen, 1, 0
  {
    if n in open then Back
    else if n in seen then Seen(seen)
    else
      assert n in All(g) - seen;
      SearchNode(g, seen + {n}, open, n)
  }

  /** Searching from the first `i` arguments. */
  ghost function SearchArgs(g: Graph, seen: set<nat>, open: set<nat>, args: seq<Arg>, i: nat): (r: Search)
    requires Closed(g) && ArgsIn(g, args) && i <= |args|
    ensures r.Seen? ==> seen <= r.objs && NoneIn(open, args, i)
    decreases All(g) - seen, 2, i
  {
    if i == 0 then Seen(seen)
    else
      var r := SearchArgs(g, seen, open, args, i - 1);
      if r.Seen? && args[i - 1].Ref? then SearchRef(g, r.objs, open, args[i - 1].n) else r
  }

  /** An object is open for its description, and no longer for its state. */
  ghost function SearchNode(g: Graph, seen: set<nat>, open: set<nat>, n: nat): (r: Search)
    requires Closed(g) && n < |g|
    ensures r.Seen? ==> seen <= r.objs
    decreases All(g) - seen, 4, 0
  {
    var r := SearchArgs(g, seen, open + {n}, g[n].args, |g[n].args|);
    if r.Seen? then SearchMessages(g, r.objs, open, n, |g[n].mess|) else Back
  }

  ghost function SearchMessages(g: Graph, seen: set<nat>, open: set<nat>, n: nat, k: nat): (r: Search)
    requires Closed(g) && n < |g| && k <= |g[n].mess|
    ensures r.Seen? ==> seen <= r.objs
    decreases All(g) - seen, 3, k
  {
    if k == 0 then Seen(seen)
    else
      var r, args := SearchMessages(g, seen, open, n, k - 1), g[n].mess[k - 1].args;
      if r.Seen? then SearchArgs(g, r.objs, open, args, |args|) else Back
  }

  /** A depth-first search from `r` never leads back to an object whose description is being searched. */
  ghost predicate BackFree(g: Graph, r: nat)
    requires Closed(g) && r < |g|
  {
    SearchNode(g, {r}, {}, r).Seen?
  }

  /** The first `i` arguments refer to nothing in `open`. */
  ghost predicate NoneIn(open: set<nat>, args: seq<Arg>, i: nat)
    requires i <= |args|
  {
    forall j :: 0 <= j < i && args[j].Ref? ==> args[j].n !in open
  }

  lemma CleanStep(g: Graph, n: nat, m: nat)
    requires CleanFrom(g, n) && Edge(g, n, m)
    ensures CleanFrom(g, m)
  {
    hide Reaches, Edge, CleanNode;
    forall o: nat | Reaches(g, m, o) ensures Reaches(g, n, o) {
      ReachesStep(g, n, m, o);
    }
  }

  ghost predicate ArgsClean(g: Graph, args: seq<Arg>) {
    CleanArgs(args) && forall i :: 0 <= i < |args| && args[i].Ref? ==> CleanFrom(g, args[i].n)
  }

  lemma OwnArgs(g: Graph, n: nat)
    requires n < |g| && CleanFrom(g, n)
    ensures ArgsClean(g, g[n].args)
    ensures forall k :: 0 <= k < |g[n].mess| ==> ArgsClean(g, g[n].mess[k].args)
  {
    hide CleanFrom;
    SelfClean(g, n);
    forall i | 0 <= i < |g[n].args| && g[n].args[i].Ref? ensures CleanFrom(g, g[n].args[i].n) {
      assert DescEdge(g, n, g[n].args[i].n);
      CleanStep(g, n, g[n].args[i].n);
    }
    forall k | 0 <= k < |g[n].mess| ensures ArgsClean(g, g[n].mess[k].args) {
      var args := g[n].mess[k].args;
      forall i | 0 <= i < |args| && args[i].Ref? ensures CleanFrom(g, args[i].n) {
        assert Refers(args, args[i].n) && MessEdge(g, n, args[i].n);
        CleanStep(g, n, args[i].n);
      }
    }
  }

  lemma SelfClean(g: Graph, n: nat)
    requires n < |g| && CleanFrom(g, n)
    ensures CleanNode(g[n])
  {
    ReachesSelf(g, n);
  }

  lemma NamedMentions(g: Graph, d: Dump, open: set<nat>, args: seq<Arg>, i: nat, k: int)
    requires IdsOk(g, d, open) && CleanArgs(args) && i < |args| && k > 0 && MentionsId(NameArg(d.ids, args[i]), k)
    ensures args[i].Ref? && args[i].n in d.ids && d.ids[args[i].n] == k
  {
    assert CleanArg(args[i]);
    if args[i].Ref? {
      IdRoundTrip(if args[i].n in d.ids then d.ids[args[i].n] else 0);
    }
  }

  /** Arguments mention declared ids only when nothing they refer to is open. */
  lemma ArgsMention(g: Graph, d: Dump, open: set<nat>, args: seq<Arg>, l: Line)
    requires IdsOk(g, d, open) && CleanArgs(args) && l.args == Named(d.ids, args) && NoneIn(open, args, |args|)
    requires l.MessLine? ==> l.id in ObjIds(d.lines)
    ensures forall k :: Mentions(l, k) ==> k in ObjIds(d.lines)
  {
    hide NameArg, ObjIds;
    forall k | Mentions(l, k) ensures k in ObjIds(d.lines) {
      if !(l.MessLine? && l.id == k) {
        var i :| 0 <= i < |l.args| && MentionsId(l.args[i], k);
        NamedMentions(g, d, open, args, i, k);
      }
    }
  }

  /** A line keeps every id declared before it is mentioned exactly when it refers to nothing open. */
  lemma LineDeclaredIff(g: Graph, d: Dump, open: set<nat>, args: seq<Arg>, l: Line)
    requires IdsOk(g, d, open) && CleanArgs(args) && l.args == Named(d.ids, args) && Declared(d.lines)
    requires forall i :: 0 <= i < |args| && args[i].Ref? ==> args[i].n in d.ids
    requires l.MessLine? ==> l.id in ObjIds(d.lines)
    ensures Declared(d.lines + [l]) <==> NoneIn(open, args, |args|)
  {
    hide ObjIds, Mentions, Declared, Named, Distinct, CleanArgs;
    if NoneIn(open, args, |args|) {
      ArgsMention(g, d, open, args, l);
      DeclaredSnoc(d.lines, l);
    } else {
      var i :| 0 <= i < |args| && args[i].Ref? && args[i].n in open;
      assert Refers(args, args[i].n);
      ReferenceMentions(d.ids, args, args[i].n, l);
      MentionedEarly(d.lines, d.lines + [l], |d.lines|, d.ids[args[i].n]);
    }
  }

  lemma DeclaredPrefix(lines: seq<Line>, more: seq<Line>)
    requires lines <= more && Declared(more)
    ensures Declared(lines)
  {
    hide Mentions, ObjIds;
    assert forall i :: 0 <= i < |lines| ==> lines[i] == more[i] && lines[..i] == more[..i];
  }

  /** The search `r` succeeds exactly when the dump does, and has then met the same objects. */
  ghost predicate Mirrors(r: Search, d: Dump, ok: bool) {
    (r.Seen? <==> ok && Declared(d.lines)) && (r.Seen? ==> r.objs == d.ids.Keys)
  }

  lemma {:induction false} RefMirrors(g: Graph, d: Dump, open: set<nat>, n: nat)
    requires Closed(g) && n < |g| && CleanFrom(g, n) && IdsOk(g, d, open) && Declared(d.lines)
    ensures Mirrors(SearchRef(g, d.ids.Keys, open, n), DumpRef(g, d, n), n !in open)
    decreases All(g) - d.ids.Keys, 1, 0
  {
    hide IdsOk, Declared, CleanFrom, DumpNode, SearchNode;
    OpenKnown(g, d, open);
    if n !in d.ids {
      assert n in All(g) - d.ids.Keys;
      PutOk(g, d, open, n);
      assert Put(d, n).ids.Keys == d.ids.Keys + {n};
      NodeMirrors(g, Put(d, n), open, n);
    }
  }

  lemma {:induction false} ArgsMirror(g: Graph, d: Dump, open: set<nat>, args: seq<Arg>, i: nat)
    requires Closed(g) && ArgsClean(g, args) && ArgsIn(g, args) && i <= |args|
    requires IdsOk(g, d, open) && Declared(d.lines)
    ensures Mirrors(SearchArgs(g, d.ids.Keys, open, args, i), DumpArgs(g, d, args, i), NoneIn(open, args, i))
    decreases All(g) - d.ids.Keys, 2, i
  {
    hide IdsOk, Declared, CleanFrom, DumpRef, SearchRef, CleanArgs;
    if i > 0 {
      ArgsMirror(g, d, open, args, i - 1);
      ArgsIdsOk(g, d, open, args, i - 1);
      var d1, d2 := DumpArgs(g, d, args, i - 1), DumpArgs(g, d, args, i);
      if Declared(d2.lines) {
        assert d1.lines <= d2.lines;
        DeclaredPrefix(d1.lines, d2.lines);
      }
      if Declared(d1.lines) && args[i - 1].Ref? {
        RefMirrors(g, d1, open, args[i - 1].n);
      }
    }
  }

  lemma {:induction false} NodeMirrors(g: Graph, d: Dump, open: set<nat>, n: nat)
    requires Closed(g) && CleanFrom(g, n) && n < |g| && n !in open && IdsOk(g, d, open + {n}) && Declared(d.lines)
    ensures Mirrors(SearchNode(g, d.ids.Keys, open, n), DumpNode(g, d, n), true)
    decreases All(g) - d.ids.Keys, 4, 0
  {
    hide IdsOk, Declared, CleanFrom, CleanArgs, DumpArgs, DumpMessages, Named, SearchArgs, SearchMessages, NoneIn;
    var args, wide := g[n].args, open + {n};
    var d1, d' := DumpArgs(g, d, args, |args|), DumpNode(g, d, n);
    var d2 := WithObj(g, d1, n);
    OwnArgs(g, n);
    ArgsIdsOk(g, d, wide, args, |args|);
    ArgsMirror(g, d, wide, args, |args|);
    assert d1.lines <= d2.lines <= d'.lines;
    if Declared(d'.lines) {
      DeclaredPrefix(d1.lines, d'.lines);
      DeclaredPrefix(d2.lines, d'.lines);
    }
    if Declared(d1.lines) {
      LineDeclaredIff(g, d1, wide, args, ObjLine(if n in d1.ids then d1.ids[n] else 0, g[n].cls, Named(d1.ids, args)));
    }
    if Declared(d1.lines) && Declared(d2.lines) {
      WithObjOk(g, d1, wide, n);
      assert wide - {n} == open;
      OpenKnown(g, d, wide);
      MessagesMirror(g, d2, open, n, |g[n].mess|);
    }
  }

  lemma OwnIdDeclared(g: Graph, d: Dump, open: set<nat>, n: nat)
    requires IdsOk(g, d, open) && n in d.ids && n !in open
    ensures d.ids[n] in ObjIds(d.lines)
  {
  }

  lemma {:induction false} MessagesMirror(g: Graph, d: Dump, open: set<nat>, n: nat, k: nat)
    requires Closed(g) && CleanFrom(g, n) && n < |g| && k <= |g[n].mess| && IdsOk(g, d, open)
    requires n in d.ids && n !in open && Declared(d.lines)
    ensures Mirrors(SearchMessages(g, d.ids.Keys, open, n, k), DumpMessages(g, d, n, k), true)
    decreases All(g) - d.ids.Keys, 3, k
  {
    hide IdsOk, Declared, CleanFrom, CleanArgs, DumpArgs, Named, SearchArgs, NoneIn;
    if k > 0 {
      OwnArgs(g, n);
      MessagesMirror(g, d, open, n, k - 1);
      MessagesIdsOk(g, d, open, n, k - 1);
      var msg, d1 := g[n].mess[k - 1], DumpMessages(g, d, n, k - 1);
      var d2, d3 := DumpArgs(g, d1, msg.args, |msg.args|), DumpMessages(g, d, n, k);
      assert d1.lines <= d2.lines <= d3.lines;
      if Declared(d3.lines) {
        DeclaredPrefix(d1.lines, d3.lines);
        DeclaredPrefix(d2.lines, d3.lines);
      }
      if Declared(d1.lines) {
        ArgsIdsOk(g, d1, open, msg.args, |msg.args|);
        ArgsMirror(g, d1, open, msg.args, |msg.args|);
        OwnIdDeclared(g, d2, open, n);
        if Declared(d2.lines) {
          LineDeclaredIff(g, d2, open, msg.args, MessLine(d2.ids[n], msg.sel, Named(d2.ids, msg.args)));
        }
      }
    }
  }

  /** The exact condition: every id is mentioned only after its object line if and only if a depth-first search never
      leads back to an object whose description is being searched. */
  lemma DumpDeclares(g: Graph, root: nat)
    requires Closed(g) && CleanFrom(g, root) && root < |g|
    ensures Declared(DumpGraph(g, root).lines) <==> BackFree(g, root)
  {
    hide CleanFrom, DumpNode, SearchNode;
    var d := Put(START, root);
    StartOk(g);
    PutOk(g, START, {}, root);
    assert {} + {root} == {root} && d.ids.Keys == {root};
    NodeMirrors(g, d, {}, root);
  }

  /** None of the open objects is reachable from `n`. */
  ghost predicate Away(g: Graph, open: set<nat>, n: nat) {
    forall o :: o in open ==> !Reaches(g, n, o)
  }

  /** Behind each argument no reference cycle uses a description edge, and no object is open. */
  ghost predicate AllAway(g: Graph, open: set<nat>, args: seq<Arg>) {
    forall i :: 0 <= i < |args| && args[i].Ref? ==> Away(g, open, args[i].n) && NoDescCycleFrom(g, args[i].n)
  }

  lemma AwayNotOpen(g: Graph, open: set<nat>, n: nat)
    requires Away(g, open, n)
    ensures n !in open
  {
    ReachesSelf(g, n);
  }

  lemma AwayStep(g: Graph, open: set<nat>, n: nat, m: nat)
    requires NoDescCycleFrom(g, n) && Away(g, open, n) && Edge(g, n, m)
    ensures NoDescCycleFrom(g, m) && Away(g, open, m)
  {
    hide Reaches, Edge, DescEdge;
    forall o: nat | Reaches(g, m, o) ensures Reaches(g, n, o) {
      ReachesStep(g, n, m, o);
    }
  }

  /** What a description refers to does not reach the objects still open, nor the object described. */
  lemma DescAway(g: Graph, open: set<nat>, n: nat)
    requires n < |g| && NoDescCycleFrom(g, n) && Away(g, open, n)
    ensures AllAway(g, open + {n}, g[n].args)
  {
    hide Reaches, NoDescCycleFrom;
    var args := g[n].args;
    forall i | 0 <= i < |args| && args[i].Ref?
      ensures Away(g, open + {n}, args[i].n) && NoDescCycleFrom(g, args[i].n)
    {
      assert DescEdge(g, n, args[i].n);
      NotBack(g, n, args[i].n);
      AwayStep(g, open, n, args[i].n);
    }
  }

  lemma NotBack(g: Graph, n: nat, m: nat)
    requires NoDescCycleFrom(g, n) && DescEdge(g, n, m)
    ensures !Reaches(g, m, n)
  {
    ReachesSelf(g, n);
  }

  lemma MessAway(g: Graph, open: set<nat>, n: nat, k: nat)
    requires n < |g| && k < |g[n].mess| && NoDescCycleFrom(g, n) && Away(g, open, n)
    ensures AllAway(g, open, g[n].mess[k].args)
  {
    hide Reaches, NoDescCycleFrom, Away;
    var args := g[n].mess[k].args;
    forall i | 0 <= i < |args| && args[i].Ref? ensures Away(g, open, args[i].n) && NoDescCycleFrom(g, args[i].n) {
      assert Refers(args, args[i].n) && Edge(g, n, args[i].n);
      AwayStep(g, open, n, args[i].n);
    }
  }

  lemma {:induction false} ArgsFree(g: Graph, seen: set<nat>, open: set<nat>, args: seq<Arg>, i: nat)
    requires Closed(g) && ArgsIn(g, args) && i <= |args| && AllAway(g, open, args)
    ensures SearchArgs(g, seen, open, args, i).Seen?
    decreases All(g) - seen, 2, i
  {
    hide Away, NoDescCycleFrom, SearchNode;
    if i > 0 {
      ArgsFree(g, seen, open, args, i - 1);
      var objs := SearchArgs(g, seen, open, args, i - 1).objs;
      if args[i - 1].Ref? {
        var m := args[i - 1].n;
        AwayNotOpen(g, open, m);
        if m !in objs {
          assert m in All(g) - objs;
          NodeFree(g, objs + {m}, open, m);
        }
      }
    }
  }

  lemma {:induction false} NodeFree(g: Graph, seen: set<nat>, open: set<nat>, n: nat)
    requires Closed(g) && n < |g| && NoDescCycleFrom(g, n) && Away(g, open, n)
    ensures SearchNode(g, seen, open, n).Seen?
    decreases All(g) - seen, 4, 0
  {
    hide Away, NoDescCycleFrom, SearchArgs, SearchMessages, AllAway;
    DescAway(g, open, n);
    ArgsFree(g, seen, open + {n}, g[n].args, |g[n].args|);
    MessagesFree(g, SearchArgs(g, seen, open + {n}, g[n].args, |g[n].args|).objs, open, n, |g[n].mess|);
  }

  lemma {:induction false} MessagesFree(g: Graph, seen: set<nat>, open: set<nat>, n: nat, k: nat)
    requires Closed(g) && n < |g| && k <= |g[n].mess| && NoDescCycleFrom(g, n) && Away(g, open, n)
    ensures SearchMessages(g, seen, open, n, k).Seen?
    decreases All(g) - seen, 3, k
  {
    hide Away, NoDescCycleFrom, SearchArgs, AllAway;
    if k > 0 {
      var args := g[n].mess[k - 1].args;
      MessagesFree(g, seen, open, n, k - 1);
      MessAway(g, open, n, k - 1);
      ArgsFree(g, SearchMessages(g, seen, open, n, k - 1).objs, open, args, |args|);
    }
  }

  /** No search leads back when no reference cycle behind the root uses a description edge. */
  lemma NoCycleBackFree(g: Graph, root: nat)
    requires Closed(g) && root < |g| && NoDescCycleFrom(g, root)
    ensures BackFree(g, root)
  {
    NodeFree(g, {root}, {}, root);
  }

  // ---------------------------------------------------------------- the lines of one object

  /** The lines that carry id `k`, in order. */
  function LinesOf(lines: seq<Line>, k: int): seq<Line> {
    if lines == [] then []
    else LinesOf(lines[..|lines| - 1], k) + if lines[|lines| - 1].id == k then [lines[|lines| - 1]] else []
  }

  lemma LinesOfSnoc(lines: seq<Line>, l: Line, k: int)
    ensures LinesOf(lines + [l], k) == if l.id == k then LinesOf(lines, k) + [l] else LinesOf(lines, k)
  {
    assert (lines + [l])[..|lines + [l]| - 1] == lines;
  }

  /** What object `n` should give: its line, and one for each of the first `k` messages of its state. */
  function Script(g: Graph, ids: map<nat, int>, n: nat, k: nat): seq<Line>
    requires n < |g| && k <= |g[n].mess| && n in ids
  {
    if k == 0 then [ObjLine(ids[n], g[n].cls, Named(ids, g[n].args))]
    else
      var msg := g[n].mess[k - 1];
      Script(g, ids, n, k - 1) + [MessLine(ids[n], msg.sel, Named(ids, msg.args))]
  }

  lemma NamedSame(d: Dump, d': Dump, args: seq<Arg>)
    requires Continues(d, d') && forall i :: 0 <= i < |args| && args[i].Ref? ==> args[i].n in d.ids
    ensures Named(d'.ids, args) == Named(d.ids, args)
  {
    hide IdToSymbol;
    assert forall i :: 0 <= i < |args| ==> NameArg(d'.ids, args[i]) == NameArg(d.ids, args[i]);
  }

  lemma {:induction false} ScriptSame(g: Graph, d: Dump, d': Dump, n: nat, k: nat)
    requires Continues(d, d') && n < |g| && k <= |g[n].mess| && n in d.ids
    requires forall i :: 0 <= i < |g[n].args| && g[n].args[i].Ref? ==> g[n].args[i].n in d.ids
    requires forall j, i :: 0 <= j < k && 0 <= i < |g[n].mess[j].args| && g[n].mess[j].args[i].Ref? ==>
             g[n].mess[j].args[i].n in d.ids
    ensures Script(g, d'.ids, n, k) == Script(g, d.ids, n, k)
  {
    hide Named;
    NamedSame(d, d', g[n].args);
    if k > 0 {
      ScriptSame(g, d, d', n, k - 1);
      NamedSame(d, d', g[n].mess[k - 1].args);
    }
  }

  predicate IsId(d: Dump, k: int) {
    exists n :: n in d.ids && d.ids[n] == k
  }

  /** Ids not assigned yet have no lines. */
  ghost predicate Unused(d: Dump) {
    d.index >= 0 && (forall n :: n in d.ids ==> d.ids[n] <= d.index) &&
    forall k: int :: IsId(d, k) || LinesOf(d.lines, k) == []
  }

  ghost predicate Apart(d: Dump) {
    forall n, m :: n in d.ids && m in d.ids && n != m ==> d.ids[n] != d.ids[m]
  }

  /** Between `d` and `d'` the objects that have an id already, but for `n`, get no line, and the new ones all of
      theirs. */
  ghost predicate Writes(g: Graph, d: Dump, d': Dump, n: int) {
    && Unused(d') && Apart(d')
    && (forall m :: m in d.ids && m != n && m in d'.ids ==> LinesOf(d'.lines, d'.ids[m]) == LinesOf(d.lines, d.ids[m]))
    && (forall m :: m in d'.ids && m !in d.ids ==> Complete(g, d', m))
  }

  ghost predicate Complete(g: Graph, d: Dump, m: nat) {
    m < |g| && m in d.ids && Full(g, d, m) && LinesOf(d.lines, d.ids[m]) == Script(g, d.ids, m, |g[m].mess|)
  }

  lemma FullRefs(g: Graph, d: Dump, n: nat)
    requires n < |g| && Full(g, d, n)
    ensures forall i :: 0 <= i < |g[n].args| && g[n].args[i].Ref? ==> g[n].args[i].n in d.ids
    ensures forall j, i :: 0 <= j < |g[n].mess| && 0 <= i < |g[n].mess[j].args| && g[n].mess[j].args[i].Ref? ==>
            g[n].mess[j].args[i].n in d.ids
  {
    forall i | 0 <= i < |g[n].args| && g[n].args[i].Ref? ensures g[n].args[i].n in d.ids {
      assert DescEdge(g, n, g[n].args[i].n) && Edge(g, n, g[n].args[i].n);
    }
    forall j, i | 0 <= j < |g[n].mess| && 0 <= i < |g[n].mess[j].args| && g[n].mess[j].args[i].Ref?
      ensures g[n].mess[j].args[i].n in d.ids
    {
      assert Refers(g[n].mess[j].args, g[n].mess[j].args[i].n) && Edge(g, n, g[n].mess[j].args[i].n);
    }
  }

  lemma CompleteStays(g: Graph, d: Dump, d': Dump, m: nat)
    requires Continues(d, d') && Complete(g, d, m) && LinesOf(d'.lines, d'.ids[m]) == LinesOf(d.lines, d.ids[m])
    ensures Complete(g, d', m)
  {
    hide LinesOf, Script, Edge;
    FullRefs(g, d, m);
    ScriptSame(g, d, d', m, |g[m].mess|);
  }

  lemma WritesThen(g: Graph, d: Dump, d1: Dump, d2: Dump, n: int)
    requires Continues(d, d1) && Continues(d1, d2) && Writes(g, d, d1, n) && Writes(g, d1, d2, n)
             && (n in d.ids || n < 0)
    ensures Writes(g, d, d2, n)
  {
    hide LinesOf, Complete, Unused, Apart;
    forall m | m in d2.ids && m !in d.ids ensures Complete(g, d2, m) {
      if m in d1.ids {
        CompleteStays(g, d1, d2, m);
      }
    }
  }

  lemma PutUnused(d: Dump, n: nat)
    requires Unused(d) && Apart(d) && n !in d.ids
    ensures Unused(Put(d, n)) && Apart(Put(d, n)) && LinesOf(d.lines, d.index + 1) == []
  {
    hide LinesOf;
    forall k: int ensures IsId(Put(d, n), k) <==> IsId(d, k) || k == d.index + 1 {
      if m :| m in d.ids && d.ids[m] == k {
        assert Put(d, n).ids[m] == k;
      }
      assert Put(d, n).ids[n] == d.index + 1;
    }
    assert !IsId(d, d.index + 1);
  }

  lemma {:induction false} RefWrites(g: Graph, d: Dump, n: nat, busy: int)
    requires Closed(g) && n < |g| && Unused(d) && Apart(d)
    ensures Writes(g, d, DumpRef(g, d, n), busy)
    decreases All(g) - d.ids.Keys, 1, 0
  {
    hide LinesOf, Script, DumpNode, Edge;
    if n !in d.ids {
      assert n in All(g) - d.ids.Keys;
      PutUnused(d, n);
      NodeWrites(g, Put(d, n), n);
      NodeVisits(g, Put(d, n), n);
    }
  }

  lemma WritesNone(g: Graph, d: Dump, busy: int)
    requires Unused(d) && Apart(d)
    ensures Writes(g, d, d, busy)
  {
  }

  lemma {:induction false} ArgsWrite(g: Graph, d: Dump, args: seq<Arg>, i: nat)
    requires Closed(g) && ArgsIn(g, args) && i <= |args| && Unused(d) && Apart(d)
    ensures Writes(g, d, DumpArgs(g, d, args, i), -1)
    decreases All(g) - d.ids.Keys, 2, i
  {
    hide Complete, Unused, Apart, LinesOf, DumpRef;
    if i == 0 {
      WritesNone(g, d, -1);
    } else {
      var d1 := DumpArgs(g, d, args, i - 1);
      ArgsWrite(g, d, args, i - 1);
      if args[i - 1].Ref? {
        RefWrites(g, d1, args[i - 1].n, -1);
        WritesThen(g, d, d1, DumpRef(g, d1, args[i - 1].n), -1);
      }
    }
  }

  /** A line of object `n` touches the lines of no other object. */
  lemma WritesLine(g: Graph, d: Dump, d': Dump, n: nat, l: Line)
    requires n in d.ids && l.id == d.ids[n] && d' == d.(lines := d.lines + [l]) && Unused(d) && Apart(d)
    ensures Writes(g, d, d', n) && LinesOf(d'.lines, d.ids[n]) == LinesOf(d.lines, d.ids[n]) + [l]
  {
    hide LinesOf;
    forall k ensures LinesOf(d'.lines, k) == if l.id == k then LinesOf(d.lines, k) + [l] else LinesOf(d.lines, k) {
      LinesOfSnoc(d.lines, l, k);
    }
  }

  lemma Wider(g: Graph, d: Dump, d': Dump, n: nat)
    requires Continues(d, d') && Writes(g, d, d', -1) && n in d.ids
    ensures Writes(g, d, d', n) && LinesOf(d'.lines, d'.ids[n]) == LinesOf(d.lines, d.ids[n])
  {
    hide LinesOf, Complete, Unused, Apart;
  }

  /** An object whose lines are still to come gets all of them. */
  lemma {:induction false} NodeWrites(g: Graph, d: Dump, n: nat)
    requires Closed(g) && n < |g| && n in d.ids && Unused(d) && Apart(d) && LinesOf(d.lines, d.ids[n]) == []
    ensures Writes(g, d, DumpNode(g, d, n), n)
    ensures var d' := DumpNode(g, d, n); LinesOf(d'.lines, d'.ids[n]) == Script(g, d'.ids, n, |g[n].mess|)
    decreases All(g) - d.ids.Keys, 4, 0
  {
    hide LinesOf, Complete, Unused, Apart, DumpArgs, DumpMessages, Named;
    var args := g[n].args;
    var d1 := DumpArgs(g, d, args, |args|);
    ArgsWrite(g, d, args, |args|);
    Wider(g, d, d1, n);
    var l := ObjLine(d1.ids[n], g[n].cls, Named(d1.ids, args));
    var d2 := WithObj(g, d1, n);
    WritesLine(g, d1, d2, n, l);
    WritesThen(g, d, d1, d2, n);
    MessagesWrite(g, d2, n, |g[n].mess|);
    WritesThen(g, d, d2, DumpNode(g, d, n), n);
  }

  lemma {:induction false} MessagesWrite(g: Graph, d: Dump, n: nat, k: nat)
    requires Closed(g) && n < |g| && k <= |g[n].mess| && n in d.ids && Unused(d) && Apart(d)
    requires LinesOf(d.lines, d.ids[n]) == Script(g, d.ids, n, 0)
    requires forall i :: 0 <= i < |g[n].args| && g[n].args[i].Ref? ==> g[n].args[i].n in d.ids
    ensures var d' := DumpMessages(g, d, n, k);
            Writes(g, d, d', n) && LinesOf(d'.lines, d'.ids[n]) == Script(g, d'.ids, n, k)
    decreases All(g) - d.ids.Keys, 3, k
  {
    hide LinesOf, Complete, Unused, Apart, DumpArgs, Named;
    if k == 0 {
      WritesNone(g, d, n);
    } else {
      var msg, d1 := g[n].mess[k - 1], DumpMessages(g, d, n, k - 1);
      var d2 := DumpArgs(g, d1, msg.args, |msg.args|);
      MessagesWrite(g, d, n, k - 1);
      ArgsWrite(g, d1, msg.args, |msg.args|);
      Wider(g, d1, d2, n);
      WritesThen(g, d, d1, d2, n);
      MessagesHave(g, d, n, k - 1);
      ScriptSame(g, d1, d2, n, k - 1);
      var l := MessLine(d2.ids[n], msg.sel, Named(d2.ids, msg.args));
      WritesLine(g, d2, WithMess(g, d2, n, msg), n, l);
      WritesThen(g, d, d2, WithMess(g, d2, n, msg), n);
    }
  }

  /** After `k` messages everything they refer to has an id. */
  lemma {:induction false} MessagesHave(g: Graph, d: Dump, n: nat, k: nat)
    requires Closed(g) && n < |g| && k <= |g[n].mess|
    ensures forall j, i :: 0 <= j < k && 0 <= i < |g[n].mess[j].args| && g[n].mess[j].args[i].Ref? ==>
              g[n].mess[j].args[i].n in DumpMessages(g, d, n, k).ids
    decreases k
  {
    hide DumpArgs, Named;
    if k > 0 {
      MessagesHave(g, d, n, k - 1);
      var msg, d1 := g[n].mess[k - 1], DumpMessages(g, d, n, k - 1);
      var d2 := DumpArgs(g, d1, msg.args, |msg.args|);
      assert Continues(d1, d2) && DumpMessages(g, d, n, k).ids == d2.ids;
    }
  }

  /** Every dumped object has its object line and then the messages of its state, in order. */
  lemma DumpWrites(g: Graph, root: nat, m: nat)
    requires Closed(g) && root < |g| && m in DumpGraph(g, root).ids
    ensures Complete(g, DumpGraph(g, root), m)
  {
    hide LinesOf, Script, DumpNode, Edge;
    var d0 := Put(START, root);
    forall k ensures LinesOf(START.lines, k) == [] {
      NoLines(k);
    }
    NodeWrites(g, d0, root);
    NodeVisits(g, d0, root);
  }

  lemma NoLines(k: int)
    ensures LinesOf([], k) == []
  {
  }

  // ---------------------------------------------------------------- loading

  /** A loaded argument: an atom, or an object known by its id. */
  datatype LoadedArg = Value(a: Atom) | Object(id: int)

  datatype LoadedMess = LoadedMess(sel: string, args: seq<LoadedArg>)

  datatype Loaded = Loaded(cls: string, args: seq<LoadedArg>, got: seq<LoadedMess>)

  type Table = map<int, Loaded>

  /** An id symbol becomes the object, if there is one, and 0 if there is none. */
  function ResolveArg(known: set<int>, a: Atom): LoadedArg {
    if a.Sym? && StringToId(a.s) > 0 then
      if StringToId(a.s) in known then Object(StringToId(a.s)) else Value(Num(0))
    else Value(a)
  }

  /** `object_loader_replace_symbols` */
  function Resolve(known: set<int>, args: seq<Atom>): (r: seq<LoadedArg>)
    ensures |r| == |args|
  {
    seq(|args|, i requires 0 <= i < |args| => ResolveArg(known, args[i]))
  }

  /** `object_loader_restore_object` and `object_loader_restore_message`: an id that is taken is not restored twice,
      and a message to an unknown object is lost. */
  function LoadLine(t: Table, l: Line): Table {
    match l
    case ObjLine(id, cls, args) => if id > 0 && id !in t then t[id := Loaded(cls, Resolve(t.Keys, args), [])] else t
    case MessLine(id, sel, args) =>
      if id in t then t[id := t[id].(got := t[id].got + [LoadedMess(sel, Resolve(t.Keys, args))])] else t
  }

  function Load(lines: seq<Line>): Table {
    if lines == [] then map[] else LoadLine(Load(lines[..|lines| - 1]), lines[|lines| - 1])
  }

  class ObjectLoader {
    var table: Table

    constructor ()
      ensures table == map[]
    {
      table := map[];
    }

    method RestoreObject(id: int, cls: string, args: seq<Atom>)
      modifies this
      ensures table == LoadLine(old(table), ObjLine(id, cls, args))
    {
      if id > 0 && id !in table {
        var at := ReplaceSymbols(args);
        table := table[id := Loaded(cls, at, [])];
      }
    }

    method RestoreMessage(id: int, sel: string, args: seq<Atom>)
      modifies this
      ensures table == LoadLine(old(table), MessLine(id, sel, args))
    {
      var at := ReplaceSymbols(args);
      if id in table {
        table := table[id := table[id].(got := table[id].got + [LoadedMess(sel, at)])];
      }
    }

    method ReplaceSymbols(at: seq<Atom>) returns (args: seq<LoadedArg>)
      ensures args == Resolve(table.Keys, at)
    {
      args := [];
      var i := 0;
      while i < |at|
        invariant i <= |at| && |args| == i && forall j :: 0 <= j < i ==> args[j] == ResolveArg(table.Keys, at[j])
      {
        if at[i].Sym? && StringToId(at[i].s) > 0 {
          if StringToId(at[i].s) in table {
            args := args + [Object(StringToId(at[i].s))];
          } else {
            args := args + [Value(Num(0))];
          }
        } else {
          args := args + [Value(at[i])];
        }
        i := i + 1;
      }
      assert args == Resolve(table.Keys, at);
    }

    method LoadLines(lines: seq<Line>)
      requires table == map[]
      modifies this
      ensures table == Load(lines)
    {
      hide LoadLine;
      var i := 0;
      while i < |lines|
        invariant i <= |lines| && table == Load(lines[..i])
      {
        assert lines[..i + 1][..i] == lines[..i];
        match lines[i] {
          case ObjLine(id, cls, args) => RestoreObject(id, cls, args);
          case MessLine(id, sel, args) => RestoreMessage(id, sel, args);
        }
        i := i + 1;
      }
      assert lines[..i] == lines;
    }
  }

  /** A line for an object whose id is taken, or is no id, changes nothing; and a message to an object that is not there
      is lost. */
  lemma Refused(lines: seq<Line>, id: int, name: string, args: seq<Atom>)
    ensures id in Load(lines) || id <= 0 ==> Load(lines + [ObjLine(id, name, args)]) == Load(lines)
    ensures id !in Load(lines) ==> Load(lines + [MessLine(id, name, args)]) == Load(lines)
  {
    var o, m := ObjLine(id, name, args), MessLine(id, name, args);
    assert (lines + [o])[..|lines|] == lines && (lines + [m])[..|lines|] == lines;
    PositiveIds(lines);
  }

  lemma {:induction false} PositiveIds(lines: seq<Line>)
    ensures forall k :: k in Load(lines) ==> k > 0
  {
    hide Resolve;
    if lines != [] {
      PositiveIds(lines[..|lines| - 1]);
    }
  }

  /** Among arguments an id that is loaded stands for its object, and any other positive id for the number 0; anything
      else is itself. */
  lemma ResolvedArgument(known: set<int>, args: seq<Atom>, i: nat)
    requires i < |args|
    ensures var a, r := args[i], Resolve(known, args)[i];
            if a.Sym? && StringToId(a.s) in known && StringToId(a.s) > 0 then r == Object(StringToId(a.s))
            else if a.Sym? && StringToId(a.s) > 0 then r == Value(Num(0))
            else r == Value(a)
  {
  }

  /** An argument when every id is known. */
  function Known(a: Atom): LoadedArg {
    if a.Sym? && StringToId(a.s) > 0 then Object(StringToId(a.s)) else Value(a)
  }

  function AllKnown(args: seq<Atom>): (r: seq<LoadedArg>)
    ensures |r| == |args|
  {
    seq(|args|, i requires 0 <= i < |args| => Known(args[i]))
  }

  /** What the lines of one object build. */
  function Assembled(lines: seq<Line>): Loaded {
    if lines == [] then Loaded("", [], [])
    else
      var rest := Assembled(lines[..|lines| - 1]);
      match lines[|lines| - 1]
      case ObjLine(_, cls, args) => Loaded(cls, AllKnown(args), [])
      case MessLine(_, sel, args) => rest.(got := rest.got + [LoadedMess(sel, AllKnown(args))])
  }

  lemma AssembledSnoc(lines: seq<Line>, l: Line)
    ensures Assembled(lines + [l]) ==
            match l
            case ObjLine(_, cls, args) => Loaded(cls, AllKnown(args), [])
            case MessLine(_, sel, args) =>
              Assembled(lines).(got := Assembled(lines).got + [LoadedMess(sel, AllKnown(args))])
  {
    assert (lines + [l])[..|lines + [l]| - 1] == lines;
  }

  /** All the arguments of a line are resolved exactly when all the ids among them are known. */
  lemma ResolvesAllIff(known: set<int>, l: Line)
    requires l.MessLine? ==> l.id in known
    ensures Resolve(known, l.args) == AllKnown(l.args) <==> forall k :: Mentions(l, k) ==> k in known
  {
    hide StringToId;
    if Resolve(known, l.args) == AllKnown(l.args) {
      forall k | Mentions(l, k) ensures k in known {
        if !(l.MessLine? && l.id == k) {
          var i :| 0 <= i < |l.args| && MentionsId(l.args[i], k);
          assert ResolveArg(known, l.args[i]) == Resolve(known, l.args)[i] == AllKnown(l.args)[i] == Known(l.args[i]);
        }
      }
    }
    if forall k :: Mentions(l, k) ==> k in known {
      forall i | 0 <= i < |l.args| ensures ResolveArg(known, l.args[i]) == Known(l.args[i]) {
        var a := l.args[i];
        if a.Sym? && StringToId(a.s) > 0 {
          assert MentionsId(a, StringToId(a.s)) && Mentions(l, StringToId(a.s));
        }
      }
    }
  }

  /** An object line comes before the messages to its object. */
  ghost predicate ObjFirst(lines: seq<Line>) {
    forall i :: 0 <= i < |lines| && lines[i].MessLine? ==> lines[i].id in ObjIds(lines[..i])
  }

  /** The entry of `k` is what the lines of `k` say, with every id known. */
  predicate Holds(lines: seq<Line>, k: int) {
    k in Load(lines) && Load(lines)[k] == Assembled(LinesOf(lines, k))
  }

  /** Exactly when every id is declared before it is mentioned, the table holds for each id what its lines say. */
  lemma {:induction false} LoadIs(lines: seq<Line>)
    requires ObjFirst(lines) && Distinct(ObjIds(lines)) && forall i :: 0 <= i < |lines| ==> lines[i].id > 0
    ensures forall k :: k in Load(lines) <==> k in ObjIds(lines)
    ensures (forall k :: k in Load(lines) ==> Holds(lines, k)) <==> Declared(lines)
  {
    hide Load, Holds, Declared, LinesOf, Distinct, ObjIds;
    if lines == [] {
      LoadsNothing();
    } else {
      var init, l := lines[..|lines| - 1], lines[|lines| - 1];
      assert lines == init + [l];
      InitOk(init, l);
      LoadIs(init);
      LoadsNext(init, l);
      if Declared(lines) {
        DeclaredPrefix(init, lines);
        LastMentions(init, l);
      }
      if Declared(init) && forall k :: Mentions(l, k) ==> k in ObjIds(init) {
        DeclaredSnoc(init, l);
      }
    }
  }

  lemma LoadsNothing()
    ensures Load([]) == map[] && ObjIds([]) == [] && Declared([])
  {
  }

  lemma LastMentions(init: seq<Line>, l: Line)
    requires Declared(init + [l])
    ensures forall k :: Mentions(l, k) ==> k in ObjIds(init)
  {
    hide Mentions, ObjIds;
    var lines := init + [l];
    assert lines[..|init|] == init && lines[|init|] == l;
  }

  /** One more line is held when what was held before still is, and the line mentions known ids only. */
  lemma LoadsNext(init: seq<Line>, l: Line)
    requires (forall k :: k in Load(init) <==> k in ObjIds(init)) && l.id > 0
    requires if l.ObjLine? then l.id !in ObjIds(init) else l.id in ObjIds(init)
    ensures forall k :: k in Load(init + [l]) <==> k in ObjIds(init + [l])
    ensures (forall k :: k in Load(init + [l]) ==> Holds(init + [l], k)) <==>
            (forall k :: k in Load(init) ==> Holds(init, k)) && forall k :: Mentions(l, k) ==> k in ObjIds(init)
  {
    hide Resolve, AllKnown, Assembled, LinesOf, Mentions, ObjIds;
    var lines := init + [l];
    assert lines[..|lines| - 1] == init;
    ObjIdsSnoc(init, l);
    forall k ensures LinesOf(lines, k) == if l.id == k then LinesOf(init, k) + [l] else LinesOf(init, k) {
      LinesOfSnoc(init, l, k);
    }
    AssembledSnoc(LinesOf(init, l.id), l);
    ResolvesAllIff(Load(init).Keys, l);
    forall k | k in Load(init) && k != l.id ensures Holds(lines, k) <==> Holds(init, k) {
    }
    OwnHolds(init, l);
  }

  /** The object of the line. */
  lemma OwnHolds(init: seq<Line>, l: Line)
    requires l.id > 0 && if l.ObjLine? then l.id !in Load(init) else l.id in Load(init)
    ensures Holds(init + [l], l.id) <==>
            Resolve(Load(init).Keys, l.args) == AllKnown(l.args) && (l.MessLine? ==> Holds(init, l.id))
  {
    hide Resolve, AllKnown, Assembled, LinesOf;
    var lines := init + [l];
    assert lines[..|lines| - 1] == init;
    LinesOfSnoc(init, l, l.id);
    AssembledSnoc(LinesOf(init, l.id), l);
    if l.MessLine? {
      var x, y := Load(init)[l.id], Assembled(LinesOf(init, l.id));
      SameSnoc(x.got, y.got, LoadedMess(l.sel, Resolve(Load(init).Keys, l.args)), LoadedMess(l.sel, AllKnown(l.args)));
    }
  }

  lemma SameSnoc<T>(a: seq<T>, b: seq<T>, x: T, y: T)
    ensures a + [x] == b + [y] <==> a == b && x == y
  {
    if a + [x] == b + [y] {
      assert (a + [x])[..|a|] == a && (b + [y])[..|b|] == b && (a + [x])[|a|] == x && (b + [y])[|b|] == y;
    }
  }

  lemma InitOk(init: seq<Line>, l: Line)
    requires ObjFirst(init + [l]) && Distinct(ObjIds(init + [l]))
    requires forall i :: 0 <= i < |init + [l]| ==> (init + [l])[i].id > 0
    ensures ObjFirst(init) && Distinct(ObjIds(init)) && (forall i :: 0 <= i < |init| ==> init[i].id > 0)
    ensures l.id > 0 && if l.ObjLine? then l.id !in ObjIds(init) else l.id in ObjIds(init)
  {
    hide ObjIds;
    var lines := init + [l];
    ObjIdsSnoc(init, l);
    assert forall i :: 0 <= i < |init| ==> lines[i] == init[i] && lines[..i] == init[..i];
    var a, b := ObjIds(init), ObjIds(lines);
    assert forall i :: 0 <= i < |a| ==> b[i] == a[i];
    assert lines[..|init|] == init && lines[|init|] == l;
    if l.ObjLine? {
      assert b[|a|] == l.id;
    }
  }

  // ---------------------------------------------------------------- the loaded graph is the dumped one

  /** Arguments with objects in place of references. */
  function Image(ids: map<nat, int>, a: Arg): LoadedArg {
    match a
    case Plain(x) => Value(x)
    case Ref(n) => Object(if n in ids then ids[n] else 0)
  }

  function Images(ids: map<nat, int>, args: seq<Arg>): (r: seq<LoadedArg>)
    ensures |r| == |args|
  {
    seq(|args|, i requires 0 <= i < |args| => Image(ids, args[i]))
  }

  function MessImages(ids: map<nat, int>, ms: seq<Message>): (r: seq<LoadedMess>)
    ensures |r| == |ms|
  {
    seq(|ms|, k requires 0 <= k < |ms| => LoadedMess(ms[k].sel, Images(ids, ms[k].args)))
  }

  /** Object `n` of the graph, with its references renamed to ids. */
  function NodeImage(g: Graph, ids: map<nat, int>, n: nat): Loaded
    requires n < |g|
  {
    Loaded(g[n].cls, Images(ids, g[n].args), MessImages(ids, g[n].mess))
  }

  lemma KnownNamed(ids: map<nat, int>, args: seq<Arg>)
    requires CleanArgs(args) && forall i :: 0 <= i < |args| && args[i].Ref? ==> args[i].n in ids && ids[args[i].n] > 0
    ensures AllKnown(Named(ids, args)) == Images(ids, args)
  {
    hide StringToId, IdToSymbol;
    forall i | 0 <= i < |args| ensures Known(NameArg(ids, args[i])) == Image(ids, args[i]) {
      assert CleanArg(args[i]);
      if args[i].Ref? {
        IdRoundTrip(ids[args[i].n]);
      }
    }
  }

  lemma {:induction false} ScriptAssembles(g: Graph, ids: map<nat, int>, n: nat, k: nat)
    requires n < |g| && k <= |g[n].mess| && n in ids && CleanArgs(g[n].args)
    requires forall j :: 0 <= j < |g[n].mess| ==> CleanArgs(g[n].mess[j].args)
    requires forall m :: m in ids ==> ids[m] > 0
    requires forall i :: 0 <= i < |g[n].args| && g[n].args[i].Ref? ==> g[n].args[i].n in ids
    requires forall j, i :: 0 <= j < |g[n].mess| && 0 <= i < |g[n].mess[j].args| && g[n].mess[j].args[i].Ref? ==>
             g[n].mess[j].args[i].n in ids
    ensures Assembled(Script(g, ids, n, k)) == Loaded(g[n].cls, Images(ids, g[n].args), MessImages(ids, g[n].mess[..k]))
  {
    hide AllKnown, Named, Assembled, Images, CleanArgs;
    if k == 0 {
      var l := ObjLine(ids[n], g[n].cls, Named(ids, g[n].args));
      KnownNamed(ids, g[n].args);
      AssembledSnoc([], l);
      assert [] + [l] == [l];
      assert MessImages(ids, g[n].mess[..0]) == [];
    } else {
      var msg := g[n].mess[k - 1];
      ScriptAssembles(g, ids, n, k - 1);
      KnownNamed(ids, msg.args);
      AssembledSnoc(Script(g, ids, n, k - 1), MessLine(ids[n], msg.sel, Named(ids, msg.args)));
      assert g[n].mess[..k] == g[n].mess[..k - 1] + [msg];
      assert MessImages(ids, g[n].mess[..k]) ==
             MessImages(ids, g[n].mess[..k - 1]) + [LoadedMess(msg.sel, Images(ids, msg.args))];
    }
  }

  /** Every dumped object is loaded back. */
  ghost predicate LoadsBack(g: Graph, d: Dump) {
    forall m :: m in d.ids ==> LoadsNode(g, d, m)
  }

  /** Object `m` is loaded with its class, arguments and messages, every reference leading to the object with the id of
      what it referred to. */
  predicate LoadsNode(g: Graph, d: Dump, m: nat)
    requires m in d.ids
  {
    m < |g| && d.ids[m] in Load(d.lines) && Load(d.lines)[d.ids[m]] == NodeImage(g, d.ids, m)
  }

  /** Loading what was dumped gives a table whose ids number the reachable objects one to one, the root being 1; and the
      table is isomorphic to the reachable part of the graph exactly when no plain symbol there looks like an id and no
      search from the root leads back to an object whose description is being searched. */
  lemma LoadedIsDumped(g: Graph, root: nat)
    requires Closed(g) && root < |g|
    ensures var d := DumpGraph(g, root);
            && d.ids[root] == 1
            && (forall m :: m in d.ids <==> Reaches(g, root, m))
            && (forall m, o :: m in d.ids && o in d.ids && m != o ==> d.ids[m] != d.ids[o])
            && (forall k :: k in Load(d.lines) <==> exists m :: m in d.ids && d.ids[m] == k)
            && (LoadsBack(g, d) <==> CleanFrom(g, root) && BackFree(g, root))
  {
    hide Reaches, Declared, Edge, DumpGraph, LinesOf, ObjIds, CleanNode, Load, BackFree, LoadsBack;
    var d := DumpGraph(g, root);
    DumpVisits(g, root);
    forall m | m in d.ids ensures Complete(g, d, m) {
      DumpWrites(g, root, m);
    }
    LineIds(g, root);
    ScriptFirst(g, d);
    LoadIs(d.lines);
    if LoadsBack(g, d) {
      LoadsClean(g, d, root);
    }
    if CleanFrom(g, root) {
      DumpDeclares(g, root);
      LoadsBackIff(g, d, root);
    }
  }

  /** Of clean objects the entry is right exactly when it is what the lines say. */
  lemma LoadsBackIff(g: Graph, d: Dump, root: nat)
    requires CleanFrom(g, root) && IdsOk(g, d, {})
    requires forall m :: m in d.ids ==> Reaches(g, root, m) && Complete(g, d, m)
    requires forall k :: k in Load(d.lines) <==> IsId(d, k)
    ensures LoadsBack(g, d) <==> forall k :: k in Load(d.lines) ==> Holds(d.lines, k)
  {
    hide Reaches, Load, Assembled, LinesOf, NodeImage, CleanNode, Complete, IdsOk;
    forall m | m in d.ids
      ensures m < |g| && IsId(d, d.ids[m]) && Assembled(LinesOf(d.lines, d.ids[m])) == NodeImage(g, d.ids, m)
    {
      CompleteIn(g, d, m);
      CompleteLoads(g, d, m);
    }
    if LoadsBack(g, d) {
      forall k | k in Load(d.lines) ensures Holds(d.lines, k) {
        var m :| m in d.ids && d.ids[m] == k;
      }
    } else {
      var m :| m in d.ids && !LoadsNode(g, d, m);
      assert IsId(d, d.ids[m]) && !Holds(d.lines, d.ids[m]);
    }
  }

  lemma CompleteIn(g: Graph, d: Dump, m: nat)
    requires Complete(g, d, m)
    ensures m < |g|
  {
  }

  /** A loaded argument that still looks like an id. */
  predicate LooksLikeId(a: LoadedArg) {
    a.Value? && a.a.Sym? && StringToId(a.a.s) > 0
  }

  ghost predicate NoneLooks(args: seq<LoadedArg>) {
    forall i :: 0 <= i < |args| ==> !LooksLikeId(args[i])
  }

  ghost predicate NoneLeft(x: Loaded) {
    NoneLooks(x.args) && forall j :: 0 <= j < |x.got| ==> NoneLooks(x.got[j].args)
  }

  /** Loading leaves no symbol that looks like an id. */
  lemma {:induction false} LoadLeaves(lines: seq<Line>)
    ensures forall k :: k in Load(lines) ==> NoneLeft(Load(lines)[k])
  {
    hide Resolve, NoneLooks;
    if lines != [] {
      LoadLeaves(lines[..|lines| - 1]);
      forall known: set<int>, args: seq<Atom> ensures NoneLooks(Resolve(known, args)) {
        ResolveLeaves(known, args);
      }
    }
  }

  lemma ResolveLeaves(known: set<int>, args: seq<Atom>)
    ensures NoneLooks(Resolve(known, args))
  {
    hide StringToId;
  }

  lemma LoadsClean(g: Graph, d: Dump, root: nat)
    requires LoadsBack(g, d) && forall m :: Reaches(g, root, m) ==> m in d.ids
    ensures CleanFrom(g, root)
  {
    hide Reaches, Load, NodeImage, NoneLeft, CleanNode;
    LoadLeaves(d.lines);
    forall n: nat | n < |g| && Reaches(g, root, n) ensures CleanNode(g[n]) {
      var k := d.ids[n];
      assert k in Load(d.lines) && Load(d.lines)[k] == NodeImage(g, d.ids, n) && NoneLeft(Load(d.lines)[k]);
      ImageClean(g, d.ids, n);
    }
  }

  lemma ImageClean(g: Graph, ids: map<nat, int>, n: nat)
    requires n < |g| && NoneLeft(NodeImage(g, ids, n))
    ensures CleanNode(g[n])
  {
    hide NoneLooks, CleanArgs, Images;
    ImagesClean(ids, g[n].args);
    forall k | 0 <= k < |g[n].mess| ensures CleanArgs(g[n].mess[k].args) {
      var args := g[n].mess[k].args;
      assert NodeImage(g, ids, n).got[k].args == Images(ids, args);
      ImagesClean(ids, args);
    }
  }

  lemma ImagesClean(ids: map<nat, int>, args: seq<Arg>)
    ensures NoneLooks(Images(ids, args)) ==> CleanArgs(args)
  {
    hide StringToId;
    if NoneLooks(Images(ids, args)) {
      forall i | 0 <= i < |args| ensures CleanArg(args[i]) {
        assert !LooksLikeId(Images(ids, args)[i]);
      }
    }
  }

  /** The lines of an object so far are the first of its lines. */
  lemma {:induction false} LinesOfPrefix(lines: seq<Line>, i: nat, k: int)
    requires i <= |lines|
    ensures LinesOf(lines[..i], k) <= LinesOf(lines, k)
  {
    if i < |lines| {
      var init := lines[..|lines| - 1];
      assert init[..i] == lines[..i];
      LinesOfPrefix(init, i, k);
    } else {
      assert lines[..i] == lines;
    }
  }

  lemma {:induction false} ObjLineCounts(lines: seq<Line>, i: nat)
    requires i < |lines| && lines[i].ObjLine?
    ensures lines[i].id in ObjIds(lines)
  {
    var init := lines[..|lines| - 1];
    if i < |init| {
      ObjLineCounts(init, i);
    }
  }

  lemma {:induction false} ScriptBegins(g: Graph, ids: map<nat, int>, n: nat, k: nat)
    requires n < |g| && k <= |g[n].mess| && n in ids
    ensures var s := Script(g, ids, n, k); |s| > 0 && s[0].ObjLine? && s[0].id == ids[n]
  {
    if k > 0 {
      ScriptBegins(g, ids, n, k - 1);
    }
  }

  /** The first line of every dumped object is its object line. */
  lemma ScriptFirst(g: Graph, d: Dump)
    requires forall m :: m in d.ids ==> Complete(g, d, m)
    requires forall i :: 0 <= i < |d.lines| ==> IsId(d, d.lines[i].id)
    ensures ObjFirst(d.lines)
  {
    hide LinesOf, ObjIds, Script, Full;
    var lines := d.lines;
    forall i | 0 <= i < |lines| && lines[i].MessLine? ensures lines[i].id in ObjIds(lines[..i]) {
      var k := lines[i].id;
      var m :| m in d.ids && d.ids[m] == k;
      ScriptBegins(g, d.ids, m, |g[m].mess|);
      LinesOfPrefix(lines, i + 1, k);
      assert lines[..i + 1] == lines[..i] + [lines[i]];
      LinesOfSnoc(lines[..i], lines[i], k);
      var first := LinesOf(lines[..i], k);
      assert first + [lines[i]] <= LinesOf(lines, k) && LinesOf(lines, k)[0].ObjLine?;
      assert first != [] && first[0] == LinesOf(lines, k)[0];
      LinesOfIn(lines[..i], k, first[0]);
      var j :| 0 <= j < i && lines[..i][j] == first[0];
      ObjLineCounts(lines[..i], j);
    }
  }

  lemma CompleteLoads(g: Graph, d: Dump, m: nat)
    requires m < |g| && CleanNode(g[m]) && IdsOk(g, d, {}) && m in d.ids && Complete(g, d, m)
    ensures Assembled(LinesOf(d.lines, d.ids[m])) == NodeImage(g, d.ids, m)
  {
    hide Assembled, LinesOf, Images, MessImages, CleanArgs, Script;
    FullRefs(g, d, m);
    ScriptAssembles(g, d.ids, m, |g[m].mess|);
    assert g[m].mess[..|g[m].mess|] == g[m].mess;
  }

  lemma {:induction false} LineListed(lines: seq<Line>, i: nat)
    requires i < |lines|
    ensures LinesOf(lines, lines[i].id) != []
  {
    var init := lines[..|lines| - 1];
    if i < |init| {
      LineListed(init, i);
    }
  }

  lemma {:induction false} ObjIdLine(lines: seq<Line>, k: int)
    requires k in ObjIds(lines)
    ensures exists i :: 0 <= i < |lines| && lines[i].id == k
  {
    var init := lines[..|lines| - 1];
    if k in ObjIds(init) {
      ObjIdLine(init, k);
      var i :| 0 <= i < |init| && init[i].id == k;
      assert lines[i].id == k;
    }
  }

  lemma DumpUnused(g: Graph, root: nat)
    requires Closed(g) && root < |g|
    ensures Unused(DumpGraph(g, root))
  {
    hide LinesOf, Script, DumpNode, Edge, Complete;
    forall k ensures LinesOf(START.lines, k) == [] {
      NoLines(k);
    }
    NodeWrites(g, Put(START, root), root);
  }

  /** Every line carries the id of a dumped object. */
  lemma LineIds(g: Graph, root: nat)
    requires Closed(g) && root < |g|
    ensures var d := DumpGraph(g, root);
            && (forall i :: 0 <= i < |d.lines| ==> IsId(d, d.lines[i].id))
            && (forall k :: k in ObjIds(d.lines) ==> IsId(d, k))
  {
    hide LinesOf, DumpNode, ObjIds;
    var d := DumpGraph(g, root);
    DumpUnused(g, root);
    forall i | 0 <= i < |d.lines| ensures IsId(d, d.lines[i].id) {
      LineListed(d.lines, i);
    }
    forall k | k in ObjIds(d.lines) ensures IsId(d, k) {
      ObjIdLine(d.lines, k);
    }
  }

  // ---------------------------------------------------------------- where it does not hold

  lemma {:induction false} LinesOfIn(lines: seq<Line>, k: int, l: Line)
    requires l in LinesOf(lines, k)
    ensures exists i :: 0 <= i < |lines| && lines[i] == l
  {
    var n := |lines| - 1;
    if l in LinesOf(lines[..n], k) {
      LinesOfIn(lines[..n], k, l);
      var i :| 0 <= i < n && lines[..n][i] == l;
      assert lines[i] == l;
    } else {
      assert lines[n] == l;
    }
  }

  lemma {:induction false} ObjIdsBefore(lines: seq<Line>, i: nat, k: int)
    requires i <= |lines| && k in ObjIds(lines[..i])
    ensures k in ObjIds(lines)
  {
    if i < |lines| {
      var init := lines[..|lines| - 1];
      assert init[..i] == lines[..i];
      ObjIdsBefore(init, i, k);
      assert lines == init + [lines[|lines| - 1]];
      ObjIdsSnoc(init, lines[|lines| - 1]);
    } else {
      assert lines[..i] == lines;
    }
  }

  /** An id mentioned among the first lines when none of them declares it. */
  lemma MentionedEarly(first: seq<Line>, lines: seq<Line>, i: nat, k: int)
    requires first <= lines && i < |lines| && i <= |first| && Mentions(lines[i], k) && k !in ObjIds(first)
    ensures !Declared(lines)
  {
    hide Mentions, ObjIds;
    if k in ObjIds(lines[..i]) {
      assert lines[..i] == first[..i];
      ObjIdsBefore(first, i, k);
    }
  }

  lemma ReferenceMentions(ids: map<nat, int>, args: seq<Arg>, n: nat, l: Line)
    requires Refers(args, n) && n in ids && ids[n] > 0 && l.args == Named(ids, args)
    ensures Mentions(l, ids[n])
  {
    var i :| 0 <= i < |args| && args[i] == Ref(n);
    IdRoundTrip(ids[n]);
    assert MentionsId(l.args[i], ids[n]);
  }

  /** The lines of an object mention whatever it refers to. */
  lemma {:induction false} ScriptMentions(g: Graph, ids: map<nat, int>, x: nat, k: nat, n: nat) returns (l: Line)
    requires x < |g| && k <= |g[x].mess| && x in ids && n in ids && ids[n] > 0
    requires DescEdge(g, x, n) || exists j :: 0 <= j < k && Refers(g[x].mess[j].args, n)
    ensures l in Script(g, ids, x, k) && Mentions(l, ids[n])
  {
    hide Named, Mentions, Refers;
    if k == 0 {
      l := ObjLine(ids[x], g[x].cls, Named(ids, g[x].args));
      ReferenceMentions(ids, g[x].args, n, l);
    } else if Refers(g[x].mess[k - 1].args, n) {
      l := MessLine(ids[x], g[x].mess[k - 1].sel, Named(ids, g[x].mess[k - 1].args));
      ReferenceMentions(ids, g[x].mess[k - 1].args, n, l);
    } else {
      l := ScriptMentions(g, ids, x, k - 1, n);
    }
  }

  /** Along a path to `n` from an object visited while `n` is described, the last object before `n` is visited. */
  lemma {:induction false} LastBefore(g: Graph, d0: Dump, d1: Dump, n: nat, p: seq<nat>, j: nat) returns (x: nat)
    requires Path(g, p) && j < |p| && p[|p| - 1] == n && Visits(g, d0, d1, n)
    requires p[j] != n && p[j] in d1.ids && d0.ids.Keys == {n}
    ensures x != n && x in d1.ids && Edge(g, x, n)
    decreases |p| - j
  {
    hide Edge, Reaches;
    assert Edge(g, p[j], p[j + 1]) && Full(g, d1, p[j]);
    if p[j + 1] == n {
      x := p[j];
    } else {
      x := LastBefore(g, d0, d1, n, p, j + 1);
    }
  }

  /** An object that is reached from what its description refers to is mentioned too early when it is dumped: all of
      that is written before its own line. */
  lemma DescCycleMentions(g: Graph, n: nat, m: nat)
    requires Closed(g) && n < |g| && DescEdge(g, n, m) && Reaches(g, m, n)
    ensures !Declared(DumpGraph(g, n).lines)
  {
    hide DumpArgs, DumpMessages, Declared, LinesOf, ObjIds, Script, Edge, Named, Visits, Full, Mentions, Distinct;
    var args, d0 := g[n].args, Put(START, n);
    var d1 := DumpArgs(g, d0, args, |args|);
    var d, l := DumpGraph(g, n), ObjLine(1, g[n].cls, Named(d1.ids, args));
    assert d0.ids == map[n := 1] && Continues(d0, d1) && d1.ids[n] == 1;
    assert WithObj(g, d1, n).lines == d1.lines + [l] && d1.lines + [l] <= d.lines;
    NotDeclaredYet(g, n);
    if m == n {
      ReferenceMentions(d1.ids, args, n, l);
      assert d.lines[|d1.lines|] == l;
      MentionedEarly(d1.lines, d.lines, |d1.lines|, 1);
    } else {
      var i := EarlyLine(g, n, m);
      assert d.lines[i] == d1.lines[i];
      MentionedEarly(d1.lines, d.lines, i, 1);
    }
  }

  lemma NotDeclaredYet(g: Graph, n: nat)
    requires Closed(g) && n < |g|
    ensures 1 !in ObjIds(DumpArgs(g, Put(START, n), g[n].args, |g[n].args|).lines)
  {
    hide DumpArgs, ObjIds, Distinct;
    StartOk(g);
    PutOk(g, START, {}, n);
    assert {} + {n} == {n};
    ArgsIdsOk(g, Put(START, n), {n}, g[n].args, |g[n].args|);
    var d1 := DumpArgs(g, Put(START, n), g[n].args, |g[n].args|);
    assert Continues(Put(START, n), d1) && d1.ids[n] == 1;
  }

  lemma StartOk(g: Graph)
    ensures IdsOk(g, START, {})
  {
  }

  lemma OwnedArgs(g: Graph, n: nat)
    requires n < |g|
    ensures Owned(g, n, g[n].args)
  {
    forall i | 0 <= i < |g[n].args| && g[n].args[i].Ref? ensures Edge(g, n, g[n].args[i].n) {
      assert DescEdge(g, n, g[n].args[i].n);
    }
  }

  lemma EarlyLine(g: Graph, n: nat, m: nat) returns (i: nat)
    requires Closed(g) && n < |g| && DescEdge(g, n, m) && m != n && Reaches(g, m, n)
    ensures var d1 := DumpArgs(g, Put(START, n), g[n].args, |g[n].args|);
            i < |d1.lines| && Mentions(d1.lines[i], 1)
  {
    hide DumpArgs, Declared, LinesOf, ObjIds, Script, Edge, Named, Visits, Full, Mentions, Reaches;
    var args, d0 := g[n].args, Put(START, n);
    var d1 := DumpArgs(g, d0, args, |args|);
    assert d0.ids == map[n := 1] && Continues(d0, d1) && d1.ids[n] == 1;
    assert m in d1.ids by {
      var a :| 0 <= a < |args| && args[a] == Ref(m);
      assert args[a].Ref?;
    }
    OwnedArgs(g, n);
    ArgsVisit(g, d0, n, args, |args|);
    var p := PathTo(g, m, n);
    var x := LastBefore(g, d0, d1, n, p, 0);
    assert Complete(g, d1, x) by {
      FirstUnused(n);
      ArgsWrite(g, d0, args, |args|);
    }
    EdgeIs(g, x, n);
    var l := ScriptMentions(g, d1.ids, x, |g[x].mess|, n);
    LinesOfIn(d1.lines, d1.ids[x], l);
    i :| 0 <= i < |d1.lines| && d1.lines[i] == l;
  }

  lemma PathTo(g: Graph, m: nat, n: nat) returns (p: seq<nat>)
    requires Reaches(g, m, n)
    ensures Path(g, p) && p[0] == m && p[|p| - 1] == n
  {
    p :| Path(g, p) && p[0] == m && p[|p| - 1] == n;
  }

  lemma EdgeIs(g: Graph, x: nat, n: nat)
    requires Edge(g, x, n)
    ensures x < |g| && (DescEdge(g, x, n) || exists j :: 0 <= j < |g[x].mess| && Refers(g[x].mess[j].args, n))
  {
  }

  lemma FirstUnused(n: nat)
    ensures Unused(Put(START, n)) && Apart(Put(START, n))
  {
    hide LinesOf;
    forall k ensures LinesOf(START.lines, k) == [] {
      NoLines(k);
    }
  }

  /** The exact condition: whatever is reachable from `r` can be dumped with every id declared before it is mentioned
      exactly when no reference cycle behind `r` uses a description edge. */
  lemma DeclaresIff(g: Graph, r: nat)
    requires Closed(g) && CleanFrom(g, r) && r < |g|
    ensures (forall n: nat :: n < |g| && Reaches(g, r, n) ==> Declared(DumpGraph(g, n).lines)) <==>
            NoDescCycleFrom(g, r)
  {
    hide Reaches, Declared, DumpGraph, DescEdge;
    if NoDescCycleFrom(g, r) {
      forall n: nat | n < |g| && Reaches(g, r, n) ensures Declared(DumpGraph(g, n).lines) {
        forall o: nat | Reaches(g, n, o) ensures Reaches(g, r, o) {
          ReachesThen(g, r, n, o);
        }
        NoCycleBackFree(g, n);
        DumpDeclares(g, n);
      }
    } else {
      var n, m :| Reaches(g, r, n) && DescEdge(g, n, m) && Reaches(g, m, n);
      DescEnds(g, n, m);
      DescCycleMentions(g, n, m);
    }
  }

  lemma DescEnds(g: Graph, n: nat, m: nat)
    requires DescEdge(g, n, m)
    ensures n < |g|
  {
  }

  lemma ReachesThen(g: Graph, n: nat, m: nat, o: nat)
    requires Reaches(g, n, m) && Reaches(g, m, o)
    ensures Reaches(g, n, o)
  {
    hide Edge;
    var p := PathTo(g, n, m);
    var q := PathTo(g, m, o);
    var t := p + q[1..];
    forall i | 0 <= i < |t| - 1 ensures Edge(g, t[i], t[i + 1]) {
      if i < |p| - 1 {
        assert t[i] == p[i] && t[i + 1] == p[i + 1];
      } else {
        assert t[i] == q[i - (|p| - 1)] && t[i + 1] == q[i - (|p| - 1) + 1];
      }
    }
    assert Path(g, t) && t[0] == n && t[|t| - 1] == o;
  }

  /** Every object of a graph can be dumped so exactly when no reference cycle at all uses a description edge. */
  lemma AllDeclareIff(g: Graph)
    requires Closed(g) && forall n :: 0 <= n < |g| ==> CleanNode(g[n])
    ensures (forall root :: 0 <= root < |g| ==> Declared(DumpGraph(g, root).lines)) <==> NoDescCycle(g)
  {
    hide Reaches, Declared, DumpGraph, DescEdge, CleanNode;
    if NoDescCycle(g) {
      forall root | 0 <= root < |g| ensures Declared(DumpGraph(g, root).lines) {
        NoCycleBackFree(g, root);
        DumpDeclares(g, root);
      }
    } else {
      var n, m :| DescEdge(g, n, m) && Reaches(g, m, n);
      DescEnds(g, n, m);
      DescCycleMentions(g, n, m);
    }
  }

  /** The same cycle through a description does no harm when the search enters it where the state of an object leads on,
      and loses a reference when it enters at the object described. */
  lemma CycleEntered(g: Graph)
    requires g == [Node("a", [], [Message("m", [Ref(1)])]), Node("b", [Ref(0)], [])]
    ensures Closed(g) && !NoDescCycleFrom(g, 0) && BackFree(g, 0) && !BackFree(g, 1)
  {
    assert Refers(g[0].mess[0].args, 1) && Refers(g[1].args, 0);
    assert Edge(g, 0, 1) && DescEdge(g, 1, 0);
    ReachesSelf(g, 1);
    ReachesStep(g, 0, 1, 1);
    EnteredFirst(g);
    EnteredSecond(g);
  }

  lemma EnteredFirst(g: Graph)
    requires g == [Node("a", [], [Message("m", [Ref(1)])]), Node("b", [Ref(0)], [])] && Closed(g)
    ensures BackFree(g, 0)
  {
    var args, one := g[0].mess[0].args, g[1].args;
    assert SearchArgs(g, {0}, {0}, g[0].args, 0) == Seen({0});
    assert SearchMessages(g, {0}, {}, 0, 0) == Seen({0});
    assert SearchRef(g, {0, 1}, {1}, 0) == Seen({0, 1});
    assert SearchArgs(g, {0, 1}, {1}, one, 0) == Seen({0, 1});
    assert SearchArgs(g, {0, 1}, {1}, one, 1) == Seen({0, 1});
    assert {0} + {1} == {0, 1} && {} + {1} == {1} && {} + {0} == {0};
    assert SearchNode(g, {0, 1}, {}, 1) == Seen({0, 1});
    assert SearchArgs(g, {0}, {}, args, 1) == SearchRef(g, {0}, {}, 1);
  }

  lemma EnteredSecond(g: Graph)
    requires g == [Node("a", [], [Message("m", [Ref(1)])]), Node("b", [Ref(0)], [])] && Closed(g)
    ensures !BackFree(g, 1)
  {
    var args := g[0].mess[0].args;
    assert SearchRef(g, {1, 0}, {1}, 1) == Back;
    assert SearchArgs(g, {1, 0}, {1}, args, 0) == Seen({1, 0});
    assert SearchArgs(g, {1, 0}, {1}, args, 1) == Back;
    assert SearchArgs(g, {1, 0}, {1, 0}, g[0].args, 0) == Seen({1, 0});
    assert SearchMessages(g, {1, 0}, {1}, 0, 0) == Seen({1, 0});
    assert SearchMessages(g, {1, 0}, {1}, 0, 1) == Back;
    assert {1} + {0} == {1, 0} && {} + {1} == {1};
    assert SearchNode(g, {1, 0}, {1}, 0) == Back;
    assert SearchArgs(g, {1}, {1}, g[1].args, 0) == Seen({1});
    assert SearchArgs(g, {1}, {1}, g[1].args, 1) == SearchRef(g, {1}, {1}, 0) == Back;
  }

  /** An object that refers to itself in its description is mentioned before it is declared, and what is loaded in its
      place is 0. */
  lemma SelfReferenceLost()
    ensures var g := [Node("a", [Ref(0)], [])];
            var d := DumpGraph(g, 0);
            && d.lines == [ObjLine(1, "a", [Sym("#1")])] && !Declared(d.lines)
            && Load(d.lines) == map[1 := Loaded("a", [Value(Num(0))], [])]
  {
    hide DumpGraph, DumpNode, Load, Declared, Mentions, IdToSymbol;
    var g := [Node("a", [Ref(0)], [])];
    SelfReferenceDumped(g);
    SelfReferenceLoaded([ObjLine(1, "a", [Sym("#1")])]);
  }

  lemma SelfReferenceDumped(g: Graph)
    requires g == [Node("a", [Ref(0)], [])]
    ensures DumpGraph(g, 0).lines == [ObjLine(1, "a", [Sym("#1")])]
  {
    hide Decimal;
    var d0 := Put(START, 0);
    assert DumpArgs(g, d0, g[0].args, 0) == d0;
    assert DumpArgs(g, d0, g[0].args, 1) == DumpRef(g, d0, 0) == d0;
    FirstId();
    assert Named(d0.ids, g[0].args) == [Sym("#1")];
    var d1 := WithObj(g, d0, 0);
    assert DumpMessages(g, d1, 0, 0) == d1;
    assert DumpNode(g, d0, 0) == d1;
    assert START.lines + [ObjLine(1, "a", [Sym("#1")])] == [ObjLine(1, "a", [Sym("#1")])];
  }

  lemma FirstId()
    ensures IdToSymbol(1) == "#1" && StringToId("#1") == 1
  {
    assert Decimal(1) == "1";
    IdRoundTrip(1);
  }

  lemma SelfReferenceLoaded(lines: seq<Line>)
    requires lines == [ObjLine(1, "a", [Sym("#1")])]
    ensures !Declared(lines) && Load(lines) == map[1 := Loaded("a", [Value(Num(0))], [])]
  {
    hide Decimal, IdToSymbol, StringToId;
    FirstId();
    var l := lines[0];
    assert Mentions(l, 1) by { assert MentionsId(l.args[0], 1); }
    assert lines[..0] == [] && ObjIds([]) == [];
    assert Mentions(lines[0], 1) && 1 !in ObjIds(lines[..0]);
    var t: Table := map[];
    assert Load([]) == t && Load(lines) == LoadLine(t, l);
    assert t.Keys == {} && Resolve(t.Keys, l.args) == [Value(Num(0))];
  }

  /** A plain symbol survives exactly when it does not look like an id. */
  lemma PlainSurvivesIff(known: set<int>, s: string)
    ensures ResolveArg(known, NameArg(map[], Plain(Sym(s)))) == Value(Sym(s)) <==> StringToId(s) <= 0
  {
  }
}
