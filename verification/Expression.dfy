/** The expression evaluator: a parse tree is evaluated on one stack of atoms that is organised into frames. */
module Expression {

  /** A tuple is an object as well. */
  datatype Value = Void | Int(i: int) | Float(w: int) | Sym(s: string) | Obj(o: nat) | Tup(vs: seq<Value>)

  datatype Option<T> = None | Some(value: T)

  datatype Error = Mismatch | NoArgument(index: int) | BadVariable | BadParentheses | Undefined(name: string)
                 | NoMethod | NoElement | FunctionFailed | CallbackFailed | InvalidExpression

  /** `Fault` stands for reading a value that is not there. */
  datatype Status = Done | Failed(e: Error) | Fault

  datatype Token = Comma | Semi | Tuple | Element | Space | Prefix | Const | Dollar | Equal
                 | Unary(op: int) | Binary(op: int)

  datatype Tree = Nil | Node(token: Token, value: Value, left: Tree, right: Tree)

  /** Operators, functions, methods and element access of the values; what a name is bound to; the arguments; and
      whether the callback accepts a list. */
  datatype Setting = Setting(unary: (int, Value) -> Option<Value>, binary: (int, Value, Value) -> Option<Value>,
                             fun: string -> bool, call: (string, seq<Value>) -> (bool, Value),
                             invoke: (Value, string, seq<Value>) -> Option<Value>,
                             element: (Value, seq<Value>) -> Option<Value>,
                             locals: map<string, Value>, globals: map<string, Value>,
                             args: seq<Value>, accepts: seq<Value> -> bool)

  predicate IsObject(v: Value) {
    v.Obj? || v.Tup?
  }

  /** A returned value, unless it is void. */
  function Returned(v: Value): (vs: seq<Value>)
    ensures |vs| <= 1
  {
    if v.Void? then [] else [v]
  }

  function NonVoid(vs: seq<Value>): (r: seq<Value>)
    ensures |r| <= |vs|
  {
    if vs == [] then [] else NonVoid(vs[..|vs| - 1]) + Returned(vs[|vs| - 1])
  }

  /** What a name is bound to: locals first; a void definition counts as none. */
  function Binding(g: Setting, name: string): Option<Value> {
    if name in g.locals && !g.locals[name].Void? then Some(g.locals[name])
    else if name in g.globals && !g.globals[name].Void? then Some(g.globals[name])
    else None
  }

  // ---------------------------------------------------------------- what an expression denotes

  /** The values a frame holds and the lists given to the callback, in order.  `Short` marks an operator that needs
      more values than its frame has, or an element access to nothing. */
  datatype Meaning = Values(vs: seq<Value>, calls: seq<seq<Value>>) | Error(e: Error, calls: seq<seq<Value>>) | Short

  /** `m` after some calls were made. */
  function Behind(calls: seq<seq<Value>>, m: Meaning): Meaning {
    match m
    case Values(vs, cs) => Values(vs, calls + cs)
    case Error(e, cs) => Error(e, calls + cs)
    case Short => Short
  }

  /** `m` with more values below. */
  function Above(below: seq<Value>, m: Meaning): Meaning {
    match m
    case Values(vs, cs) => Values(below + vs, cs)
    case Error(e, cs) => m
    case Short => m
  }

  function Ended(s: Status, vs: seq<Value>): Meaning {
    match s
    case Done => Values(vs, [])
    case Failed(e) => Error(e, [])
    case Fault => Short
  }

  function Arity(token: Token): nat {
    if token.Unary? then 1 else if token.Binary? then 2 else 0
  }

  /** An operator replaces the last values of its frame. */
  function Operated(g: Setting, token: Token, vs: seq<Value>): Meaning {
    match token
    case Unary(op) =>
      if |vs| < 1 then Short
      else
        var r := g.unary(op, vs[|vs| - 1]);
        if r.None? then Error(Mismatch, []) else Values(vs[..|vs| - 1] + [r.value], [])
    case Binary(op) =>
      if |vs| < 2 then Short
      else
        var r := g.binary(op, vs[|vs| - 2], vs[|vs| - 1]);
        if r.None? then Error(Mismatch, []) else Values(vs[..|vs| - 2] + [r.value], [])
    case _ => Values(vs, [])
  }

  /** A parenthesised list: a function call, a method invocation, or a plain term. */
  function Applied(g: Setting, vs: seq<Value>): (Status, seq<Value>) {
    if |vs| > 0 && vs[0].Sym? then
      if !g.fun(vs[0].s) then (Failed(Undefined(vs[0].s)), [])
      else
        var (ok, r) := g.call(vs[0].s, vs[1..]);
        (if ok then Done else Failed(FunctionFailed), Returned(r))
    else if |vs| > 1 && IsObject(vs[0]) && vs[1].Sym? then
      var r := g.invoke(vs[0], vs[1].s, vs[2..]);
      if r.None? then (Failed(NoMethod), []) else (Done, Returned(r.value))
    else if |vs| == 1 then (Done, vs)
    else (Failed(BadParentheses), [])
  }

  function Accessed(g: Setting, vs: seq<Value>): (Status, seq<Value>) {
    if |vs| == 0 then (Fault, [])
    else if !IsObject(vs[0]) then (Failed(Mismatch), [])
    else
      var r := g.element(vs[0], vs[1..]);
      if r.None? then (Failed(NoElement), []) else (Done, Returned(r.value))
  }

  function Looked(g: Setting, value: Value): (Status, seq<Value>) {
    match value
    case Int(index) => if 0 <= index < |g.args| then (Done, [g.args[index]]) else (Failed(NoArgument(index)), [])
    case Sym(name) =>
      if name == "*" then (Done, NonVoid(g.args))
      else if name == "|" then (Done, if g.args == [] then [] else NonVoid(g.args[1..]))
      else
        var b := Binding(g, name);
        if b.None? then (Failed(Undefined(name)), []) else (Done, [b.value])
    case _ => (Failed(BadVariable), [])
  }

  /** The denotation of a tree: what becomes of a frame that holds `vs`.  Subexpressions in parentheses, tuples and
      element accesses start from an empty frame; callbacks happen from left to right. */
  function Denotes(g: Setting, t: Tree, vs: seq<Value>): Meaning
    decreases t, 1
  {
    if t.Nil? then Values(vs, [])
    else
      match t.token
      case Comma =>
        var l := Denotes(g, t.left, []);
        if !l.Values? then l
        else if !g.accepts(l.vs) then Error(CallbackFailed, l.calls + [l.vs])
        else Behind(l.calls + [l.vs], Denotes(g, t.right, vs))
      case Semi =>
        var l := Denotes(g, t.left, []);
        if !l.Values? then l else Behind(l.calls, Denotes(g, t.right, vs))
      case Tuple =>
        var l := Denotes(g, t.left, []);
        if !l.Values? then l else Values(vs + [Tup(l.vs)], l.calls)
      case Element =>
        var m := DenotesBoth(g, t, []);
        if !m.Values? then m
        else
          var (s, r) := Accessed(g, m.vs);
          Behind(m.calls, Ended(s, vs + r))
      case Space => DenotesBoth(g, t, vs)
      case Prefix =>
        var m := DenotesBoth(g, t, []);
        if !m.Values? then m
        else
          var (s, r) := Applied(g, m.vs);
          Behind(m.calls, Ended(s, vs + r))
      case Const => Values(vs + [t.value], [])
      case Dollar =>
        var (s, r) := Looked(g, t.value);
        Ended(s, vs + r)
      case Equal => if t.value.Sym? || t.value.Int? then Values(vs, []) else Error(BadVariable, [])
      case Unary(_) =>
        var l := Denotes(g, t.left, vs);
        if !l.Values? then l else Behind(l.calls, Operated(g, t.token, l.vs))
      case Binary(_) =>
        var m := DenotesBoth(g, t, vs);
        if !m.Values? then m else Behind(m.calls, Operated(g, t.token, m.vs))
  }

  function DenotesBoth(g: Setting, t: Tree, vs: seq<Value>): Meaning
    requires t.Node?
    decreases t, 0
  {
    var l := Denotes(g, t.left, vs);
    if !l.Values? then l else Behind(l.calls, Denotes(g, t.right, l.vs))
  }

  /** When an operator comes to be evaluated its frame has a value for each operand, and an element access has
      something to access. */
  predicate EnoughOperands(g: Setting, t: Tree, vs: seq<Value>)
    decreases t, 1
  {
    t.Nil? ||
    match t.token
    case Comma =>
      var l := Denotes(g, t.left, []);
      EnoughOperands(g, t.left, []) && (l.Values? && g.accepts(l.vs) ==> EnoughOperands(g, t.right, vs))
    case Semi => EnoughOperands(g, t.left, []) && (Denotes(g, t.left, []).Values? ==> EnoughOperands(g, t.right, vs))
    case Tuple => EnoughOperands(g, t.left, [])
    case Element => EnoughBoth(g, t, []) && var m := DenotesBoth(g, t, []); m.Values? ==> |m.vs| >= 1
    case Space => EnoughBoth(g, t, vs)
    case Prefix => EnoughBoth(g, t, [])
    case Unary(_) => EnoughOperands(g, t.left, vs) && var l := Denotes(g, t.left, vs); l.Values? ==> |l.vs| >= 1
    case Binary(_) => EnoughBoth(g, t, vs) && var m := DenotesBoth(g, t, vs); m.Values? ==> |m.vs| >= 2
    case _ => true
  }

  predicate EnoughBoth(g: Setting, t: Tree, vs: seq<Value>)
    requires t.Node?
    decreases t, 0
  {
    var l := Denotes(g, t.left, vs);
    EnoughOperands(g, t.left, vs) && (l.Values? ==> EnoughOperands(g, t.right, l.vs))
  }

  // ---------------------------------------------------------------- the stack machine

  /** The stack, its last element on top, the frame pointer, and the lists the callback has been given. */
  datatype Machine = Machine(stack: seq<Value>, fp: int, calls: seq<seq<Value>>)

  function PushFrame(m: Machine): Machine {
    m.(stack := m.stack + [Int(m.fp)], fp := |m.stack| + 1)
  }

  function Frame(m: Machine): seq<Value> {
    if 0 <= m.fp <= |m.stack| then m.stack[m.fp..] else []
  }

  function PopFrame(m: Machine): Machine {
    if 1 <= m.fp <= |m.stack| then
      m.(stack := m.stack[..m.fp - 1], fp := if m.stack[m.fp - 1].Int? then m.stack[m.fp - 1].i else 0)
    else m
  }

  function Push(m: Machine, vs: seq<Value>): Machine {
    m.(stack := m.stack + vs)
  }

  /** An operator on the top of the whole stack, whatever frame its operands are in.  A `guarded` machine looks first
      whether they are in the current frame. */
  function Operate(g: Setting, token: Token, m: Machine, guarded: bool): (Status, Machine) {
    if guarded && |Frame(m)| < Arity(token) then (Fault, m)
    else
      match Operated(g, token, m.stack)
      case Values(vs, _) => (Done, m.(stack := vs))
      case Error(e, _) => (Failed(e), m)
      case Short => (Fault, m)
  }

  /** The end of a frame: what it was turned into is pushed, unless it failed. */
  function Close(m: Machine, r: (Status, seq<Value>)): (Status, Machine) {
    if r.0 == Done || r.0 == Failed(FunctionFailed) then (r.0, Push(PopFrame(m), r.1)) else (r.0, m)
  }

  /** `expression_eval_aux`, which is not guarded. */
  function Run(g: Setting, t: Tree, m: Machine, guarded: bool): (Status, Machine)
    decreases t, 1
  {
    if t.Nil? then (Done, m)
    else
      match t.token
      case Comma =>
        var (s, m1) := Run(g, t.left, PushFrame(m), guarded);
        if s != Done then (s, m1)
        else
          var m2 := m1.(calls := m1.calls + [Frame(m1)]);
          if !g.accepts(Frame(m1)) then (Failed(CallbackFailed), m2) else Run(g, t.right, PopFrame(m2), guarded)
      case Semi =>
        var (s, m1) := Run(g, t.left, PushFrame(m), guarded);
        if s != Done then (s, m1) else Run(g, t.right, PopFrame(m1), guarded)
      case Tuple =>
        var (s, m1) := Run(g, t.left, PushFrame(m), guarded);
        if s != Done then (s, m1) else (Done, Push(PopFrame(m1), [Tup(Frame(m1))]))
      case Element =>
        var (s, m1) := RunBoth(g, t, PushFrame(m), guarded);
        if s != Done then (s, m1) else Close(m1, Accessed(g, Frame(m1)))
      case Space => RunBoth(g, t, m, guarded)
      case Prefix =>
        var (s, m1) := RunBoth(g, t, PushFrame(m), guarded);
        if s != Done then (s, m1) else Close(m1, Applied(g, Frame(m1)))
      case Const => (Done, Push(m, [t.value]))
      case Dollar =>
        var (s, vs) := Looked(g, t.value);
        (s, if s == Done then Push(m, vs) else m)
      case Equal => (if t.value.Sym? || t.value.Int? then Done else Failed(BadVariable), m)
      case Unary(_) =>
        var (s, m1) := Run(g, t.left, m, guarded);
        if s != Done then (s, m1) else Operate(g, t.token, m1, guarded)
      case Binary(_) =>
        var (s, m1) := RunBoth(g, t, m, guarded);
        if s != Done then (s, m1) else Operate(g, t.token, m1, guarded)
  }

  function RunBoth(g: Setting, t: Tree, m: Machine, guarded: bool): (Status, Machine)
    requires t.Node?
    decreases t, 0
  {
    var (s, m1) := Run(g, t.left, m, guarded);
    if s != Done then (s, m1) else Run(g, t.right, m1, guarded)
  }

  /** The stack with one empty frame, as evaluation starts. */
  const START := Machine([Int(-1)], 1, [])

  class Evaluator {
    const g: Setting
    var stack: seq<Value>
    var fp: int
    var calls: seq<seq<Value>>

    ghost function M(): Machine
      reads this
    {
      Machine(stack, fp, calls)
    }

    constructor (g: Setting)
      ensures this.g == g && M() == Machine([], -1, [])
    {
      this.g := g;
      stack, fp, calls := [], -1, [];
    }

    method PushNewFrame()
      modifies this`stack, this`fp
      ensures M() == PushFrame(old(M()))
    {
      stack := stack + [Int(fp)];
      fp := |stack|;
    }

    method PopOldFrame()
      modifies this`stack, this`fp
      ensures M() == PopFrame(old(M()))
    {
      if 1 <= fp <= |stack| {
        var saved := stack[fp - 1];
        stack := stack[..fp - 1];
        fp := if saved.Int? then saved.i else 0;
      }
    }

    method GetFrame() returns (at: seq<Value>)
      ensures at == Frame(M())
    {
      at := if 0 <= fp <= |stack| then stack[fp..] else [];
    }

    method CloseFrame(r: (Status, seq<Value>)) returns (status: Status)
      modifies this`stack, this`fp
      ensures (status, M()) == Close(old(M()), r)
    {
      status := r.0;
      if status == Done || status == Failed(FunctionFailed) {
        PopOldFrame();
        stack := stack + r.1;
      }
    }

    method EvalBoth(t: Tree) returns (status: Status)
      requires t.Node?
      modifies this
      ensures (status, M()) == RunBoth(g, t, old(M()), false)
      decreases t, 0
    {
      status := Eval(t.left);
      if status == Done {
        status := Eval(t.right);
      }
    }

    method EvalOperator(token: Token) returns (status: Status)
      requires token.Unary? || token.Binary?
      modifies this`stack
      ensures (status, M()) == Operate(g, token, old(M()), false)
    {
      var n := |stack|;
      if token.Unary? {
        if n < 1 {
          return Fault;
        }
        var r := g.unary(token.op, stack[n - 1]);
        if r.None? {
          return Failed(Mismatch);
        }
        stack := stack[..n - 1] + [r.value];
      } else {
        if n < 2 {
          return Fault;
        }
        var r := g.binary(token.op, stack[n - 2], stack[n - 1]);
        if r.None? {
          return Failed(Mismatch);
        }
        stack := stack[..n - 2] + [r.value];
      }
      status := Done;
    }

    /** `expression_eval_aux` */
    method Eval(t: Tree) returns (status: Status)
      modifies this
      ensures (status, M()) == Run(g, t, old(M()), false)
      decreases t
    {
      hide Operate, Looked, Applied, Accessed, Close, PushFrame, PopFrame, Frame;
      if t.Nil? {
        return Done;
      }
      status := Done;
      match t.token
      case Comma =>
        PushNewFrame();
        status := Eval(t.left);
        if status == Done {
          var at := GetFrame();
          calls := calls + [at];
          if !g.accepts(at) {
            return Failed(CallbackFailed);
          }
          PopOldFrame();
          status := Eval(t.right);
        }
      case Semi =>
        PushNewFrame();
        status := Eval(t.left);
        if status == Done {
          PopOldFrame();
          status := Eval(t.right);
        }
      case Tuple =>
        PushNewFrame();
        status := Eval(t.left);
        if status == Done {
          var at := GetFrame();
          PopOldFrame();
          stack := stack + [Tup(at)];
        }
      case Element =>
        PushNewFrame();
        status := EvalBoth(t);
        if status == Done {
          var at := GetFrame();
          status := CloseFrame(Accessed(g, at));
        }
      case Space =>
        status := EvalBoth(t);
      case Prefix =>
        PushNewFrame();
        status := EvalBoth(t);
        if status == Done {
          var at := GetFrame();
          status := CloseFrame(Applied(g, at));
        }
      case Const =>
        stack := stack + [t.value];
      case Dollar =>
        var (s, vs) := Looked(g, t.value);
        status := s;
        if s == Done {
          stack := stack + vs;
        }
      case Equal =>
        status := if t.value.Sym? || t.value.Int? then Done else Failed(BadVariable);
      case Unary(_) =>
        status := Eval(t.left);
        if status == Done {
          status := EvalOperator(t.token);
        }
      case Binary(_) =>
        status := EvalBoth(t);
        if status == Done {
          status := EvalOperator(t.token);
        }
    }

    /** `fts_expression_evaluate`: starts from an empty stack with one frame. */
    method Evaluate(t: Tree) returns (status: Status)
      modifies this
      ensures t.Nil? ==> status == Failed(InvalidExpression) && M() == old(M())
      ensures t.Node? ==> (status, M()) == Run(g, t, START, false)
    {
      hide Run;
      if t.Nil? {
        return Failed(InvalidExpression);
      }
      stack, fp, calls := [], -1, [];
      PushNewFrame();
      assert [] + [Int(-1)] == [Int(-1)];
      status := Eval(t);
    }
  }

  // ---------------------------------------------------------------- the machine computes the denotation

  predicate InFrame(m: Machine) {
    0 <= m.fp <= |m.stack|
  }

  /** `m` with `vs` in its frame and after `calls`. */
  function Holding(m: Machine, vs: seq<Value>, calls: seq<seq<Value>>): Machine
    requires InFrame(m)
  {
    m.(stack := m.stack[..m.fp] + vs, calls := m.calls + calls)
  }

  /** What the machine does when it runs a tree that denotes `d`: on success the stack below the frame and the frame
      pointer are unchanged, the frame holds exactly the values, and exactly the calls are made; an error is the one
      denoted, after exactly those calls; and when something is short a guarded machine faults. */
  predicate Agrees(guarded: bool, m: Machine, d: Meaning, r: (Status, Machine))
    requires InFrame(m)
  {
    match d
    case Values(vs, calls) => r == (Done, Holding(m, vs, calls))
    case Error(e, calls) => r.0 == Failed(e) && r.1.calls == m.calls + calls
    case Short => guarded ==> r.0 == Fault
  }

  lemma HoldingIs(m: Machine, vs: seq<Value>, calls: seq<seq<Value>>)
    requires InFrame(m)
    ensures var m1 := Holding(m, vs, calls);
            InFrame(m1) && Frame(m1) == vs && m1.stack[..m1.fp] == m.stack[..m.fp] && m1.fp == m.fp
  {
  }

  lemma FrameIs(m: Machine, vs: seq<Value>, calls: seq<seq<Value>>)
    ensures var p := PushFrame(m);
            InFrame(p) && Frame(p) == [] && p.calls == m.calls && Frame(Holding(p, vs, calls)) == vs
            && Holding(p, vs, calls).calls == m.calls + calls
            && PopFrame(Holding(p, vs, calls)) == m.(calls := m.calls + calls)
  {
    var p := PushFrame(m);
    assert p.stack[..p.fp] == p.stack;
    var m1 := Holding(p, vs, calls);
    assert m1.stack[m1.fp - 1] == Int(m.fp);
    assert m1.stack[..m1.fp - 1] == m.stack;
  }

  lemma Regroup<T>(a: seq<T>, b: seq<T>, c: seq<T>)
    ensures (a + b) + c == a + (b + c)
  {
  }

  /** What agrees after the frame was brought to hold `vs` agrees from before as well. */
  lemma BehindAgrees(guarded: bool, m: Machine, vs: seq<Value>, calls: seq<seq<Value>>, d: Meaning,
                     r: (Status, Machine))
    requires InFrame(m) && InFrame(Holding(m, vs, calls)) && Agrees(guarded, Holding(m, vs, calls), d, r)
    ensures Agrees(guarded, m, Behind(calls, d), r)
  {
    HoldingIs(m, vs, calls);
    if !d.Short? {
      Regroup(m.calls, calls, d.calls);
    }
  }

  lemma SameHolding(m: Machine, calls: seq<seq<Value>>)
    requires InFrame(m)
    ensures Holding(m, Frame(m), calls) == m.(calls := m.calls + calls) && Holding(m, Frame(m), []) == m
  {
    assert m.stack[..m.fp] + m.stack[m.fp..] == m.stack;
    assert m.calls + [] == m.calls;
  }

  lemma PushedIs(m: Machine, vs: seq<Value>, calls: seq<seq<Value>>)
    requires InFrame(m)
    ensures Push(m.(calls := m.calls + calls), vs) == Holding(m, Frame(m) + vs, calls)
  {
    assert m.stack == m.stack[..m.fp] + m.stack[m.fp..];
    Regroup(m.stack[..m.fp], m.stack[m.fp..], vs);
  }

  /** Both subtrees compute what they denote. */
  ghost predicate Sub(g: Setting, t: Tree, guarded: bool)
    requires t.Node?
  {
    && (forall m1 :: InFrame(m1) ==> Agrees(guarded, m1, Denotes(g, t.left, Frame(m1)), Run(g, t.left, m1, guarded)))
    && (forall m1 :: InFrame(m1) ==> Agrees(guarded, m1, Denotes(g, t.right, Frame(m1)), Run(g, t.right, m1, guarded)))
  }

  lemma BothAgree(g: Setting, t: Tree, m: Machine, guarded: bool)
    requires t.Node? && Sub(g, t, guarded) && InFrame(m)
    ensures Agrees(guarded, m, DenotesBoth(g, t, Frame(m)), RunBoth(g, t, m, guarded))
  {
    hide Denotes, Run, Frame, Holding;
    var l := Denotes(g, t.left, Frame(m));
    assert Agrees(guarded, m, l, Run(g, t.left, m, guarded));
    if l.Values? {
      var m1 := Holding(m, l.vs, l.calls);
      HoldingIs(m, l.vs, l.calls);
      assert Agrees(guarded, m1, Denotes(g, t.right, Frame(m1)), Run(g, t.right, m1, guarded));
      BehindAgrees(guarded, m, l.vs, l.calls, Denotes(g, t.right, l.vs), Run(g, t.right, m1, guarded));
    }
  }

  lemma DeeperOperator(g: Setting, token: Token, below: seq<Value>, vs: seq<Value>)
    requires |vs| >= Arity(token)
    ensures Operated(g, token, below + vs) == Above(below, Operated(g, token, vs))
  {
    var all, n := below + vs, |vs|;
    if token.Unary? {
      assert all[..|all| - 1] == below + vs[..n - 1];
      assert g.unary(token.op, vs[n - 1]).Some? ==>
               all[..|all| - 1] + [g.unary(token.op, vs[n - 1]).value] ==
               below + (vs[..n - 1] + [g.unary(token.op, vs[n - 1]).value]);
    } else if token.Binary? {
      assert all[..|all| - 2] == below + vs[..n - 2];
      assert g.binary(token.op, vs[n - 2], vs[n - 1]).Some? ==>
               all[..|all| - 2] + [g.binary(token.op, vs[n - 2], vs[n - 1]).value] ==
               below + (vs[..n - 2] + [g.binary(token.op, vs[n - 2], vs[n - 1]).value]);
    }
  }

  lemma OperateAgrees(g: Setting, token: Token, m: Machine, guarded: bool)
    requires (token.Unary? || token.Binary?) && InFrame(m)
    ensures Agrees(guarded, m, Operated(g, token, Frame(m)), Operate(g, token, m, guarded))
  {
    hide Operated;
    var below, vs := m.stack[..m.fp], Frame(m);
    assert m.stack == below + vs;
    OperatedShort(g, token, vs, []);
    if |vs| >= Arity(token) {
      DeeperOperator(g, token, below, vs);
      OperatedCalls(g, token, vs);
      assert m.calls + [] == m.calls;
    }
  }

  /** Operators make no calls. */
  lemma OperatedCalls(g: Setting, token: Token, vs: seq<Value>)
    ensures !Operated(g, token, vs).Short? ==> Operated(g, token, vs).calls == []
  {
  }

  lemma CloseAgrees(guarded: bool, m: Machine, r: (Status, seq<Value>), vs: seq<Value>, calls: seq<seq<Value>>)
    requires InFrame(m) && InFrame(PushFrame(m))
    ensures Agrees(guarded, m, Behind(calls, Ended(r.0, Frame(m) + r.1)), Close(Holding(PushFrame(m), vs, calls), r))
  {
    hide Frame, PopFrame, PushFrame, Holding;
    FrameIs(m, vs, calls);
    PushedIs(m, r.1, calls);
    assert calls + [] == calls;
  }

  /** Evaluation computes exactly the denotation, on any stack and in any frame; a guarded machine faults where
      something is short. */
  lemma {:induction false} RunAgrees(g: Setting, t: Tree, m: Machine, guarded: bool)
    requires InFrame(m)
    ensures Agrees(guarded, m, Denotes(g, t, Frame(m)), Run(g, t, m, guarded))
    decreases t
  {
    hide Agrees, Operated, Operate, Looked, Applied, Accessed, Close, PushFrame, PopFrame, Frame, RunBoth, DenotesBoth;
    if t.Node? {
      forall m1 | InFrame(m1)
        ensures Agrees(guarded, m1, Denotes(g, t.left, Frame(m1)), Run(g, t.left, m1, guarded))
      {
        RunAgrees(g, t.left, m1, guarded);
      }
      forall m1 | InFrame(m1)
        ensures Agrees(guarded, m1, Denotes(g, t.right, Frame(m1)), Run(g, t.right, m1, guarded))
      {
        RunAgrees(g, t.right, m1, guarded);
      }
      match t.token
      case Comma => CommaAgrees(g, t, m, guarded);
      case Semi => SemiAgrees(g, t, m, guarded);
      case Tuple => TupleAgrees(g, t, m, guarded);
      case Element => ElementAgrees(g, t, m, guarded);
      case Space => BothAgree(g, t, m, guarded);
      case Prefix => PrefixAgrees(g, t, m, guarded);
      case Unary(_) => UnaryAgrees(g, t, m, guarded);
      case Binary(_) => BinaryAgrees(g, t, m, guarded);
      case _ => LeafAgrees(g, t, m, guarded);
    } else {
      NilAgrees(m, guarded);
    }
  }

  lemma NilAgrees(m: Machine, guarded: bool)
    requires InFrame(m)
    ensures Agrees(guarded, m, Values(Frame(m), []), (Done, m))
  {
    SameHolding(m, []);
  }

  lemma LeafAgrees(g: Setting, t: Tree, m: Machine, guarded: bool)
    requires t.Node? && (t.token.Const? || t.token.Dollar? || t.token.Equal?) && InFrame(m)
    ensures Agrees(guarded, m, Denotes(g, t, Frame(m)), Run(g, t, m, guarded))
  {
    hide Looked, Frame, Holding;
    SameHolding(m, []);
    assert m.calls + [] == m.calls && m == m.(calls := m.calls + []);
    if t.token.Const? {
      PushedIs(m, [t.value], []);
    } else if t.token.Dollar? {
      LookedOk(g, t.value);
      PushedIs(m, Looked(g, t.value).1, []);
    }
  }

  lemma LookedOk(g: Setting, v: Value)
    ensures Looked(g, v).0 != Fault
  {
  }

  lemma CommaAgrees(g: Setting, t: Tree, m: Machine, guarded: bool)
    requires t.Node? && t.token.Comma? && Sub(g, t, guarded) && InFrame(m)
    ensures Agrees(guarded, m, Denotes(g, t, Frame(m)), Run(g, t, m, guarded))
  {
    hide PushFrame, PopFrame, Frame, Holding;
    var l, p := Denotes(g, t.left, []), PushFrame(m);
    FrameIs(m, [], []);
    assert Agrees(guarded, p, Denotes(g, t.left, Frame(p)), Run(g, t.left, p, guarded));
    if l.Values? {
      var calls := l.calls + [l.vs];
      FrameIs(m, l.vs, l.calls);
      CallMade(m, l.vs, l.calls);
      if g.accepts(l.vs) {
        var m2 := m.(calls := m.calls + calls);
        SameHolding(m, calls);
        HoldingIs(m, Frame(m), calls);
        assert Agrees(guarded, m2, Denotes(g, t.right, Frame(m2)), Run(g, t.right, m2, guarded));
        BehindAgrees(guarded, m, Frame(m), calls, Denotes(g, t.right, Frame(m)), Run(g, t.right, m2, guarded));
      }
    }
  }

  /** The callback is given the frame, which is popped then. */
  lemma CallMade(m: Machine, vs: seq<Value>, calls: seq<seq<Value>>)
    requires InFrame(PushFrame(m))
    ensures var m1 := Holding(PushFrame(m), vs, calls);
            var m2 := m1.(calls := m1.calls + [vs]);
            m2.calls == m.calls + (calls + [vs]) && PopFrame(m2) == m.(calls := m.calls + (calls + [vs]))
  {
    FrameIs(m, vs, calls + [vs]);
    Regroup(m.calls, calls, [vs]);
    var m1 := Holding(PushFrame(m), vs, calls);
    assert m1.(calls := m1.calls + [vs]) == Holding(PushFrame(m), vs, calls + [vs]);
  }

  lemma SemiAgrees(g: Setting, t: Tree, m: Machine, guarded: bool)
    requires t.Node? && t.token.Semi? && Sub(g, t, guarded) && InFrame(m)
    ensures Agrees(guarded, m, Denotes(g, t, Frame(m)), Run(g, t, m, guarded))
  {
    hide PushFrame, PopFrame, Frame, Holding;
    var l, p := Denotes(g, t.left, []), PushFrame(m);
    FrameIs(m, [], []);
    assert Agrees(guarded, p, Denotes(g, t.left, Frame(p)), Run(g, t.left, p, guarded));
    if l.Values? {
      FrameIs(m, l.vs, l.calls);
      var m2 := m.(calls := m.calls + l.calls);
      SameHolding(m, l.calls);
      HoldingIs(m, Frame(m), l.calls);
      assert Agrees(guarded, m2, Denotes(g, t.right, Frame(m2)), Run(g, t.right, m2, guarded));
      BehindAgrees(guarded, m, Frame(m), l.calls, Denotes(g, t.right, Frame(m)), Run(g, t.right, m2, guarded));
    }
  }

  lemma TupleAgrees(g: Setting, t: Tree, m: Machine, guarded: bool)
    requires t.Node? && t.token.Tuple? && Sub(g, t, guarded) && InFrame(m)
    ensures Agrees(guarded, m, Denotes(g, t, Frame(m)), Run(g, t, m, guarded))
  {
    hide PushFrame, PopFrame, Frame, Holding;
    var l, p := Denotes(g, t.left, []), PushFrame(m);
    FrameIs(m, [], []);
    assert Agrees(guarded, p, Denotes(g, t.left, Frame(p)), Run(g, t.left, p, guarded));
    if l.Values? {
      FrameIs(m, l.vs, l.calls);
      PushedIs(m, [Tup(l.vs)], l.calls);
    }
  }

  lemma ElementAgrees(g: Setting, t: Tree, m: Machine, guarded: bool)
    requires t.Node? && t.token.Element? && Sub(g, t, guarded) && InFrame(m)
    ensures Agrees(guarded, m, Denotes(g, t, Frame(m)), Run(g, t, m, guarded))
  {
    hide PushFrame, PopFrame, Frame, Holding, Close, Accessed, RunBoth, DenotesBoth;
    var p, d := PushFrame(m), DenotesBoth(g, t, []);
    FrameIs(m, [], []);
    BothAgree(g, t, p, guarded);
    if d.Values? {
      FrameIs(m, d.vs, d.calls);
      CloseAgrees(guarded, m, Accessed(g, d.vs), d.vs, d.calls);
    }
  }

  lemma PrefixAgrees(g: Setting, t: Tree, m: Machine, guarded: bool)
    requires t.Node? && t.token.Prefix? && Sub(g, t, guarded) && InFrame(m)
    ensures Agrees(guarded, m, Denotes(g, t, Frame(m)), Run(g, t, m, guarded))
  {
    hide PushFrame, PopFrame, Frame, Holding, Close, Applied, RunBoth, DenotesBoth;
    var p, d := PushFrame(m), DenotesBoth(g, t, []);
    FrameIs(m, [], []);
    BothAgree(g, t, p, guarded);
    if d.Values? {
      FrameIs(m, d.vs, d.calls);
      CloseAgrees(guarded, m, Applied(g, d.vs), d.vs, d.calls);
    }
  }

  lemma UnaryAgrees(g: Setting, t: Tree, m: Machine, guarded: bool)
    requires t.Node? && t.token.Unary? && Sub(g, t, guarded) && InFrame(m)
    ensures Agrees(guarded, m, Denotes(g, t, Frame(m)), Run(g, t, m, guarded))
  {
    hide Operate, Operated, Frame, Holding;
    var l := Denotes(g, t.left, Frame(m));
    assert Agrees(guarded, m, l, Run(g, t.left, m, guarded));
    if l.Values? {
      OperatorAgrees(g, t.token, m, l.vs, l.calls, guarded);
    }
  }

  lemma OperatorAgrees(g: Setting, token: Token, m: Machine, vs: seq<Value>, calls: seq<seq<Value>>, guarded: bool)
    requires (token.Unary? || token.Binary?) && InFrame(m)
    ensures Agrees(guarded, m, Behind(calls, Operated(g, token, vs)),
                   Operate(g, token, Holding(m, vs, calls), guarded))
  {
    hide Operate, Operated, Frame, Holding;
    HoldingIs(m, vs, calls);
    OperateAgrees(g, token, Holding(m, vs, calls), guarded);
    BehindAgrees(guarded, m, vs, calls, Operated(g, token, vs), Operate(g, token, Holding(m, vs, calls), guarded));
  }

  lemma BinaryAgrees(g: Setting, t: Tree, m: Machine, guarded: bool)
    requires t.Node? && t.token.Binary? && Sub(g, t, guarded) && InFrame(m)
    ensures Agrees(guarded, m, Denotes(g, t, Frame(m)), Run(g, t, m, guarded))
  {
    hide Operate, Operated, RunBoth, DenotesBoth, Frame, Holding;
    var d := DenotesBoth(g, t, Frame(m));
    BothAgree(g, t, m, guarded);
    if d.Values? {
      OperatorAgrees(g, t.token, m, d.vs, d.calls, guarded);
    }
  }

  // ---------------------------------------------------------------- when something is short

  lemma OperatedShort(g: Setting, token: Token, vs: seq<Value>, calls: seq<seq<Value>>)
    ensures Behind(calls, Operated(g, token, vs)).Short? <==> |vs| < Arity(token)
  {
  }

  lemma EndedShort(g: Setting, v: Value, vs: seq<Value>, us: seq<Value>, calls: seq<seq<Value>>)
    ensures !Behind(calls, Ended(Applied(g, vs).0, us)).Short?
    ensures !Ended(Looked(g, v).0, us).Short?
    ensures Behind(calls, Ended(Accessed(g, vs).0, us)).Short? <==> |vs| < 1
  {
  }

  lemma BehindShort(calls: seq<seq<Value>>, d: Meaning)
    ensures Behind(calls, d).Short? <==> d.Short?
  {
  }

  /** The exact condition under which a tree has a denotation. */
  lemma {:induction false} ShortIff(g: Setting, t: Tree, vs: seq<Value>)
    ensures Denotes(g, t, vs).Short? <==> !EnoughOperands(g, t, vs)
    decreases t, 1
  {
    hide Applied, Accessed, Operated, Looked, Behind, Ended, DenotesBoth, EnoughBoth;
    if t.Node? {
      match t.token
      case Comma =>
        ShortIff(g, t.left, []);
        ShortIff(g, t.right, vs);
        var l := Denotes(g, t.left, []);
        if l.Values? { BehindShort(l.calls + [l.vs], Denotes(g, t.right, vs)); }
      case Semi =>
        ShortIff(g, t.left, []);
        ShortIff(g, t.right, vs);
        var l := Denotes(g, t.left, []);
        if l.Values? { BehindShort(l.calls, Denotes(g, t.right, vs)); }
      case Tuple => ShortIff(g, t.left, []);
      case Element =>
        BothShort(g, t, []);
        var m := DenotesBoth(g, t, []);
        if m.Values? { EndedShort(g, t.value, m.vs, vs + Accessed(g, m.vs).1, m.calls); }
      case Space => BothShort(g, t, vs);
      case Prefix =>
        BothShort(g, t, []);
        var m := DenotesBoth(g, t, []);
        if m.Values? { EndedShort(g, t.value, m.vs, vs + Applied(g, m.vs).1, m.calls); }
      case Dollar => EndedShort(g, t.value, [], vs + Looked(g, t.value).1, []);
      case Unary(_) =>
        ShortIff(g, t.left, vs);
        var l := Denotes(g, t.left, vs);
        if l.Values? { OperatedShort(g, t.token, l.vs, l.calls); }
      case Binary(_) =>
        BothShort(g, t, vs);
        var m := DenotesBoth(g, t, vs);
        if m.Values? { OperatedShort(g, t.token, m.vs, m.calls); }
      case _ =>
    }
  }

  lemma {:induction false} BothShort(g: Setting, t: Tree, vs: seq<Value>)
    requires t.Node?
    ensures DenotesBoth(g, t, vs).Short? <==> !EnoughBoth(g, t, vs)
    decreases t, 0
  {
    hide Behind;
    ShortIff(g, t.left, vs);
    var l := Denotes(g, t.left, vs);
    if l.Values? {
      ShortIff(g, t.right, l.vs);
      BehindShort(l.calls, Denotes(g, t.right, l.vs));
    }
  }

  /** A machine that faults when an operator reads below its frame faults exactly on the trees without enough
      operands; on all others the machine that does not look computes the same. */
  lemma FaultIff(g: Setting, t: Tree, m: Machine)
    requires InFrame(m)
    ensures Run(g, t, m, true).0 == Fault <==> !EnoughOperands(g, t, Frame(m))
    ensures EnoughOperands(g, t, Frame(m)) ==>
              Run(g, t, m, false).0 == Run(g, t, m, true).0 && Run(g, t, m, false).1.calls == Run(g, t, m, true).1.calls
              && (Run(g, t, m, true).0 == Done ==> Run(g, t, m, false) == Run(g, t, m, true))
  {
    hide Run, Denotes, EnoughOperands, Frame, Holding;
    ShortIff(g, t, Frame(m));
    RunAgrees(g, t, m, true);
    RunAgrees(g, t, m, false);
  }

  /** Evaluation of an expression whose operators have enough operands: the values, the error and the callbacks are
      those denoted, and the one frame it starts with is left in place. */
  lemma EvaluationIsDenotation(g: Setting, t: Tree)
    requires EnoughOperands(g, t, [])
    ensures var (s, m) := Run(g, t, START, false);
            match Denotes(g, t, [])
            case Values(vs, calls) => s == Done && m == Machine([Int(-1)] + vs, 1, calls)
            case Error(e, calls) => s == Failed(e) && m.calls == calls
            case Short => false
  {
    hide Denotes, Run, EnoughOperands;
    assert Frame(START) == [];
    ShortIff(g, t, []);
    RunAgrees(g, t, START, false);
    assert START.stack[..1] == [Int(-1)];
    if Denotes(g, t, []).Values? {
      assert [] + Denotes(g, t, []).calls == Denotes(g, t, []).calls;
    }
  }

  /** A tree that has enough operands leaves what is deeper in the frame alone. */
  lemma {:induction false} Deeper(g: Setting, t: Tree, below: seq<Value>, vs: seq<Value>)
    requires EnoughOperands(g, t, vs)
    ensures EnoughOperands(g, t, below + vs) && Denotes(g, t, below + vs) == Above(below, Denotes(g, t, vs))
    decreases t, 1
  {
    hide Applied, Accessed, Operated, Looked;
    if t.Node? {
      match t.token
      case Comma =>
        if EnoughOperands(g, t.right, vs) { Deeper(g, t.right, below, vs); }
      case Semi =>
        if EnoughOperands(g, t.right, vs) { Deeper(g, t.right, below, vs); }
      case Space => DeeperBoth(g, t, below, vs);
      case Element =>
        var m := DenotesBoth(g, t, []);
        if m.Values? { DeeperEnd(below, vs, Accessed(g, m.vs)); }
      case Prefix =>
        var m := DenotesBoth(g, t, []);
        if m.Values? { DeeperEnd(below, vs, Applied(g, m.vs)); }
      case Tuple =>
        if Denotes(g, t.left, []).Values? { Regroup(below, vs, [Tup(Denotes(g, t.left, []).vs)]); }
      case Const => Regroup(below, vs, [t.value]);
      case Dollar => DeeperEnd(below, vs, Looked(g, t.value));
      case Unary(_) =>
        Deeper(g, t.left, below, vs);
        if Denotes(g, t.left, vs).Values? { DeeperOperator(g, t.token, below, Denotes(g, t.left, vs).vs); }
      case Binary(_) =>
        DeeperBoth(g, t, below, vs);
        if DenotesBoth(g, t, vs).Values? { DeeperOperator(g, t.token, below, DenotesBoth(g, t, vs).vs); }
      case Equal =>
    }
  }

  lemma DeeperEnd(below: seq<Value>, vs: seq<Value>, r: (Status, seq<Value>))
    ensures Ended(r.0, below + vs + r.1) == Above(below, Ended(r.0, vs + r.1))
  {
    Regroup(below, vs, r.1);
  }

  lemma {:induction false} DeeperBoth(g: Setting, t: Tree, below: seq<Value>, vs: seq<Value>)
    requires t.Node? && EnoughBoth(g, t, vs)
    ensures EnoughBoth(g, t, below + vs) && DenotesBoth(g, t, below + vs) == Above(below, DenotesBoth(g, t, vs))
    decreases t, 0
  {
    Deeper(g, t.left, below, vs);
    var l := Denotes(g, t.left, vs);
    if l.Values? {
      Deeper(g, t.right, below, l.vs);
    }
  }

  predicate Appends(m: Machine, d: Meaning, r: (Status, Machine)) {
    match d
    case Values(vs, calls) => r == (Done, m.(stack := m.stack + vs, calls := m.calls + calls))
    case Error(e, calls) => r.0 == Failed(e) && r.1.calls == m.calls + calls
    case Short => true
  }

  /** An expression whose operators have operands of their own appends the list it denotes to the stack, whatever is on
      it: the frame pointer and everything below are unchanged. */
  lemma RunAppends(g: Setting, t: Tree, m: Machine)
    requires InFrame(m) && EnoughOperands(g, t, [])
    ensures !Denotes(g, t, []).Short? && Appends(m, Denotes(g, t, []), Run(g, t, m, false))
  {
    hide Denotes, Run, EnoughOperands, Holding;
    ShortIff(g, t, []);
    assert Frame(m) + [] == Frame(m);
    Deeper(g, t, Frame(m), []);
    RunAgrees(g, t, m, false);
    var d := Denotes(g, t, []);
    if d.Values? {
      PushedIs(m, d.vs, d.calls);
    }
  }

  // ---------------------------------------------------------------- what each kind of node means

  /** `vs` with what was returned, unless that is void. */
  predicate Gets(d: Meaning, vs: seq<Value>, r: Value, calls: seq<seq<Value>>) {
    d == Values(if r == Void then vs else vs + [r], calls)
  }

  /** The value of an operation, or its error when there is none. */
  predicate Yields(d: Meaning, vs: seq<Value>, r: Option<Value>, e: Error, calls: seq<seq<Value>>) {
    d == if r.None? then Error(e, calls) else Values(vs + [r.value], calls)
  }

  predicate Returns(d: Meaning, vs: seq<Value>, r: Option<Value>, e: Error, calls: seq<seq<Value>>) {
    if r.None? then d == Error(e, calls) else Gets(d, vs, r.value, calls)
  }

  /** A tree that denotes a list in an empty frame appends it to any. */
  lemma DenotesAppends(g: Setting, t: Tree, vs: seq<Value>)
    requires Denotes(g, t, []).Values?
    ensures var d := Denotes(g, t, []); Denotes(g, t, vs) == Values(vs + d.vs, d.calls)
  {
    hide Denotes, EnoughOperands;
    ShortIff(g, t, []);
    Deeper(g, t, vs, []);
    assert vs + [] == vs;
  }

  /** A binary operator is applied to the value of its left tree and that of its right one, in this order. */
  lemma BinaryMeans(g: Setting, t: Tree, vs: seq<Value>, x: Value, y: Value)
    requires t.Node? && t.token.Binary? && Denotes(g, t.left, []).Values? && Denotes(g, t.right, []).Values?
    requires Denotes(g, t.left, []).vs == [x] && Denotes(g, t.right, []).vs == [y]
    ensures var calls := Denotes(g, t.left, []).calls + Denotes(g, t.right, []).calls;
            Yields(Denotes(g, t, vs), vs, g.binary(t.token.op, x, y), Mismatch, calls)
  {
    var l, r := Denotes(g, t.left, []), Denotes(g, t.right, []);
    DenotesAppends(g, t.left, vs);
    DenotesAppends(g, t.right, vs + [x]);
    var at := vs + [x] + [y];
    assert DenotesBoth(g, t, vs) == Values(at, l.calls + r.calls);
    assert at[..|at| - 2] == vs && at[|at| - 2] == x && at[|at| - 1] == y;
    assert l.calls + r.calls + [] == l.calls + r.calls;
  }

  lemma UnaryMeans(g: Setting, t: Tree, vs: seq<Value>, x: Value)
    requires t.Node? && t.token.Unary? && Denotes(g, t.left, []).Values? && Denotes(g, t.left, []).vs == [x]
    ensures Yields(Denotes(g, t, vs), vs, g.unary(t.token.op, x), Mismatch, Denotes(g, t.left, []).calls)
  {
    var l := Denotes(g, t.left, []);
    DenotesAppends(g, t.left, vs);
    var at := vs + [x];
    assert at[..|at| - 1] == vs && l.calls + [] == l.calls;
  }

  /** A parenthesised list calls the function its first value names with the others, or sends the object that comes
      first the message that comes second with the others, or stands for its one value. */
  lemma ParenthesesMean(g: Setting, t: Tree, vs: seq<Value>)
    requires t.Node? && t.token.Prefix? && t.right.Nil? && Denotes(g, t.left, []).Values?
    ensures var at, calls, d := Denotes(g, t.left, []).vs, Denotes(g, t.left, []).calls, Denotes(g, t, vs);
            if at != [] && at[0].Sym? then
              if !g.fun(at[0].s) then d == Error(Undefined(at[0].s), calls)
              else if !g.call(at[0].s, at[1..]).0 then d == Error(FunctionFailed, calls)
              else Gets(d, vs, g.call(at[0].s, at[1..]).1, calls)
            else if |at| >= 2 && (at[0].Obj? || at[0].Tup?) && at[1].Sym? then
              Returns(d, vs, g.invoke(at[0], at[1].s, at[2..]), NoMethod, calls)
            else if |at| == 1 then d == Values(vs + [at[0]], calls)
            else d == Error(BadParentheses, calls)
  {
    var l := Denotes(g, t.left, []);
    assert DenotesBoth(g, t, []) == Values(l.vs, l.calls) by {
      assert l.calls + [] == l.calls;
    }
    assert l.calls + [] == l.calls && vs + [] == vs;
    assert |l.vs| == 1 ==> l.vs == [l.vs[0]];
  }

  /** The values of the right tree select from the object that the left one denotes. */
  lemma ElementMeans(g: Setting, t: Tree, vs: seq<Value>, x: Value)
    requires t.Node? && t.token.Element? && Denotes(g, t.left, []).Values? && Denotes(g, t.right, []).Values?
    requires Denotes(g, t.left, []).vs == [x]
    ensures var calls, d := Denotes(g, t.left, []).calls + Denotes(g, t.right, []).calls, Denotes(g, t, vs);
            if !x.Obj? && !x.Tup? then d == Error(Mismatch, calls)
            else Returns(d, vs, g.element(x, Denotes(g, t.right, []).vs), NoElement, calls)
  {
    var l, r := Denotes(g, t.left, []), Denotes(g, t.right, []);
    DenotesAppends(g, t.right, [x]);
    var at := [x] + r.vs;
    assert DenotesBoth(g, t, []) == Values(at, l.calls + r.calls);
    assert at[0] == x && at[1..] == r.vs;
    assert l.calls + r.calls + [] == l.calls + r.calls && vs + [] == vs;
  }

  /** Terms one after the other give their values one after the other; a tuple holds the values of its terms; a constant
      is itself. */
  lemma TermsMean(g: Setting, t: Tree, vs: seq<Value>)
    requires t.Node? && Denotes(g, t.left, []).Values? && Denotes(g, t.right, []).Values?
    ensures var l, r, d := Denotes(g, t.left, []), Denotes(g, t.right, []), Denotes(g, t, vs);
            && (t.token.Space? ==> d == Values(vs + l.vs + r.vs, l.calls + r.calls))
            && (t.token.Tuple? ==> d == Values(vs + [Tup(l.vs)], l.calls))
            && (t.token.Const? ==> d == Values(vs + [t.value], []))
  {
    DenotesAppends(g, t.left, vs);
    DenotesAppends(g, t.right, vs + Denotes(g, t.left, []).vs);
  }

  /** The callback is given the list of the left tree, and the right tree follows only if it accepts; after a semicolon
      the list of the left tree is dropped. */
  lemma SequencesMean(g: Setting, t: Tree, vs: seq<Value>)
    requires t.Node? && Denotes(g, t.left, []).Values? && Denotes(g, t.right, []).Values?
    ensures var l, r, d := Denotes(g, t.left, []), Denotes(g, t.right, []), Denotes(g, t, vs);
            && (t.token.Comma? && g.accepts(l.vs) ==> d == Values(vs + r.vs, l.calls + [l.vs] + r.calls))
            && (t.token.Comma? && !g.accepts(l.vs) ==> d == Error(CallbackFailed, l.calls + [l.vs]))
            && (t.token.Semi? ==> d == Values(vs + r.vs, l.calls + r.calls))
  {
    DenotesAppends(g, t.right, vs);
  }

  /** `r` are those of `vs` that are not void, in order: the ones at the positions `at`. */
  ghost predicate NotVoid(vs: seq<Value>, r: seq<Value>, at: seq<nat>) {
    && |at| == |r|
    && (forall i, j :: 0 <= i < j < |at| ==> at[i] < at[j])
    && (forall i :: 0 <= i < |at| ==> at[i] < |vs| && vs[at[i]] == r[i] && r[i] != Void)
    && (forall k :: 0 <= k < |vs| && vs[k] != Void ==> k in at)
  }

  lemma NotVoidSnoc(vs: seq<Value>, r: seq<Value>, at: seq<nat>, v: Value)
    requires NotVoid(vs, r, at)
    ensures if v == Void then NotVoid(vs + [v], r, at) else NotVoid(vs + [v], r + [v], at + [|vs|])
  {
    var more, at' := vs + [v], at + [|vs|];
    forall k | 0 <= k < |more| && more[k] != Void ensures if v == Void then k in at else k in at' {
      if k == |vs| {
        assert at'[|at|] == k;
      } else {
        assert vs[k] == more[k];
        var i :| 0 <= i < |at| && at[i] == k;
        assert at'[i] == k;
      }
    }
  }

  lemma {:induction false} NonVoidIs(vs: seq<Value>) returns (at: seq<nat>)
    ensures NotVoid(vs, NonVoid(vs), at)
  {
    hide NotVoid;
    if vs == [] {
      at := [];
      NoneVoid();
    } else {
      var init, v := vs[..|vs| - 1], vs[|vs| - 1];
      at := NonVoidIs(init);
      NotVoidSnoc(init, NonVoid(init), at, v);
      assert vs == init + [v] && NonVoid(init) + [] == NonVoid(init);
      if v != Void {
        at := at + [|init|];
      }
    }
  }

  lemma NoneVoid()
    ensures NotVoid([], [], [])
  {
  }

  /** What `$` followed by a number or a name stands for. */
  lemma ReferenceMeans(g: Setting, t: Tree, vs: seq<Value>)
    requires t.Node? && t.token.Dollar?
    ensures var d := Denotes(g, t, vs);
            if t.value.Int? then
              var i := t.value.i;
              d == if 0 <= i < |g.args| then Values(vs + [g.args[i]], []) else Error(NoArgument(i), [])
            else if t.value.Sym? && t.value.s != "*" && t.value.s != "|" then
              var s := t.value.s;
              if s in g.locals && g.locals[s] != Void then d == Values(vs + [g.locals[s]], [])
              else if s in g.globals && g.globals[s] != Void then d == Values(vs + [g.globals[s]], [])
              else d == Error(Undefined(s), [])
            else !t.value.Sym? ==> d == Error(BadVariable, [])
  {
  }

  /** `$*` stands for all the arguments but void ones, and `$|` for those behind the first. */
  lemma ArgumentsMean(g: Setting, t: Tree, vs: seq<Value>) returns (r: seq<Value>, at: seq<nat>)
    requires t.Node? && t.token.Dollar? && (t.value == Sym("*") || t.value == Sym("|"))
    ensures Denotes(g, t, vs) == Values(vs + r, [])
    ensures NotVoid(if t.value == Sym("*") then g.args else if g.args == [] then [] else g.args[1..], r, at)
  {
    var all := if t.value == Sym("*") then g.args else if g.args == [] then [] else g.args[1..];
    r := NonVoid(all);
    at := NonVoidIs(all);
  }

  /** Operands that are single values are enough, if every element access has something to access. */
  predicate SingleOperands(g: Setting, t: Tree) {
    t.Nil? ||
    (SingleOperands(g, t.left) && SingleOperands(g, t.right) &&
     (t.token.Unary? ==> Single(Denotes(g, t.left, []))) &&
     (t.token.Binary? ==> Single(Denotes(g, t.left, [])) && Single(Denotes(g, t.right, []))) &&
     (t.token.Element? ==> !DenotesBoth(g, t, []).Values? || DenotesBoth(g, t, []).vs != []))
  }

  predicate Single(d: Meaning) {
    d.Values? ==> |d.vs| == 1
  }

  lemma {:induction false} SingleIsEnough(g: Setting, t: Tree)
    requires SingleOperands(g, t)
    ensures EnoughOperands(g, t, [])
  {
    hide Applied, Accessed, Operated, Looked, Denotes;
    if t.Node? {
      SingleIsEnough(g, t.left);
      SingleIsEnough(g, t.right);
      var l := Denotes(g, t.left, []);
      if l.Values? {
        Deeper(g, t.right, l.vs, []);
        assert l.vs + [] == l.vs;
      }
    }
  }

  /** The expression `($* + 1)` without arguments, with the comma node that the parser puts on every expression: the
      operator takes the saved frame pointer for its first operand, so the callback is given an empty list instead of an
      error, and the frame pointer comes back wrong.  Guarded, it faults. */
  lemma ShortOperandCorruptsFrame(g: Setting)
    requires g.args == [] && g.accepts([]) && forall a, b :: g.binary(0, Int(a), Int(b)) == Some(Int(a + b))
    ensures var sum := Node(Binary(0), Void, Node(Dollar, Sym("*"), Nil, Nil), Node(Const, Int(1), Nil, Nil));
            var t := Node(Comma, Void, sum, Nil);
            !EnoughOperands(g, t, []) && Run(g, t, START, true).0 == Fault
            && Run(g, t, START, false) == (Done, Machine([Int(-1)], 2, [[]]))
  {
    var sum := Node(Binary(0), Void, Node(Dollar, Sym("*"), Nil, Nil), Node(Const, Int(1), Nil, Nil));
    var t := Node(Comma, Void, sum, Nil);
    assert Frame(START) == [];
    NotEnough(g, sum);
    FaultIff(g, t, START);
    var m1 := PushFrame(START);
    assert m1 == Machine([Int(-1), Int(1)], 2, []);
    SumTakesPointer(g, sum, m1);
    assert t.left == sum && t.right == Nil;
    assert Frame(Machine([Int(-1), Int(2)], 2, [])) == [];
    var m2 := Machine([Int(-1), Int(2)], 2, [[]]);
    var called: seq<seq<Value>> := [[]];
    assert m1.calls + [[]] == called;
    assert PopFrame(m2) == Machine([Int(-1)], 2, [[]]);
  }

  lemma NotEnough(g: Setting, sum: Tree)
    requires g.args == []
    requires sum == Node(Binary(0), Void, Node(Dollar, Sym("*"), Nil, Nil), Node(Const, Int(1), Nil, Nil))
    ensures !EnoughOperands(g, sum, [])
  {
    assert Looked(g, Sym("*")) == (Done, []);
    assert Denotes(g, sum.left, []) == Values([], []);
    assert [] + [Int(1)] == [Int(1)];
    assert sum.right.token == Const;
    assert Denotes(g, sum.right, []) == Values([Int(1)], []);
  }

  lemma SumTakesPointer(g: Setting, sum: Tree, m1: Machine)
    requires g.args == [] && forall a, b :: g.binary(0, Int(a), Int(b)) == Some(Int(a + b))
    requires sum == Node(Binary(0), Void, Node(Dollar, Sym("*"), Nil, Nil), Node(Const, Int(1), Nil, Nil))
    requires m1 == Machine([Int(-1), Int(1)], 2, [])
    ensures Run(g, sum, m1, false) == (Done, Machine([Int(-1), Int(2)], 2, []))
  {
    assert Looked(g, Sym("*")) == (Done, []);
    assert Run(g, sum.left, m1, false) == (Done, m1) by {
      assert Push(m1, []) == m1;
    }
    assert sum.right.token == Const && sum.right.value == Int(1);
    var m2 := Machine([Int(-1), Int(1), Int(1)], 2, []);
    assert Run(g, sum.right, m1, false) == (Done, m2) by {
      assert Push(m1, [Int(1)]) == m2;
    }
    assert RunBoth(g, sum, m1, false) == (Done, m2);
    assert m2.stack[..1] + [Int(2)] == [Int(-1), Int(2)];
  }

  // ---------------------------------------------------------------- the environment count

  /** The largest value of an int, and the one that follows it when it overflows. */
  const MAX_INT := 0x7fff_ffff
  const MIN_INT := -0x8000_0000

  function Successor(i: int): int {
    if i == MAX_INT then MIN_INT else i + 1
  }

  /** `get_env_count_aux`, on a running maximum */
  function EnvCount(t: Tree, count: int): int {
    if t.Nil? then count
    else
      var c := EnvCount(t.right, EnvCount(t.left, count));
      if t.token.Dollar? && t.value.Int? && Successor(t.value.i) > c then Successor(t.value.i) else c
  }

  method GetEnvCountAux(t: Tree, countIn: int) returns (count: int)
    ensures count == EnvCount(t, countIn)
    decreases t
  {
    count := countIn;
    if t.Nil? {
      return;
    }
    count := GetEnvCountAux(t.left, count);
    count := GetEnvCountAux(t.right, count);
    if t.token.Dollar? && t.value.Int? {
      var n := Successor(t.value.i);
      if n > count {
        count := n;
      }
    }
  }

  /** The number of a `$<int>`. */
  function Own(t: Tree): set<int>
    requires t.Node?
  {
    if t.token.Dollar? && t.value.Int? then {t.value.i} else {}
  }

  /** The numbers of all `$<int>` in the tree. */
  function Indices(t: Tree): set<int> {
    if t.Nil? then {} else Indices(t.left) + Indices(t.right) + Own(t)
  }

  /** No number of arguments above the count is enough for these. */
  predicate Uncounted(i: int) {
    i < 0 || i == MAX_INT
  }

  /** The numbers in `r` are below `n`, but for the largest int. */
  ghost predicate AllBelow(r: set<int>, n: int) {
    forall i :: i in r && i != MAX_INT ==> i < n
  }

  lemma BelowAll(a: set<int>, b: set<int>, n: int)
    ensures AllBelow(a + b, n) <==> AllBelow(a, n) && AllBelow(b, n)
  {
    if AllBelow(a + b, n) {
      forall i | i in a && i != MAX_INT ensures i < n {
        assert i in a + b;
      }
      forall i | i in b && i != MAX_INT ensures i < n {
        assert i in a + b;
      }
    }
  }

  /** The count is the least number of arguments that covers every `$<int>`, but for the largest one there is. */
  lemma {:induction false} EnvCountIff(t: Tree, count: int, n: int)
    requires n >= MIN_INT
    ensures EnvCount(t, count) <= n <==> count <= n && AllBelow(Indices(t), n)
    decreases t
  {
    if t.Node? {
      EnvCountIff(t.left, count, n);
      EnvCountIff(t.right, EnvCount(t.left, count), n);
      BelowAll(Indices(t.left), Indices(t.right), n);
      BelowAll(Indices(t.left) + Indices(t.right), Own(t), n);
      assert AllBelow(Own(t), n) <==> (Own(t) == {} || Successor(t.value.i) <= n) by {
        assert Own(t) != {} ==> t.value.i in Own(t);
      }
    }
  }

  /** The numbers of the `$<int>` that evaluation comes to in a frame that holds `vs`. */
  function Reached(g: Setting, t: Tree, vs: seq<Value>): (r: set<int>)
    decreases t, 1
  {
    if t.Nil? then {}
    else
      match t.token
      case Comma =>
        var l := Denotes(g, t.left, []);
        Reached(g, t.left, []) + if l.Values? && g.accepts(l.vs) then Reached(g, t.right, vs) else {}
      case Semi => Reached(g, t.left, []) + if Denotes(g, t.left, []).Values? then Reached(g, t.right, vs) else {}
      case Tuple => Reached(g, t.left, [])
      case Element => ReachedBoth(g, t, [])
      case Space => ReachedBoth(g, t, vs)
      case Prefix => ReachedBoth(g, t, [])
      case Dollar => Own(t)
      case Unary(_) => Reached(g, t.left, vs)
      case Binary(_) => ReachedBoth(g, t, vs)
      case _ => {}
  }

  function ReachedBoth(g: Setting, t: Tree, vs: seq<Value>): (r: set<int>)
    requires t.Node?
    decreases t, 0
  {
    var l := Denotes(g, t.left, vs);
    Reached(g, t.left, vs) + if l.Values? then Reached(g, t.right, l.vs) else {}
  }

  lemma {:induction false} ReachedAre(g: Setting, t: Tree, vs: seq<Value>)
    ensures Reached(g, t, vs) <= Indices(t)
    decreases t
  {
    hide Denotes, DenotesBoth;
    if t.Node? {
      forall us: seq<Value> ensures Reached(g, t.left, us) <= Indices(t.left) {
        ReachedAre(g, t.left, us);
      }
      forall us: seq<Value> ensures Reached(g, t.right, us) <= Indices(t.right) {
        ReachedAre(g, t.right, us);
      }
      assert Indices(t) == Indices(t.left) + Indices(t.right) + Own(t);
      forall us: seq<Value> ensures ReachedBoth(g, t, us) <= Indices(t) {
      }
    }
  }

  /** There is no such argument. */
  predicate Lacks(g: Setting, i: int) {
    !(0 <= i < |g.args|)
  }

  ghost predicate AnyLacks(g: Setting, r: set<int>) {
    exists i :: i in r && Lacks(g, i)
  }

  predicate Missing(d: Meaning) {
    d.Error? && d.e.NoArgument?
  }

  /** The meaning is an error for want of an argument exactly when one of `r` is lacking, and names one that is. */
  ghost predicate MissesFrom(g: Setting, d: Meaning, r: set<int>) {
    (Missing(d) <==> AnyLacks(g, r)) && (Missing(d) ==> d.e.index in r && Lacks(g, d.e.index))
  }

  lemma MissesThen(g: Setting, l: Meaning, d: Meaning, a: set<int>, b: set<int>)
    requires l.Values? && MissesFrom(g, l, a) && MissesFrom(g, d, b)
    ensures forall calls :: MissesFrom(g, Behind(calls, d), a + b)
  {
    hide Lacks;
  }

  /** What is done with the values of a frame lacks no argument. */
  lemma MissesEnd(g: Setting, m: Meaning, d: Meaning, r: set<int>)
    requires MissesFrom(g, m, r) && (if m.Values? then !Missing(d) else d == m)
    ensures MissesFrom(g, d, r)
  {
    hide Lacks;
  }

  /** Evaluation fails for want of an argument exactly when it comes to a `$<int>` that has none. */
  lemma {:induction false} MissingIff(g: Setting, t: Tree, vs: seq<Value>)
    ensures MissesFrom(g, Denotes(g, t, vs), Reached(g, t, vs))
    decreases t, 1
  {
    hide Accessed, Applied, Operated, DenotesBoth, ReachedBoth, MissesFrom, AnyLacks, Lacks;
    var d := Denotes(g, t, vs);
    if t.Nil? {
      MissesNone(g, d);
    } else {
      match t.token
      case Comma =>
        MissingIff(g, t.left, []);
        var l := Denotes(g, t.left, []);
        if l.Values? && g.accepts(l.vs) {
          MissingIff(g, t.right, vs);
          MissesThen(g, l, Denotes(g, t.right, vs), Reached(g, t.left, []), Reached(g, t.right, vs));
        } else {
          MissesEnd(g, l, d, Reached(g, t.left, []));
          assert Reached(g, t, vs) == Reached(g, t.left, []);
        }
      case Semi =>
        MissingIff(g, t.left, []);
        var l := Denotes(g, t.left, []);
        if l.Values? {
          MissingIff(g, t.right, vs);
          MissesThen(g, l, Denotes(g, t.right, vs), Reached(g, t.left, []), Reached(g, t.right, vs));
        } else {
          assert Reached(g, t, vs) == Reached(g, t.left, []);
        }
      case Tuple =>
        MissingIff(g, t.left, []);
        MissesEnd(g, Denotes(g, t.left, []), d, Reached(g, t.left, []));
      case Element =>
        BothMissing(g, t, []);
        var m := DenotesBoth(g, t, []);
        if m.Values? { AccessedOk(g, m.vs); }
        MissesEnd(g, m, d, ReachedBoth(g, t, []));
      case Prefix =>
        BothMissing(g, t, []);
        var m := DenotesBoth(g, t, []);
        if m.Values? { AppliedOk(g, m.vs); }
        MissesEnd(g, m, d, ReachedBoth(g, t, []));
      case Space => BothMissing(g, t, vs);
      case Dollar => LookedMisses(g, t, vs);
      case Unary(_) =>
        MissingIff(g, t.left, vs);
        var l := Denotes(g, t.left, vs);
        if l.Values? { OperatedOk(g, t.token, l.vs); }
        MissesEnd(g, l, d, Reached(g, t.left, vs));
      case Binary(_) =>
        BothMissing(g, t, vs);
        var m := DenotesBoth(g, t, vs);
        if m.Values? { OperatedOk(g, t.token, m.vs); }
        MissesEnd(g, m, d, ReachedBoth(g, t, vs));
      case Const => MissesNone(g, d);
      case Equal => MissesNone(g, d);
    }
  }

  lemma {:induction false} BothMissing(g: Setting, t: Tree, vs: seq<Value>)
    requires t.Node?
    ensures MissesFrom(g, DenotesBoth(g, t, vs), ReachedBoth(g, t, vs))
    decreases t, 0
  {
    hide MissesFrom, AnyLacks, Lacks, Denotes, Reached;
    MissingIff(g, t.left, vs);
    var l := Denotes(g, t.left, vs);
    if l.Values? {
      MissingIff(g, t.right, l.vs);
      MissesThen(g, l, Denotes(g, t.right, l.vs), Reached(g, t.left, vs), Reached(g, t.right, l.vs));
    } else {
      assert ReachedBoth(g, t, vs) == Reached(g, t.left, vs);
    }
  }

  lemma MissesNone(g: Setting, d: Meaning)
    requires !Missing(d)
    ensures MissesFrom(g, d, {})
  {
  }

  lemma LookedMisses(g: Setting, t: Tree, vs: seq<Value>)
    requires t.Node? && t.token.Dollar?
    ensures MissesFrom(g, Denotes(g, t, vs), Own(t))
  {
    if t.value.Int? {
      assert t.value.i in Own(t);
    }
  }

  lemma AccessedOk(g: Setting, vs: seq<Value>)
    ensures Accessed(g, vs).0.Failed? ==> !Accessed(g, vs).0.e.NoArgument?
  {
  }

  lemma AppliedOk(g: Setting, vs: seq<Value>)
    ensures Applied(g, vs).0.Failed? ==> !Applied(g, vs).0.e.NoArgument?
  {
  }

  lemma OperatedOk(g: Setting, token: Token, vs: seq<Value>)
    ensures !Missing(Operated(g, token, vs))
  {
  }

  /** With at least as many arguments as the count says, evaluation fails for want of an argument exactly when it comes
      to a `$<int>` that the count does not cover: one below 0, or the largest int. */
  lemma EnvCountSuffices(g: Setting, t: Tree, vs: seq<Value>)
    requires EnvCount(t, 0) <= |g.args| <= MAX_INT
    ensures var d := Denotes(g, t, vs);
            && (Missing(d) <==> exists i :: i in Reached(g, t, vs) && Uncounted(i))
            && (Missing(d) ==> Uncounted(d.e.index))
  {
    hide Denotes, Reached;
    EnvCountIff(t, 0, |g.args|);
    ReachedAre(g, t, vs);
    MissingIff(g, t, vs);
    assert forall i :: i in Reached(g, t, vs) ==> (Lacks(g, i) <==> Uncounted(i));
  }

  /** The same of an evaluation on the stack. */
  lemma EnvCountSufficesRun(g: Setting, t: Tree)
    requires EnvCount(t, 0) <= |g.args| <= MAX_INT && EnoughOperands(g, t, [])
    ensures var s := Run(g, t, START, false).0;
            s.Failed? && s.e.NoArgument? <==> exists i :: i in Reached(g, t, []) && Uncounted(i)
  {
    hide Denotes, Reached, Run, EnoughOperands;
    EnvCountSuffices(g, t, []);
    EvaluationIsDenotation(g, t);
  }

  /** So nothing is missing when the count covers every `$<int>` of the tree. */
  lemma CountedSuffices(g: Setting, t: Tree, vs: seq<Value>)
    requires EnvCount(t, 0) <= |g.args| <= MAX_INT && forall i :: i in Indices(t) ==> !Uncounted(i)
    ensures !Missing(Denotes(g, t, vs))
  {
    hide Denotes, Reached;
    ReachedAre(g, t, vs);
    EnvCountSuffices(g, t, vs);
  }

  /** The expressions `$-1` and `$2147483647`: the count is 0, and evaluation fails with any number of arguments. */
  lemma UncountedFails(g: Setting, i: int)
    requires i == -1 || i == MAX_INT
    requires |g.args| <= MAX_INT
    ensures var t := Node(Comma, Void, Node(Dollar, Int(i), Nil, Nil), Nil);
            && EnvCount(t, 0) == 0 && Denotes(g, t, []) == Error(NoArgument(i), [])
            && Run(g, t, START, false).0 == Failed(NoArgument(i))
  {
    hide Run, EnoughOperands;
    var t := Node(Comma, Void, Node(Dollar, Int(i), Nil, Nil), Nil);
    assert EnvCount(t.left, 0) == 0;
    assert Denotes(g, t.left, []) == Error(NoArgument(i), []);
    ShortIff(g, t, []);
    EvaluationIsDenotation(g, t);
  }
}
