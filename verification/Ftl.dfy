/** FTL programs: an array of atoms is sized, compiled to words and run. */
module Ftl {

  const OPCODE_NOP := 123
  const OPCODE_RETURN := 124
  const OPCODE_CALL := 125

  /** `Raw` is an atom whose value is copied as it is, like a float. */
  datatype Atom<S> = Int(i: int) | Symbol(s: S) | Raw(w: int)

  /** What looking up a function or a signal gives: the word put in the bytecode for it. */
  datatype Tables<!S> = Tables(fun: S -> int, signal: S -> int)

  // ---------------------------------------------------------------- the state machine

  datatype State = Opcode | CallFun | CallArgc | CallArgv

  /** The state, and how many arguments of the current call are outstanding. */
  datatype Scan = Scan(state: State, argc: int)
  datatype Result = Ok(scan: Scan) | Invalid

  function Next<S>(m: Scan, a: Atom<S>): Result {
    match m.state
    case Opcode =>
      if a.Int? && a.i == OPCODE_CALL then Ok(m.(state := CallFun))
      else if a.Int? && (a.i == OPCODE_RETURN || a.i == OPCODE_NOP) then Ok(m)
      else Invalid
    case CallFun => if a.Symbol? then Ok(m.(state := CallArgc)) else Invalid
    case CallArgc => if a.Int? then Ok(Scan(if a.i > 0 then CallArgv else Opcode, a.i)) else Invalid
    case CallArgv => Ok(Scan(if m.argc - 1 <= 0 then Opcode else CallArgv, m.argc - 1))
  }

  /** What one atom adds to the counted size. */
  function SizeOf<S>(state: State, a: Atom<S>): int {
    if state == Opcode && a == Int(OPCODE_RETURN) then 1
    else if state == CallArgc && a.Int? then a.i + 2
    else 0
  }

  /** An argument is a signal's buffer or a plain value. */
  function Resolve<S>(t: Tables<S>, a: Atom<S>): int {
    match a
    case Symbol(s) => t.signal(s)
    case Int(i) => i
    case Raw(w) => w
  }

  /** The words one atom is compiled to. */
  function WordsOf<S>(t: Tables<S>, state: State, a: Atom<S>): seq<int> {
    match state
    case Opcode => if a == Int(OPCODE_RETURN) then [0] else []
    case CallFun => [if a.Symbol? then t.fun(a.s) else 0]
    case CallArgc => [if a.Int? then a.i else 0]
    case CallArgv =>
      [Resolve(t, a)]
  }

  /** A scan over some atoms: where it ends, the size it counts and the words it writes. */
  datatype Outcome = Rejected | Accepted(scan: Scan, size: int, words: seq<int>)

  function After(first: Outcome, second: Outcome): Outcome
    requires first.Accepted?
  {
    if second.Rejected? then Rejected else Accepted(second.scan, first.size + second.size, first.words + second.words)
  }

  function One<S>(t: Tables<S>, m: Scan, a: Atom<S>): Outcome {
    match Next(m, a)
    case Invalid => Rejected
    case Ok(m') => Accepted(m', SizeOf(m.state, a), WordsOf(t, m.state, a))
  }

  function Go<S>(t: Tables<S>, m: Scan, atoms: seq<Atom<S>>): Outcome
    decreases |atoms|
  {
    if atoms == [] then Accepted(m, 0, [])
    else
      var o := One(t, m, atoms[0]);
      if o.Rejected? then Rejected else After(o, Go(t, o.scan, atoms[1..]))
  }

  const START := Scan(Opcode, 0)

  lemma {:induction false} GoAppend<S>(t: Tables<S>, m: Scan, xs: seq<Atom<S>>, ys: seq<Atom<S>>)
    ensures Go(t, m, xs + ys) ==
            var o := Go(t, m, xs); if o.Rejected? then Rejected else After(o, Go(t, o.scan, ys))
    decreases |xs|
  {
    if xs == [] {
      assert xs + ys == ys;
    } else {
      assert (xs + ys)[1..] == xs[1..] + ys;
      var o := One(t, m, xs[0]);
      if o.Accepted? {
        GoAppend(t, o.scan, xs[1..], ys);
        if Go(t, o.scan, xs[1..]).Accepted? {
          var p := Go(t, o.scan, xs[1..]);
          if Go(t, p.scan, ys).Accepted? {
            assert (o.words + p.words) + Go(t, p.scan, ys).words == o.words + (p.words + Go(t, p.scan, ys).words);
          }
        }
      }
    }
  }

  lemma GoOne<S>(t: Tables<S>, m: Scan, atoms: seq<Atom<S>>, i: nat)
    requires i < |atoms|
    ensures Go(t, m, atoms[..i + 1]) ==
            var o := Go(t, m, atoms[..i]); if o.Rejected? then Rejected else
              var p := One(t, o.scan, atoms[i]); if p.Rejected? then Rejected else After(o, p)
    ensures Go(t, m, atoms[..i + 1]).Rejected? ==> Go(t, m, atoms).Rejected?
  {
    var last := [atoms[i]];
    assert atoms[..i + 1] == atoms[..i] + last;
    GoAppend(t, m, atoms[..i], last);
    assert atoms == atoms[..i + 1] + atoms[i + 1..];
    GoAppend(t, m, atoms[..i + 1], atoms[i + 1..]);
    var o := Go(t, m, atoms[..i]);
    if o.Accepted? && One(t, o.scan, atoms[i]).Accepted? {
      var p := One(t, o.scan, atoms[i]);
      assert Go(t, o.scan, last) == After(p, Go(t, p.scan, last[1..]));
      assert p.words + [] == p.words;
    }
  }

  /** `ftl_state_machine` with `bytecode_size_state_fun`. */
  method BytecodeSize<S>(ghost t: Tables<S>, atoms: seq<Atom<S>>) returns (ok: bool, size: int)
    ensures ok <==> Go(t, START, atoms).Accepted?
    ensures ok ==> size == Go(t, START, atoms).size
  {
    size := 0;
    var m := START;
    for i := 0 to |atoms|
      invariant var o := Go(t, START, atoms[..i]); o.Accepted? && o.scan == m && o.size == size
    {
      GoOne(t, START, atoms, i);
      var next := Next(m, atoms[i]);
      if next.Invalid? {
        return false, 0;
      }
      size := size + SizeOf(m.state, atoms[i]);
      m := next.scan;
    }
    assert atoms[..|atoms|] == atoms;
    ok := true;
  }

  /** `ftl_state_machine` with `compile_portable_state_fun`: writes through a moving bytecode pointer. */
  method CompilePortable<S>(t: Tables<S>, atoms: seq<Atom<S>>, bytecode: array<int>) returns (used: nat)
    requires Go(t, START, atoms).Accepted? && |Go(t, START, atoms).words| <= bytecode.Length
    modifies bytecode
    ensures used == |Go(t, START, atoms).words| && bytecode[..used] == Go(t, START, atoms).words
    ensures bytecode[used..] == old(bytecode[used..])
  {
    used := 0;
    var m := START;
    for i := 0 to |atoms|
      invariant var o := Go(t, START, atoms[..i]);
                o.Accepted? && o.scan == m && used == |o.words| <= bytecode.Length && bytecode[..used] == o.words
      invariant bytecode[used..] == old(bytecode[used..])
    {
      GoOne(t, START, atoms, i);
      WordsGrow(t, atoms, i + 1);
      var next := Next(m, atoms[i]);
      var ws := WordsOf(t, m.state, atoms[i]);
      if |ws| > 0 {
        bytecode[used] := ws[0];
        used := used + 1;
      }
      m := next.scan;
    }
    assert atoms[..|atoms|] == atoms;
  }

  /** A prefix of accepted atoms compiles to no more words. */
  lemma WordsGrow<S>(t: Tables<S>, atoms: seq<Atom<S>>, i: nat)
    requires i <= |atoms| && Go(t, START, atoms).Accepted?
    ensures Go(t, START, atoms[..i]).Accepted? && |Go(t, START, atoms[..i]).words| <= |Go(t, START, atoms).words|
  {
    assert atoms == atoms[..i] + atoms[i..];
    GoAppend(t, START, atoms[..i], atoms[i..]);
  }

  // ---------------------------------------------------------------- the counted size is the written size

  /** No argument count met from state `m` on is negative. */
  predicate CountsNatural<S>(m: Scan, atoms: seq<Atom<S>>)
    decreases |atoms|
  {
    atoms == [] ||
    ((m.state == CallArgc && atoms[0].Int? ==> atoms[0].i >= 0) &&
     (Next(m, atoms[0]).Ok? ==> CountsNatural(Next(m, atoms[0]).scan, atoms[1..])))
  }

  /** How far the counted size runs ahead of the words written in a given state. */
  function Ahead(m: Scan): int {
    match m.state
    case Opcode => 0
    case CallFun => 0
    case CallArgc => -1
    case CallArgv => m.argc
  }

  /** For every accepted program that does not stop inside a call, the bytecode is allocated exactly as large as
      what gets written into it. */
  lemma {:induction false} SizeIsExact<S>(t: Tables<S>, m: Scan, atoms: seq<Atom<S>>)
    requires Go(t, m, atoms).Accepted? && CountsNatural(m, atoms) && (m.state == CallArgv ==> m.argc > 0)
    ensures var o := Go(t, m, atoms); o.size - |o.words| == Ahead(o.scan) - Ahead(m)
    decreases |atoms|
  {
    if atoms != [] {
      SizeIsExact(t, One(t, m, atoms[0]).scan, atoms[1..]);
    }
  }

  // ---------------------------------------------------------------- calls

  datatype Op<S> = Nop | Return | Invoke(fun: S, args: seq<Atom<S>>)

  /** What `ftl_subroutine_add_call` and `ftl_subroutine_add_return` append. */
  function Assemble<S>(op: Op<S>): seq<Atom<S>> {
    match op
    case Nop => [Int(OPCODE_NOP)]
    case Return => [Int(OPCODE_RETURN)]
    case Invoke(f, args) => [Int(OPCODE_CALL), Symbol(f), Int(|args|)] + args
  }

  function Code<S>(ops: seq<Op<S>>): seq<Atom<S>> {
    if ops == [] then [] else Assemble(ops[0]) + Code(ops[1..])
  }

  lemma {:induction false} CodeAppend<S>(ops: seq<Op<S>>, op: Op<S>)
    ensures Code(ops + [op]) == Code(ops) + Assemble(op)
  {
    var all, last := ops + [op], Assemble(op);
    if ops == [] {
      assert all[1..] == [];
      assert Code(all) == last + [] == last;
    } else {
      CodeAppend(ops[1..], op);
      assert all[1..] == ops[1..] + [op];
      var first, rest := Assemble(ops[0]), Code(ops[1..]);
      assert first + (rest + last) == (first + rest) + last;
    }
  }

  class Subroutine<S> {
    var instructions: seq<Atom<S>>

    constructor ()
      ensures instructions == []
    {
      instructions := [];
    }

    method AddCall(name: S, args: seq<Atom<S>>, ghost ops: seq<Op<S>>)
      requires instructions == Code(ops)
      modifies this
      ensures instructions == Code(ops + [Invoke(name, args)])
    {
      instructions := instructions + [Int(OPCODE_CALL)];
      instructions := instructions + [Symbol(name)];
      instructions := instructions + [Int(|args|)];
      instructions := instructions + args;
      CodeAppend(ops, Invoke(name, args));
    }

    method AddReturn(ghost ops: seq<Op<S>>)
      requires instructions == Code(ops)
      modifies this
      ensures instructions == Code(ops + [Return])
    {
      instructions := instructions + [Int(OPCODE_RETURN)];
      CodeAppend(ops, Op<S>.Return);
    }
  }

  datatype Invocation = Invocation(fun: int, args: seq<int>)

  function ResolveAll<S>(t: Tables<S>, args: seq<Atom<S>>): (ws: seq<int>)
    ensures |ws| == |args|
  {
    seq(|args|, i requires 0 <= i < |args| => Resolve(t, args[i]))
  }

  /** The invocation a call stands for. */
  function Meaning<S>(t: Tables<S>, op: Op<S>): Invocation
    requires op.Invoke?
  {
    Invocation(t.fun(op.fun), ResolveAll(t, op.args))
  }

  function OpWords<S>(t: Tables<S>, op: Op<S>): seq<int> {
    match op
    case Nop => []
    case Return => [0]
    case Invoke(f, args) => [t.fun(f), |args|] + ResolveAll(t, args)
  }

  lemma GoStep<S>(t: Tables<S>, m: Scan, a: Atom<S>, rest: seq<Atom<S>>, m': Scan, size: int, words: seq<int>)
    requires One(t, m, a) == Accepted(m', size, words)
    ensures Go(t, m, [a] + rest) == var o := Go(t, m', rest); if o.Rejected? then Rejected else
                                      Accepted(o.scan, size + o.size, words + o.words)
  {
    var all := [a] + rest;
    assert all[0] == a && all[1..] == rest;
  }

  /** The atoms and the words of a call, front to back. */
  lemma InvokeShape<S>(t: Tables<S>, f: S, args: seq<Atom<S>>)
    ensures Assemble(Invoke(f, args)) == [Int(OPCODE_CALL)] + ([Symbol(f)] + ([Int(|args|)] + args))
    ensures |OpWords(t, Invoke(f, args))| == |args| + 2
    ensures OpWords(t, Invoke(f, args)) == [] + ([t.fun(f)] + ([|args|] + ResolveAll(t, args)))
  {
  }

  lemma InvokeCompiles<S>(t: Tables<S>, f: S, args: seq<Atom<S>>)
    ensures Go(t, START, [Int(OPCODE_CALL)] + ([Symbol(f)] + ([Int(|args|)] + args))) ==
            Accepted(START, |args| + 2, [] + ([t.fun(f)] + ([|args|] + ResolveAll(t, args))))
  {
    var n := |args|;
    var m1, m2, m3 := Scan(CallFun, 0), Scan(CallArgc, 0), Scan(if n > 0 then CallArgv else Opcode, n);
    var argc := [Int(n)] + args;
    assert Go(t, m2, argc) == Accepted(START, n + 2, [n] + ResolveAll(t, args)) by {
      ArgvCompiles(t, args);
      GoStep(t, m2, Int(n), args, m3, n + 2, [n]);
    }
    var call := [Symbol(f)] + argc;
    assert Go(t, m1, call) == Accepted(START, n + 2, [t.fun(f)] + ([n] + ResolveAll(t, args))) by {
      GoStep(t, m1, Symbol(f), argc, m2, 0, [t.fun(f)]);
    }
    GoStep(t, START, Int(OPCODE_CALL), call, m1, 0, []);
  }

  /** Each call is compiled to its function, its argument count and its resolved arguments, and sized accordingly. */
  lemma OpCompiles<S>(t: Tables<S>, op: Op<S>)
    ensures Go(t, START, Assemble(op)) == Accepted(START, |OpWords(t, op)|, OpWords(t, op))
  {
    match op
    case Nop =>
    case Return =>
      assert Assemble(op)[1..] == [];
    case Invoke(f, args) =>
      InvokeShape(t, f, args);
      InvokeCompiles(t, f, args);
  }

  lemma {:induction false} ArgvCompiles<S>(t: Tables<S>, args: seq<Atom<S>>)
    ensures Go(t, Scan(if |args| > 0 then CallArgv else Opcode, |args|), args) ==
            Accepted(START, 0, ResolveAll(t, args))
  {
    if args != [] {
      ArgvCompiles(t, args[1..]);
      assert ResolveAll(t, args) == [Resolve(t, args[0])] + ResolveAll(t, args[1..]);
    }
  }

  function CodeWords<S>(t: Tables<S>, ops: seq<Op<S>>): seq<int> {
    if ops == [] then [] else OpWords(t, ops[0]) + CodeWords(t, ops[1..])
  }

  /** Every sequence of appended calls and returns is accepted, sized exactly and compiled call by call. */
  lemma {:induction false} CodeCompiles<S>(t: Tables<S>, ops: seq<Op<S>>)
    ensures Go(t, START, Code(ops)) == Accepted(START, |CodeWords(t, ops)|, CodeWords(t, ops))
  {
    if ops != [] {
      CodeCompiles(t, ops[1..]);
      GoAppend(t, START, Assemble(ops[0]), Code(ops[1..]));
      OpCompiles(t, ops[0]);
    }
  }

  lemma CodeCons<S>(op: Op<S>, ops: seq<Op<S>>)
    ensures Code([op] + ops) == Assemble(op) + Code(ops)
  {
    assert ([op] + ops)[0] == op && ([op] + ops)[1..] == ops;
  }

  /** Accepted up to the end of an instruction, with no negative argument count. */
  ghost predicate Whole<S(!new)>(t: Tables<S>, m: Scan, atoms: seq<Atom<S>>) {
    Go(t, m, atoms).Accepted? && Go(t, m, atoms).scan.state == Opcode && CountsNatural(m, atoms)
  }

  lemma WholeStep<S(!new)>(t: Tables<S>, m: Scan, atoms: seq<Atom<S>>)
    requires Whole(t, m, atoms) && atoms != []
    ensures Next(m, atoms[0]).Ok? && Whole(t, Next(m, atoms[0]).scan, atoms[1..])
  {
  }

  lemma CallFollows<S(!new)>(t: Tables<S>, atoms: seq<Atom<S>>) returns (rest: seq<Atom<S>>, f: S, args: seq<Atom<S>>)
    requires Whole(t, START, atoms) && atoms != [] && atoms[0] == Int(OPCODE_CALL)
    ensures atoms == Assemble(Invoke(f, args)) + rest && Whole(t, START, rest) && |rest| < |atoms|
  {
    hide Go, CountsNatural;
    WholeStep(t, START, atoms);
    var a1 := atoms[1..];
    WholeEnds(t, Scan(CallFun, 0), a1);
    WholeStep(t, Scan(CallFun, 0), a1);
    var a2 := a1[1..];
    WholeEnds(t, Scan(CallArgc, 0), a2);
    WholeStep(t, Scan(CallArgc, 0), a2);
    f := a1[0].s;
    var n := a2[0].i;
    CountIs(t, a2);
    rest := ArgumentsFollow(t, n, a2[1..]);
    args := a2[1..][..n];
    assert atoms == [atoms[0]] + ([a1[0]] + ([a2[0]] + (args + rest)));
    InvokeShape(t, f, args);
  }

  lemma SimpleIs<S>()
    ensures Assemble(Op<S>.Return) == [Int(OPCODE_RETURN)] && Assemble(Op<S>.Nop) == [Int(OPCODE_NOP)]
  {
  }

  /** In the middle of an instruction something has to follow. */
  lemma WholeEnds<S(!new)>(t: Tables<S>, m: Scan, atoms: seq<Atom<S>>)
    requires Whole(t, m, atoms) && m.state != Opcode
    ensures atoms != []
  {
  }

  lemma CountIs<S(!new)>(t: Tables<S>, atoms: seq<Atom<S>>)
    requires Whole(t, Scan(CallArgc, 0), atoms) && atoms != []
    ensures atoms[0].Int? && atoms[0].i >= 0
  {
  }

  /** From the opcode state on, what is accepted and ends there is the code of some calls, returns and empty
      instructions. */
  lemma {:induction false} IsCode<S(!new)>(t: Tables<S>, atoms: seq<Atom<S>>) returns (ops: seq<Op<S>>)
    requires Whole(t, START, atoms)
    ensures atoms == Code(ops)
    decreases |atoms|
  {
    hide Go, CountsNatural, Assemble;
    if atoms != [] {
      WholeStep(t, START, atoms);
    }
    if atoms == [] {
      ops := [];
    } else if atoms[0] == Int(OPCODE_CALL) {
      var rest, f, args := CallFollows(t, atoms);
      ops := IsCode(t, rest);
      CodeCons(Invoke(f, args), ops);
      ops := [Invoke(f, args)] + ops;
    } else {
      SimpleIs<S>();
      var rest := IsCode(t, atoms[1..]);
      var op := if atoms[0] == Int(OPCODE_RETURN) then Op<S>.Return else Nop;
      CodeCons(op, rest);
      assert atoms == [atoms[0]] + atoms[1..];
      ops := [op] + rest;
    }
  }

  /** `n` outstanding arguments are taken, whatever they are. */
  lemma {:induction false} ArgumentsFollow<S(!new)>(t: Tables<S>, n: int, atoms: seq<Atom<S>>)
    returns (rest: seq<Atom<S>>)
    requires n >= 0
    requires Whole(t, Scan(if n > 0 then CallArgv else Opcode, n), atoms)
    ensures n <= |atoms| && rest == atoms[n..] && Whole(t, START, rest)
    decreases n
  {
    if n == 0 {
      rest := atoms;
    } else {
      WholeEnds(t, Scan(CallArgv, n), atoms);
      WholeStep(t, Scan(CallArgv, n), atoms);
      rest := ArgumentsFollow(t, n - 1, atoms[1..]);
    }
  }

  /** The state machine accepts, up to the end of an instruction, exactly the code of calls, returns and empty
      instructions. */
  lemma AcceptsIff<S(!new)>(t: Tables<S>, atoms: seq<Atom<S>>)
    requires CountsNatural(START, atoms)
    ensures Go(t, START, atoms).Accepted? && Go(t, START, atoms).scan.state == Opcode <==>
            exists ops :: atoms == Code(ops)
  {
    if Go(t, START, atoms).Accepted? && Go(t, START, atoms).scan.state == Opcode {
      var ops := IsCode(t, atoms);
    }
    if ops :| atoms == Code(ops) {
      CodeCompiles(t, ops);
    }
  }

  // ---------------------------------------------------------------- running

  /** The words are a row of invocations that a zero word ends; nothing is said about what follows the zero. */
  predicate Halts(ws: seq<int>)
    decreases |ws|
  {
    |ws| > 0 && (ws[0] == 0 || (2 <= |ws| && 0 <= ws[1] <= |ws| - 2 && Halts(ws[ws[1] + 2..])))
  }

  function Trace(ws: seq<int>): seq<Invocation>
    requires Halts(ws)
    decreases |ws|
  {
    if ws[0] == 0 then [] else [Invocation(ws[0], ws[2..ws[1] + 2])] + Trace(ws[ws[1] + 2..])
  }

  lemma TraceStep(done: seq<Invocation>, ws: seq<int>)
    requires Halts(ws) && ws[0] != 0
    ensures Halts(ws[ws[1] + 2..])
    ensures done + Trace(ws) == (done + [Invocation(ws[0], ws[2..ws[1] + 2])]) + Trace(ws[ws[1] + 2..])
  {
  }

  /** `ftl_program_call_subr`: invokes functions until it meets a zero word. */
  method CallSubroutine(bytecode: array<int>) returns (trace: seq<Invocation>)
    requires Halts(bytecode[..])
    ensures trace == Trace(bytecode[..])
  {
    hide Trace;
    trace := [];
    var pc: nat := 0;
    ghost var rest := bytecode[..];
    while bytecode[pc] != 0
      invariant pc < bytecode.Length && rest == bytecode[pc..] && Halts(rest)
      invariant trace + Trace(rest) == Trace(bytecode[..])
      decreases bytecode.Length - pc
    {
      TraceStep(trace, rest);
      var argc := bytecode[pc + 1];
      assert bytecode[pc + 2..pc + 2 + argc] == rest[2..argc + 2];
      trace := trace + [Invocation(bytecode[pc], bytecode[pc + 2..pc + 2 + argc])];
      pc := pc + argc + 2;
      rest := rest[argc + 2..];
    }
    TraceEnds(rest);
    assert trace + [] == trace;
  }

  lemma TraceEnds(ws: seq<int>)
    requires Halts(ws) && ws[0] == 0
    ensures Trace(ws) == []
  {
  }

  /** What running a subroutine should invoke: its calls in order, up to the first return or to a call whose
      function has no address, which the run cannot tell from a return. */
  function Invocations<S>(t: Tables<S>, ops: seq<Op<S>>): seq<Invocation> {
    if ops == [] || ops[0].Return? then []
    else if ops[0].Nop? then Invocations(t, ops[1..])
    else if t.fun(ops[0].fun) == 0 then []
    else [Meaning(t, ops[0])] + Invocations(t, ops[1..])
  }

  lemma {:induction false} CodeTrace<S>(t: Tables<S>, ops: seq<Op<S>>, ws: seq<int>)
    requires ws == CodeWords(t, ops + [Return])
    ensures Halts(ws) && Trace(ws) == Invocations(t, ops)
    decreases |ops|
  {
    var all := ops + [Op<S>.Return];
    if ops == [] {
      assert ws == [0] + CodeWords(t, all[1..]);
    } else {
      assert all[1..] == ops[1..] + [Return];
      var rest := CodeWords(t, all[1..]);
      CodeTrace(t, ops[1..], rest);
      if ops[0].Nop? {
        assert ws == rest;
      } else if ops[0].Invoke? {
        var n := |ops[0].args|;
        assert ws == [t.fun(ops[0].fun), n] + ResolveAll(t, ops[0].args) + rest;
        assert ws[n + 2..] == rest && ws[2..n + 2] == ResolveAll(t, ops[0].args);
      }
    }
  }

  /** The invocation of a call: the function its name has in the table, on its arguments in order, symbols being looked
      up as signals. */
  predicate Stands<S>(t: Tables<S>, op: Op<S>, inv: Invocation) {
    && op.Invoke? && inv.fun == t.fun(op.fun) && |inv.args| == |op.args|
    && forall i :: 0 <= i < |op.args| ==>
         inv.args[i] == var a := op.args[i]; if a.Symbol? then t.signal(a.s) else if a.Int? then a.i else a.w
  }

  /** Every call is invoked, in order, exactly when there is no return between the calls and every function called
      has an address. */
  lemma {:induction false} AllInvokedIff<S>(t: Tables<S>, ops: seq<Op<S>>)
    requires forall i :: 0 <= i < |ops| ==> !ops[i].Nop?
    ensures |Invocations(t, ops)| <= |ops|
    ensures forall i :: 0 <= i < |Invocations(t, ops)| ==>
              ops[i].Invoke? && Invocations(t, ops)[i] == Meaning(t, ops[i])
              && Stands(t, ops[i], Invocations(t, ops)[i])
    ensures |Invocations(t, ops)| == |ops| <==> forall i :: 0 <= i < |ops| ==> ops[i].Invoke? && t.fun(ops[i].fun) != 0
  {
    if ops != [] {
      AllInvokedIff(t, ops[1..]);
      if ops[0].Invoke? && t.fun(ops[0].fun) != 0 {
        var rest := ops[1..];
        assert forall i :: 1 <= i < |ops| ==> rest[i - 1] == ops[i];
        assert forall i :: 0 <= i < |rest| ==> ops[i + 1] == rest[i];
      }
    }
  }

  /** A subroutine made of any calls and a return, sized, compiled into an array of exactly that size and run,
      invokes exactly those functions, in order, on the resolved arguments. */
  method CompileAndRun<S>(t: Tables<S>, instructions: seq<Atom<S>>, ghost ops: seq<Op<S>>)
    returns (trace: seq<Invocation>)
    requires instructions == Code(ops + [Return])
    ensures trace == Invocations(t, ops)
  {
    CodeCompiles(t, ops + [Return]);
    CodeTrace(t, ops, CodeWords(t, ops + [Return]));
    var ok, size := BytecodeSize(t, instructions);
    var bytecode := new int[size];
    var used := CompilePortable(t, instructions, bytecode);
    assert bytecode[..] == bytecode[..used];
    trace := CallSubroutine(bytecode);
  }
}
