/** A tick of a compiled graph down to the words and the samples: the calls of the program are lowered to an FTL
    subroutine, its words are run, and every call reads and writes slices of one buffer. */
module DspRun {
  import opened SignalProgram
  import opened DspGraph
  import opened DspMeaning
  import Ftl
  import Hashtable

  // ---------------------------------------------------------------- vectors of samples

  /** What nodes compute: for each node a function from its input vectors to its output vectors. */
  type Behaviour<!R> = (nat, seq<seq<R>>) -> seq<seq<R>>

  /** Samples with a zero and a sum, and what the nodes compute. */
  datatype Kernel<!R> = Kernel(zero: R, plus: (R, R) -> R, node: Behaviour<R>)

  /** The samples alone, as the values of a graph. */
  function Samples<R>(k: Kernel<R>): Values<R> {
    Values(k.zero, k.plus, (n, ins) => [], s => k.zero)
  }

  /** A vector goes on with zeros. */
  function At<R>(k: Kernel<R>, v: seq<R>, j: nat): R {
    if j < |v| then v[j] else k.zero
  }

  function Sum<R>(k: Kernel<R>, x: seq<R>, y: seq<R>): (s: seq<R>)
    ensures |s| == if |x| < |y| then |y| else |x|
  {
    seq(if |x| < |y| then |y| else |x|, (j: nat) => k.plus(At(k, x, j), At(k, y, j)))
  }

  /** A vector as a buffer of `len` samples holds it. */
  function Fit<R>(k: Kernel<R>, len: nat, v: seq<R>): (r: seq<R>)
    ensures |r| == len
  {
    seq(len, (j: nat) => At(k, v, j))
  }

  function FitAll<R>(k: Kernel<R>, len: nat, vs: seq<seq<R>>): (r: seq<seq<R>>)
    ensures |r| == |vs|
  {
    seq(|vs|, i requires 0 <= i < |vs| => Fit(k, len, vs[i]))
  }

  function Computed<R>(k: Kernel<R>, len: nat, n: nat, ins: seq<seq<R>>): seq<seq<R>> {
    FitAll(k, len, k.node(n, FitAll(k, len, ins)))
  }

  /** Whole vectors as the values of a graph. */
  function Vectors<R>(k: Kernel<R>, len: nat, start: nat -> seq<R>): Values<seq<R>> {
    Values([], (x, y) => Sum(k, x, y), (n, ins) => Computed(k, len, n, ins), start)
  }

  lemma SumAt<R>(k: Kernel<R>, x: seq<R>, y: seq<R>, j: nat)
    requires k.plus(k.zero, k.zero) == k.zero
    ensures At(k, Sum(k, x, y), j) == k.plus(At(k, x, j), At(k, y, j))
  {
  }

  lemma SameVector<R>(k: Kernel<R>, x: seq<R>, y: seq<R>)
    requires |x| == |y| && forall j: nat :: At(k, x, j) == At(k, y, j)
    ensures x == y
  {
    forall j | 0 <= j < |x| ensures x[j] == y[j] {
      assert At(k, x, j) == At(k, y, j);
    }
  }

  lemma ZeroIsNeutral<R(!new)>(k: Kernel<R>)
    requires Lawful(Samples(k))
    ensures k.plus(k.zero, k.zero) == k.zero
  {
    assert Laws(Samples(k), k.zero, k.zero, k.zero);
  }

  /** Vectors add up sample by sample, so they obey the laws that samples obey. */
  lemma VectorsLawful<R(!new)>(k: Kernel<R>, len: nat, start: nat -> seq<R>)
    requires Lawful(Samples(k))
    ensures Lawful(Vectors(k, len, start))
  {
    var a := Vectors(k, len, start);
    ZeroIsNeutral(k);
    forall x: seq<R>, y: seq<R>, z: seq<R> ensures Laws(a, x, y, z) {
      VectorLaws(k, x, y, z);
    }
  }

  lemma VectorLaws<R(!new)>(k: Kernel<R>, x: seq<R>, y: seq<R>, z: seq<R>)
    requires Lawful(Samples(k)) && k.plus(k.zero, k.zero) == k.zero
    ensures Sum(k, [], x) == x && Sum(k, x, y) == Sum(k, y, x)
    ensures Sum(k, Sum(k, x, y), z) == Sum(k, x, Sum(k, y, z))
  {
    hide Sum;
    forall j: nat
      ensures At(k, Sum(k, [], x), j) == At(k, x, j) && At(k, Sum(k, x, y), j) == At(k, Sum(k, y, x), j)
      ensures At(k, Sum(k, Sum(k, x, y), z), j) == At(k, Sum(k, x, Sum(k, y, z)), j)
    {
      SumAt(k, [], x, j);
      SumAt(k, x, y, j);
      SumAt(k, y, x, j);
      SumAt(k, y, z, j);
      SumAt(k, Sum(k, x, y), z, j);
      SumAt(k, x, Sum(k, y, z), j);
      assert Laws(Samples(k), At(k, x, j), At(k, y, j), At(k, z, j));
    }
    SameVector(k, Sum(k, [], x), x);
    SameVector(k, Sum(k, x, y), Sum(k, y, x));
    SameVector(k, Sum(k, Sum(k, x, y), z), Sum(k, x, Sum(k, y, z)));
  }

  lemma FitSum<R>(k: Kernel<R>, len: nat, x: seq<R>, y: seq<R>)
    requires k.plus(k.zero, k.zero) == k.zero
    ensures Sum(k, Fit(k, len, x), Fit(k, len, y)) == Fit(k, len, Sum(k, x, y))
  {
    forall j: nat | j < len ensures Sum(k, Fit(k, len, x), Fit(k, len, y))[j] == Fit(k, len, Sum(k, x, y))[j] {
      SumAt(k, x, y, j);
      SumAt(k, Fit(k, len, x), Fit(k, len, y), j);
      assert At(k, Fit(k, len, x), j) == At(k, x, j) && At(k, Fit(k, len, y), j) == At(k, y, j);
    }
  }

  lemma FitTwice<R>(k: Kernel<R>, len: nat, vs: seq<seq<R>>)
    ensures FitAll(k, len, FitAll(k, len, vs)) == FitAll(k, len, vs)
  {
    forall i | 0 <= i < |vs| ensures FitAll(k, len, FitAll(k, len, vs))[i] == FitAll(k, len, vs)[i] {
      assert Fit(k, len, Fit(k, len, vs[i])) == Fit(k, len, vs[i]);
    }
  }

  /** Sample `j` of everything the nodes put out. */
  function SampleOf<R>(k: Kernel<R>, outs: map<nat, seq<seq<R>>>, j: nat): map<nat, seq<R>> {
    map n | n in outs :: seq(|outs[n]|, o requires 0 <= o < |outs[n]| => At(k, outs[n][o], j))
  }

  /** The sum of vectors at an inlet is, sample by sample, the sum of samples. */
  lemma {:induction false} EdgeSumAt<R>(k: Kernel<R>, len: nat, start: nat -> seq<R>, g: Graph,
                                        outs: map<nat, seq<seq<R>>>, m: nat, e: nat, n: nat, i: nat, j: nat)
    requires k.plus(k.zero, k.zero) == k.zero
    requires m <= |g.edges| && e <= if m < |g.edges| then |g.edges[m]| else 0
    ensures At(k, EdgeSum(Vectors(k, len, start), g, outs, m, e, n, i), j) ==
            EdgeSum(Samples(k), g, SampleOf(k, outs, j), m, e, n, i)
    decreases m, e
  {
    var a := Vectors(k, len, start);
    if e > 0 {
      EdgeSumAt(k, len, start, g, outs, m, e - 1, n, i, j);
      var v := Value(a, outs, Output(m, g.edges[m][e - 1].outlet));
      SumAt(k, EdgeSum(a, g, outs, m, e - 1, n, i), v, j);
      assert At(k, v, j) == Value(Samples(k), SampleOf(k, outs, j), Output(m, g.edges[m][e - 1].outlet));
    } else if m > 0 {
      EdgeSumAt(k, len, start, g, outs, m - 1, |g.edges[m - 1]|, n, i, j);
    }
  }

  // ---------------------------------------------------------------- slices of the buffer

  function Slice<R>(mem: seq<R>, at: int, len: nat): seq<R> {
    if 0 <= at <= |mem| - len then mem[at..at + len] else []
  }

  function Write<R>(mem: seq<R>, at: int, v: seq<R>): (mem': seq<R>)
    ensures |mem'| == |mem|
  {
    if 0 <= at <= |mem| - |v| then mem[..at] + v + mem[at + |v|..] else mem
  }

  /** Signal `s` has the slice at `addr[s]`: all in the buffer, no two overlapping. */
  predicate Laid(addr: seq<int>, len: nat, total: nat) {
    && (forall s :: 0 <= s < |addr| ==> 0 <= addr[s] <= total - len)
    && (forall s, t :: 0 <= s < t < |addr| ==> Apart(addr[s], addr[t], len))
  }

  predicate Apart(x: int, y: int, len: nat) {
    x + len <= y || y + len <= x
  }

  lemma WriteSlice<R>(mem: seq<R>, x: int, y: int, v: seq<R>)
    requires 0 <= x <= |mem| - |v| && 0 <= y <= |mem| - |v| && (x == y || Apart(x, y, |v|))
    ensures Slice(Write(mem, x, v), y, |v|) == if x == y then v else Slice(mem, y, |v|)
  {
  }

  /** Every declared signal of one size: what the allocation of signals gives. */
  lemma AllocatedIsLaid(sizes: seq<nat>, cells: seq<nat>, addresses: seq<int>, total: nat, len: nat)
    requires Hashtable.Allocated(sizes, cells, addresses, total)
    requires forall s :: 0 <= s < |sizes| ==> sizes[s] == len && s in cells
    ensures Laid(addresses, len, total)
  {
    hide Hashtable.Sum;
    forall s | 0 <= s < |addresses| ensures 0 <= addresses[s] <= total - len {
      var i := CellOf(sizes, cells, len, s);
      Hashtable.SumGrows(sizes, cells, i, |cells|);
    }
    forall s, t | 0 <= s < t < |addresses| ensures Apart(addresses[s], addresses[t], len) {
      var i := CellOf(sizes, cells, len, s);
      var j := CellOf(sizes, cells, len, t);
      if i < j {
        Hashtable.SumGrows(sizes, cells, i, j);
      } else {
        Hashtable.SumGrows(sizes, cells, j, i);
      }
    }
  }

  lemma CellOf(sizes: seq<nat>, cells: seq<nat>, len: nat, s: nat) returns (i: nat)
    requires forall s :: 0 <= s < |sizes| ==> sizes[s] == len && s in cells
    requires s < |sizes|
    ensures i < |cells| && cells[i] == s && sizes[s] == len
  {
    assert sizes[s] == len;
    i :| i < |cells| && cells[i] == s;
  }

  // ---------------------------------------------------------------- lowering

  datatype Name = Signal(s: nat) | BuiltinAdd | Wrapper(node: nat)

  function Signals(ss: seq<nat>): (r: seq<Ftl.Atom<Name>>)
    ensures |r| == |ss|
  {
    seq(|ss|, i requires 0 <= i < |ss| => Ftl.Symbol(Signal(ss[i])))
  }

  /** The call that stands for an instruction. */
  function Lower(len: nat, i: Instr): Ftl.Op<Name> {
    match i
    case Add(x, y, z) => Ftl.Invoke(BuiltinAdd, Signals([x, y, z]) + [Ftl.Int(len)])
    case Put(n, ins, outs) => Ftl.Invoke(Wrapper(n), Signals(ins) + Signals(outs))
  }

  function LowerAll(len: nat, prog: seq<Instr>): (ops: seq<Ftl.Op<Name>>)
    ensures |ops| == |prog|
  {
    seq(|prog|, i requires 0 <= i < |prog| => Lower(len, prog[i]))
  }

  datatype Routine = AddRoutine | NodeRoutine(n: nat, nin: nat)

  /** What sits at each function address, and the tables the linker used. */
  ghost predicate Linked(g: Graph, t: Ftl.Tables<Name>, routines: int -> Routine, addr: seq<int>) {
    && t.fun(BuiltinAdd) != 0 && routines(t.fun(BuiltinAdd)) == AddRoutine
    && (forall n: nat :: n < |g.nin| ==>
          t.fun(Wrapper(n)) != 0 && routines(t.fun(Wrapper(n))) == NodeRoutine(n, g.nin[n]))
    && (forall s: nat :: s < |addr| ==> t.signal(Signal(s)) == addr[s])
  }

  function Addresses(addr: seq<int>, ss: seq<nat>): (r: seq<int>)
    requires forall s :: s in ss ==> s < |addr|
    ensures |r| == |ss|
  {
    seq(|ss|, i requires 0 <= i < |ss| => assert ss[i] in ss; addr[ss[i]])
  }

  lemma SignalsResolve(t: Ftl.Tables<Name>, addr: seq<int>, ss: seq<nat>)
    requires forall s :: s in ss ==> s < |addr|
    requires forall s: nat :: s < |addr| ==> t.signal(Signal(s)) == addr[s]
    ensures Ftl.ResolveAll(t, Signals(ss)) == Addresses(addr, ss)
  {
    forall i | 0 <= i < |ss| ensures Ftl.ResolveAll(t, Signals(ss))[i] == Addresses(addr, ss)[i] {
      assert ss[i] in ss;
    }
  }

  lemma ResolveBoth(t: Ftl.Tables<Name>, xs: seq<Ftl.Atom<Name>>, ys: seq<Ftl.Atom<Name>>)
    ensures Ftl.ResolveAll(t, xs + ys) == Ftl.ResolveAll(t, xs) + Ftl.ResolveAll(t, ys)
  {
  }

  // ---------------------------------------------------------------- running the calls

  /** The buffer, and what every node has read and computed in this tick. */
  datatype Run<R> = Run(mem: seq<R>, read: map<nat, seq<seq<R>>>, wrote: map<nat, seq<seq<R>>>)

  function Out<R>(k: Kernel<R>, len: nat, outs: seq<seq<R>>, o: nat): (v: seq<R>)
    ensures |v| == len
  {
    Fit(k, len, if o < |outs| then outs[o] else [])
  }

  function WriteOutputs<R>(k: Kernel<R>, len: nat, mem: seq<R>, at: seq<int>, outs: seq<seq<R>>): (mem': seq<R>)
    ensures |mem'| == |mem|
  {
    if at == [] then mem
    else
      var o := |at| - 1;
      Write(WriteOutputs(k, len, mem, at[..o], outs), at[o], Out(k, len, outs, o))
  }

  function ReadInputs<R>(mem: seq<R>, at: seq<int>, len: nat): (ins: seq<seq<R>>)
    ensures |ins| == |at|
  {
    seq(|at|, i requires 0 <= i < |at| => Slice(mem, at[i], len))
  }

  function Call<R>(k: Kernel<R>, len: nat, routines: int -> Routine, r: Run<R>, c: Ftl.Invocation): Run<R> {
    match routines(c.fun)
    case AddRoutine =>
      if |c.args| < 4 || c.args[3] < 0 then r
      else
        var n := c.args[3];
        r.(mem := Write(r.mem, c.args[2], Sum(k, Slice(r.mem, c.args[0], n), Slice(r.mem, c.args[1], n))))
    case NodeRoutine(n, nin) =>
      if |c.args| < nin then r
      else
        var ins := ReadInputs(r.mem, c.args[..nin], len);
        var outs := FitAll(k, len, k.node(n, ins));
        Run(WriteOutputs(k, len, r.mem, c.args[nin..], outs), r.read[n := ins], r.wrote[n := outs])
  }

  function CallAll<R>(k: Kernel<R>, len: nat, routines: int -> Routine, r: Run<R>, trace: seq<Ftl.Invocation>): Run<R> {
    if trace == [] then r
    else Call(k, len, routines, CallAll(k, len, routines, r, trace[..|trace| - 1]), trace[|trace| - 1])
  }

  /** One tick from buffer contents `mem`. */
  function Tick<R>(k: Kernel<R>, len: nat, t: Ftl.Tables<Name>, routines: int -> Routine, mem: seq<R>,
                   prog: seq<Instr>): Run<R> {
    CallAll(k, len, routines, Run(mem, map[], map[]), Ftl.Invocations(t, LowerAll(len, prog)))
  }

  // ---------------------------------------------------------------- the calls do what the program says

  /** The values the program works on, seen from a buffer. */
  function Seen<R>(k: Kernel<R>, len: nat, addr: seq<int>, mem: seq<R>): Values<seq<R>> {
    Vectors(k, len, (s: nat) => if s < |addr| then Slice(mem, addr[s], len) else [])
  }

  /** Every slice holds what the machine that runs the program has in that signal. */
  ghost predicate Mirrors<R(!new)>(k: Kernel<R>, len: nat, addr: seq<int>, mem: seq<R>, a: Values<seq<R>>,
                                   buf: map<nat, seq<R>>) {
    forall s: nat :: s < |addr| ==> Slice(mem, addr[s], len) == Fit(k, len, Fetch(a, buf, s))
  }

  ghost predicate Simulates<R(!new)>(k: Kernel<R>, len: nat, addr: seq<int>, r: Run<R>, a: Values<seq<R>>,
                                     m: Machine<seq<R>>) {
    && Mirrors(k, len, addr, r.mem, a, m.buf)
    && r.read.Keys == m.seen.Keys && r.wrote == m.made
    && forall n :: n in r.read ==> r.read[n] == FitAll(k, len, m.seen[n])
  }

  /** A buffer in which the zero signal is silent. */
  predicate Prepared<R(==)>(k: Kernel<R>, len: nat, addr: seq<int>, total: nat, mem: seq<R>) {
    |mem| == total && |addr| > 0 && Laid(addr, len, total) && Slice(mem, addr[0], len) == Fit(k, len, [])
  }

  lemma MirrorsStart<R(!new)>(k: Kernel<R>, len: nat, addr: seq<int>, mem: seq<R>)
    requires Prepared(k, len, addr, |mem|, mem)
    ensures Mirrors(k, len, addr, mem, Seen(k, len, addr, mem), map[])
  {
    forall s: nat | s < |addr|
      ensures Slice(mem, addr[s], len) == Fit(k, len, Fetch(Seen(k, len, addr, mem), map[], s))
    {
      assert |Slice(mem, addr[s], len)| == len;
    }
  }

  /** The buffer after one write to signal `z`. */
  lemma MirrorsWrite<R(!new)>(k: Kernel<R>, len: nat, addr: seq<int>, mem: seq<R>, a: Values<seq<R>>,
                              buf: map<nat, seq<R>>, z: nat, v: seq<R>)
    requires Laid(addr, len, |mem|) && z < |addr| && Mirrors(k, len, addr, mem, a, buf)
    ensures Mirrors(k, len, addr, Write(mem, addr[z], Fit(k, len, v)), a, buf[z := v])
  {
    hide Fit, Write, Slice;
    var mem' := Write(mem, addr[z], Fit(k, len, v));
    forall s: nat | s < |addr| ensures Slice(mem', addr[s], len) == Fit(k, len, Fetch(a, buf[z := v], s)) {
      assert s < z ==> Apart(addr[s], addr[z], len);
      assert z < s ==> Apart(addr[z], addr[s], len);
      WriteSlice(mem, addr[z], addr[s], Fit(k, len, v));
      if s != z && addr[s] == addr[z] {
        assert len == 0;
        assert Fit(k, len, v) == Fit(k, len, Fetch(a, buf, s));
      }
    }
  }

  /** `__builtin_add` on the slices is the sum of the signals, even when it writes over one of its inputs. */
  lemma AddSimulates<R(!new)>(k: Kernel<R>, len: nat, addr: seq<int>, routines: int -> Routine, r: Run<R>,
                              a: Values<seq<R>>, m: Machine<seq<R>>, i: Instr, c: Ftl.Invocation)
    requires i.Add? && Within(i, |addr|) && Laid(addr, len, |r.mem|) && Simulates(k, len, addr, r, a, m)
    requires k.plus(k.zero, k.zero) == k.zero && a == Vectors(k, len, a.start)
    requires routines(c.fun) == AddRoutine && c.args == [addr[i.x], addr[i.y], addr[i.z], len]
    ensures Simulates(k, len, addr, Call(k, len, routines, r, c), a, Step(a, m, i))
  {
    hide Sum, Fit, Write, Slice, FitAll, Computed;
    var x, y := Fetch(a, m.buf, i.x), Fetch(a, m.buf, i.y);
    FitSum(k, len, x, y);
    assert a.plus(x, y) == Sum(k, x, y);
    MirrorsWrite(k, len, addr, r.mem, a, m.buf, i.z, Sum(k, x, y));
  }

  lemma {:induction false} OutputsMirror<R(!new)>(k: Kernel<R>, len: nat, addr: seq<int>, mem: seq<R>,
                                                  a: Values<seq<R>>, buf: map<nat, seq<R>>, outs: seq<nat>,
                                                  vs: seq<seq<R>>)
    requires (forall s :: s in outs ==> s < |addr|) && Laid(addr, len, |mem|) && Mirrors(k, len, addr, mem, a, buf)
    requires a.zero == []
    ensures Mirrors(k, len, addr, WriteOutputs(k, len, mem, Addresses(addr, outs), vs), a, Store(a, buf, vs, outs))
  {
    hide Mirrors, Fit, Write;
    if outs != [] {
      var o := |outs| - 1;
      assert outs[o] in outs && forall s :: s in outs[..o] ==> s in outs;
      var at := Addresses(addr, outs);
      OutputsMirror(k, len, addr, mem, a, buf, outs[..o], vs);
      assert at[..o] == Addresses(addr, outs[..o]);
      var mem1 := WriteOutputs(k, len, mem, at[..o], vs);
      MirrorsWrite(k, len, addr, mem1, a, Store(a, buf, vs, outs[..o]), outs[o], Nth(a, vs, o));
    }
  }

  lemma PutSimulates<R(!new)>(k: Kernel<R>, len: nat, addr: seq<int>, routines: int -> Routine, r: Run<R>,
                              a: Values<seq<R>>, m: Machine<seq<R>>, i: Instr, c: Ftl.Invocation)
    requires i.Put? && Within(i, |addr|) && Laid(addr, len, |r.mem|) && Simulates(k, len, addr, r, a, m)
    requires a == Vectors(k, len, a.start) && routines(c.fun) == NodeRoutine(i.node, |i.ins|)
    requires c.args == Addresses(addr, i.ins) + Addresses(addr, i.outs)
    ensures Simulates(k, len, addr, Call(k, len, routines, r, c), a, Step(a, m, i))
  {
    hide Fit, Write, Slice, Sum, WriteOutputs, Store, Fetch;
    var vs, nin := Inputs(a, m.buf, i.ins), |i.ins|;
    assert c.args[..nin] == Addresses(addr, i.ins) && c.args[nin..] == Addresses(addr, i.outs);
    var ins := ReadInputs(r.mem, c.args[..nin], len);
    assert ins == FitAll(k, len, vs) by {
      forall j | 0 <= j < nin ensures ins[j] == FitAll(k, len, vs)[j] {
        assert i.ins[j] in i.ins;
      }
    }
    var ws := a.node(i.node, vs);
    assert ws == Computed(k, len, i.node, vs) == FitAll(k, len, k.node(i.node, ins));
    OutputsMirror(k, len, addr, r.mem, a, m.buf, i.outs, ws);
  }

  /** How many inputs the call of a node has. */
  lemma {:induction false} PutArity(prog: seq<Instr>, j: nat)
    requires WellFormed(prog) && j < |prog| && prog[j].Put?
    ensures prog[j].node in SymExec(prog).seen && |SymExec(prog).seen[prog[j].node]| == |prog[j].ins|
  {
    var last := |prog| - 1;
    if j < last {
      PutArity(prog[..last], j);
      assert prog[..last][j] == prog[j];
    }
  }

  /** The invocation an instruction of a compiled program ends up as. */
  lemma Resolved(g: Graph, t: Ftl.Tables<Name>, routines: int -> Routine, addr: seq<int>, len: nat, i: Instr)
    requires Linked(g, t, routines, addr) && Within(i, |addr|)
    requires i.Put? ==> i.node < |g.nin| && |i.ins| == g.nin[i.node]
    ensures var c := Ftl.Meaning(t, Lower(len, i));
            match i
            case Add(x, y, z) => routines(c.fun) == AddRoutine && c.args == [addr[x], addr[y], addr[z], len]
            case Put(n, ins, outs) =>
              routines(c.fun) == NodeRoutine(n, |ins|) && c.args == Addresses(addr, ins) + Addresses(addr, outs)
    ensures t.fun(Lower(len, i).fun) != 0
  {
    match i
    case Add(x, y, z) =>
      SignalsResolve(t, addr, [x, y, z]);
      ResolveBoth(t, Signals([x, y, z]), [Ftl.Int(len)]);
      assert Ftl.ResolveAll(t, [Ftl.Int(len)]) == [len];
    case Put(n, ins, outs) =>
      SignalsResolve(t, addr, ins);
      SignalsResolve(t, addr, outs);
      ResolveBoth(t, Signals(ins), Signals(outs));
  }

  /** The instructions of a compiled program fit the graph and the signals allocated for it. */
  ghost predicate Fits(g: Graph, addr: seq<int>, prog: seq<Instr>) {
    forall j :: 0 <= j < |prog| ==>
      Within(prog[j], |addr|) && (prog[j].Put? ==> prog[j].node < |g.nin| && |prog[j].ins| == g.nin[prog[j].node])
  }

  lemma CompiledFits(g: Graph, addr: seq<int>, prog: seq<Instr>)
    requires Compiled(g, prog) && AllWithin(prog, |addr|)
    ensures Fits(g, addr, prog)
  {
    forall j | 0 <= j < |prog| && prog[j].Put? ensures prog[j].node < |g.nin| && |prog[j].ins| == g.nin[prog[j].node] {
      PutArity(prog, j);
      assert ReadsFanIn(g, SymExec(prog), prog[j].node);
    }
  }

  /** Running the calls one by one is running the program. */
  lemma {:induction false} CallsSimulate<R(!new)>(k: Kernel<R>, g: Graph, t: Ftl.Tables<Name>,
                                                  routines: int -> Routine, addr: seq<int>, len: nat, mem: seq<R>,
                                                  prog: seq<Instr>, trace: seq<Ftl.Invocation>)
    requires Prepared(k, len, addr, |mem|, mem) && k.plus(k.zero, k.zero) == k.zero
    requires Linked(g, t, routines, addr) && Fits(g, addr, prog)
    requires |trace| == |prog| && forall j :: 0 <= j < |prog| ==> trace[j] == Ftl.Meaning(t, Lower(len, prog[j]))
    ensures var a, r := Seen(k, len, addr, mem), CallAll(k, len, routines, Run(mem, map[], map[]), trace);
            |r.mem| == |mem| && Simulates(k, len, addr, r, a, Exec(a, prog))
  {
    hide Simulates, Call, Step, Laid, Linked;
    var a := Seen(k, len, addr, mem);
    if prog == [] {
      MirrorsStart(k, len, addr, mem);
      SimulatesStart(k, len, addr, mem);
    } else {
      var last := |prog| - 1;
      var prog0, trace0, i, c := prog[..last], trace[..last], prog[last], trace[last];
      assert Fits(g, addr, prog0);
      CallsSimulate(k, g, t, routines, addr, len, mem, prog0, trace0);
      var r, m := CallAll(k, len, routines, Run(mem, map[], map[]), trace0), Exec(a, prog0);
      Resolved(g, t, routines, addr, len, i);
      CallSize(k, len, routines, r, c);
      if i.Add? {
        AddSimulates(k, len, addr, routines, r, a, m, i, c);
      } else {
        PutSimulates(k, len, addr, routines, r, a, m, i, c);
      }
    }
  }

  lemma SimulatesStart<R(!new)>(k: Kernel<R>, len: nat, addr: seq<int>, mem: seq<R>)
    requires Mirrors(k, len, addr, mem, Seen(k, len, addr, mem), map[])
    ensures Simulates(k, len, addr, Run(mem, map[], map[]), Seen(k, len, addr, mem), Machine(map[], map[], map[]))
  {
  }

  lemma CallSize<R>(k: Kernel<R>, len: nat, routines: int -> Routine, r: Run<R>, c: Ftl.Invocation)
    ensures |Call(k, len, routines, r, c).mem| == |r.mem|
  {
  }

  /** A well-formed program never writes the zero signal. */
  lemma {:induction false} ZeroUntouched<V>(a: Values<V>, prog: seq<Instr>)
    requires WellFormed(prog)
    ensures ZERO_SIGNAL !in Exec(a, prog).buf
  {
    if prog != [] {
      var last := |prog| - 1;
      ZeroUntouched(a, prog[..last]);
      if prog[last].Put? {
        var m := Exec(a, prog[..last]);
        StoreKeys(a, m.buf, a.node(prog[last].node, Inputs(a, m.buf, prog[last].ins)), prog[last].outs);
      }
    }
  }

  lemma {:induction false} StoreKeys<V>(a: Values<V>, buf: map<nat, V>, vs: seq<V>, outs: seq<nat>)
    ensures forall s :: s in Store(a, buf, vs, outs) <==> s in buf || s in outs
  {
    if outs != [] {
      var o := |outs| - 1;
      StoreKeys(a, buf, vs, outs[..o]);
      assert outs == outs[..o] + [outs[o]];
    }
  }

  // ---------------------------------------------------------------- the whole tick

  /** What a tick has to do: each node in the program reads at each inlet, sample by sample, the sum of what the edges
      that carry a signal there bring, and computes its function of that. */
  ghost predicate Computes<R(!new)>(k: Kernel<R>, g: Graph, len: nat, r: Run<R>, n: nat) {
    && n in r.read && n in r.wrote && n < |g.nin| && |r.read[n]| == g.nin[n]
    && (forall i: nat, j: nat :: i < g.nin[n] && j < len ==>
          |r.read[n][i]| == len && r.read[n][i][j] == InletValue(Samples(k), g, SampleOf(k, r.wrote, j), n, i))
    && r.wrote[n] == FitAll(k, len, k.node(n, r.read[n]))
  }

  /** From graph to samples: compile the graph, lower the calls, compile them to words, run the words on one buffer of
      disjoint slices, in which the zero signal is silent and every other slice holds anything.  Every node computes
      what the graph says, and the zero signal is silent again for the next tick. */
  lemma TickComputesGraph<R(!new)>(k: Kernel<R>, g: Graph, t: Ftl.Tables<Name>, routines: int -> Routine,
                                   addr: seq<int>, len: nat, mem: seq<R>, prog: seq<Instr>)
    requires Compiled(g, prog) && AllWithin(prog, |addr|) && Lawful(Samples(k))
    requires Prepared(k, len, addr, |mem|, mem) && Linked(g, t, routines, addr)
    ensures var r := Tick(k, len, t, routines, mem, prog);
            Prepared(k, len, addr, |mem|, r.mem) && forall n :: n in PutNodes(prog) ==> Computes(k, g, len, r, n)
  {
    hide Compiled, Linked, Lawful, Simulates;
    var a := Seen(k, len, addr, mem);
    var ops := LowerAll(len, prog);
    CompiledFits(g, addr, prog);
    forall j | 0 <= j < |ops| ensures ops[j].Invoke? && t.fun(ops[j].fun) != 0 {
      Resolved(g, t, routines, addr, len, prog[j]);
    }
    Ftl.AllInvokedIff(t, ops);
    ZeroIsNeutral(k);
    CallsSimulate(k, g, t, routines, addr, len, mem, prog, Ftl.Invocations(t, ops));
    SilentAgain(k, g, addr, len, mem, prog, Tick(k, len, t, routines, mem, prog));
    VectorsLawful(k, len, a.start);
    forall n | n in PutNodes(prog) ensures Computes(k, g, len, Tick(k, len, t, routines, mem, prog), n) {
      NodeComputes(k, g, addr, len, mem, prog, Tick(k, len, t, routines, mem, prog), n);
    }
  }

  lemma SilentAgain<R(!new)>(k: Kernel<R>, g: Graph, addr: seq<int>, len: nat, mem: seq<R>, prog: seq<Instr>, r: Run<R>)
    requires Compiled(g, prog) && Prepared(k, len, addr, |mem|, mem) && |r.mem| == |mem|
    requires Simulates(k, len, addr, r, Seen(k, len, addr, mem), Exec(Seen(k, len, addr, mem), prog))
    ensures Prepared(k, len, addr, |mem|, r.mem)
  {
    hide Exec, SymExec, Fit, Slice;
    ZeroUntouched(Seen(k, len, addr, mem), prog);
  }

  lemma NodeComputes<R(!new)>(k: Kernel<R>, g: Graph, addr: seq<int>, len: nat, mem: seq<R>, prog: seq<Instr>,
                              r: Run<R>, n: nat)
    requires Compiled(g, prog) && n in PutNodes(prog)
    requires Lawful(Seen(k, len, addr, mem)) && k.plus(k.zero, k.zero) == k.zero
    requires Simulates(k, len, addr, r, Seen(k, len, addr, mem), Exec(Seen(k, len, addr, mem), prog))
    ensures Computes(k, g, len, r, n)
  {
    hide Compiled, Lawful, Exec, EdgeSum, Mirrors, SampleOf;
    var a := Seen(k, len, addr, mem);
    var m := Exec(a, prog);
    CompiledCorrect(g, prog, a, n);
    CompiledValid(g, prog);
    forall i: nat, j: nat | i < g.nin[n] && j < len
      ensures |r.read[n][i]| == len && r.read[n][i][j] == InletValue(Samples(k), g, SampleOf(k, r.wrote, j), n, i)
    {
      EdgeSumAt(k, len, a.start, g, m.made, |g.edges|, 0, n, i, j);
    }
    FitTwice(k, len, m.seen[n]);
  }

  lemma CompiledValid(g: Graph, prog: seq<Instr>)
    requires Compiled(g, prog)
    ensures Valid(g)
  {
  }

  /** What a node computes is written as it is when its vectors have the length of a tick. */
  lemma FitsAsItIs<R>(k: Kernel<R>, len: nat, vs: seq<seq<R>>)
    requires forall i :: 0 <= i < |vs| ==> |vs[i]| == len
    ensures FitAll(k, len, vs) == vs
  {
    forall i | 0 <= i < |vs| ensures Fit(k, len, vs[i]) == vs[i] {
      assert forall j :: 0 <= j < len ==> Fit(k, len, vs[i])[j] == vs[i][j];
    }
  }

  // ---------------------------------------------------------------- tick after tick

  /** The buffer as it is allocated: zeros everywhere. */
  lemma AllocatedIsPrepared<R>(k: Kernel<R>, sizes: seq<nat>, cells: seq<nat>, addresses: seq<int>, len: nat,
                               mem: seq<R>)
    requires Hashtable.Allocated(sizes, cells, addresses, |mem|) && |sizes| > 0
    requires forall s :: 0 <= s < |sizes| ==> sizes[s] == len && s in cells
    requires forall j :: 0 <= j < |mem| ==> mem[j] == k.zero
    ensures Prepared(k, len, addresses, |mem|, mem)
  {
    AllocatedIsLaid(sizes, cells, addresses, |mem|, len);
  }

  /** What is left in the buffer by ticks in which the nodes compute `nodes[0]`, `nodes[1]` and so on. */
  function Leftover<R>(k: Kernel<R>, nodes: seq<Behaviour<R>>, len: nat, t: Ftl.Tables<Name>,
                       routines: int -> Routine, mem: seq<R>, prog: seq<Instr>): seq<R>
  {
    if nodes == [] then mem
    else
      var last := |nodes| - 1;
      Tick(k.(node := nodes[last]), len, t, routines, Leftover(k, nodes[..last], len, t, routines, mem, prog), prog).mem
  }

  lemma OtherNodes<R(!new)>(k: Kernel<R>, node: Behaviour<R>)
    requires Lawful(Samples(k))
    ensures Lawful(Samples(k.(node := node)))
  {
    forall x: R, y: R, z: R ensures Laws(Samples(k.(node := node)), x, y, z) {
      assert Laws(Samples(k), x, y, z);
    }
  }

  lemma {:induction false} LeftoverPrepared<R(!new)>(k: Kernel<R>, nodes: seq<Behaviour<R>>, g: Graph,
                                                     t: Ftl.Tables<Name>, routines: int -> Routine, addr: seq<int>,
                                                     len: nat, mem: seq<R>, prog: seq<Instr>)
    requires Compiled(g, prog) && AllWithin(prog, |addr|) && Lawful(Samples(k))
    requires Prepared(k, len, addr, |mem|, mem) && Linked(g, t, routines, addr)
    ensures Prepared(k, len, addr, |mem|, Leftover(k, nodes, len, t, routines, mem, prog))
  {
    hide Compiled, Linked, Lawful, Tick, AllWithin, Laid;
    if nodes != [] {
      var last := |nodes| - 1;
      var k', mem' := k.(node := nodes[last]), Leftover(k, nodes[..last], len, t, routines, mem, prog);
      LeftoverPrepared(k, nodes[..last], g, t, routines, addr, len, mem, prog);
      OtherNodes(k, nodes[last]);
      assert Fit(k', len, []) == Fit(k, len, []);
      TickComputesGraph(k', g, t, routines, addr, len, mem', prog);
    }
  }

  /** In every tick of every run each node computes what the graph says, whatever the ticks before left behind. */
  lemma EveryTickComputes<R(!new)>(k: Kernel<R>, nodes: seq<Behaviour<R>>, g: Graph, t: Ftl.Tables<Name>,
                                   routines: int -> Routine, addr: seq<int>, len: nat, mem: seq<R>, prog: seq<Instr>,
                                   j: nat, n: nat)
    requires Compiled(g, prog) && AllWithin(prog, |addr|) && Lawful(Samples(k))
    requires Prepared(k, len, addr, |mem|, mem) && Linked(g, t, routines, addr)
    requires j < |nodes| && n in PutNodes(prog)
    ensures var k' := k.(node := nodes[j]);
            Computes(k', g, len, Tick(k', len, t, routines, Leftover(k, nodes[..j], len, t, routines, mem, prog),
                                      prog), n)
  {
    hide Compiled, Linked, Lawful, Tick, AllWithin, Laid, Computes, Leftover;
    var k', mem' := k.(node := nodes[j]), Leftover(k, nodes[..j], len, t, routines, mem, prog);
    LeftoverPrepared(k, nodes[..j], g, t, routines, addr, len, mem, prog);
    OtherNodes(k, nodes[j]);
    assert Fit(k', len, []) == Fit(k, len, []);
    TickComputesGraph(k', g, t, routines, addr, len, mem', prog);
  }

  // ---------------------------------------------------------------- in place

  /** `dsp_graph_builtin_add`: the sum may be written over an input. */
  method AddVectors<R>(k: Kernel<R>, buffers: array<R>, in1: int, in2: int, out: int, n: nat)
    requires 0 <= in1 <= buffers.Length - n && 0 <= in2 <= buffers.Length - n && 0 <= out <= buffers.Length - n
    requires (in1 == out || Apart(in1, out, n)) && (in2 == out || Apart(in2, out, n))
    modifies buffers
    ensures buffers[..] == Write(old(buffers[..]), out,
                                 Sum(k, Slice(old(buffers[..]), in1, n), Slice(old(buffers[..]), in2, n)))
  {
    hide Sum, Slice, Write;
    ghost var mem := buffers[..];
    ghost var v := Sum(k, Slice(mem, in1, n), Slice(mem, in2, n));
    SumSize(k, mem, in1, in2, n);
    for i := 0 to n
      invariant forall p :: out <= p < out + i ==> buffers[p] == v[p - out]
      invariant forall p :: 0 <= p < out || out + i <= p < buffers.Length ==> buffers[p] == mem[p]
    {
      SumOfSlices(k, mem, in1, in2, n, i);
      buffers[out + i] := k.plus(buffers[in1 + i], buffers[in2 + i]);
    }
    WrittenIs(mem, buffers[..], out, v);
  }

  lemma SumSize<R>(k: Kernel<R>, mem: seq<R>, in1: int, in2: int, n: nat)
    requires 0 <= in1 <= |mem| - n && 0 <= in2 <= |mem| - n
    ensures |Sum(k, Slice(mem, in1, n), Slice(mem, in2, n))| == n
  {
  }

  lemma SumOfSlices<R>(k: Kernel<R>, mem: seq<R>, in1: int, in2: int, n: nat, i: nat)
    requires 0 <= in1 <= |mem| - n && 0 <= in2 <= |mem| - n && i < n
    ensures var v := Sum(k, Slice(mem, in1, n), Slice(mem, in2, n));
            |v| == n && v[i] == k.plus(mem[in1 + i], mem[in2 + i])
  {
    var x, y := Slice(mem, in1, n), Slice(mem, in2, n);
    assert x[i] == mem[in1 + i] && y[i] == mem[in2 + i];
    assert Sum(k, x, y)[i] == k.plus(At(k, x, i), At(k, y, i));
  }

  lemma WrittenIs<R>(mem: seq<R>, mem': seq<R>, at: int, v: seq<R>)
    requires 0 <= at <= |mem| - |v| && |mem'| == |mem|
    requires forall p :: at <= p < at + |v| ==> mem'[p] == v[p - at]
    requires forall p :: 0 <= p < at || at + |v| <= p < |mem| ==> mem'[p] == mem[p]
    ensures mem' == Write(mem, at, v)
  {
  }

  method StoreVector<R>(buffers: array<R>, at: int, v: seq<R>)
    requires 0 <= at <= buffers.Length - |v|
    modifies buffers
    ensures buffers[..] == Write(old(buffers[..]), at, v)
  {
    hide Write;
    ghost var mem := buffers[..];
    for i := 0 to |v|
      invariant forall p :: at <= p < at + i ==> buffers[p] == v[p - at]
      invariant forall p :: 0 <= p < at || at + i <= p < buffers.Length ==> buffers[p] == mem[p]
    {
      buffers[at + i] := v[i];
    }
    WrittenIs(mem, buffers[..], at, v);
  }

  /** A call whose signal arguments are slices of the buffer. */
  predicate Safe(routines: int -> Routine, addr: seq<int>, len: nat, c: Ftl.Invocation) {
    match routines(c.fun)
    case AddRoutine => |c.args| == 4 && c.args[0] in addr && c.args[1] in addr && c.args[2] in addr && c.args[3] == len
    case NodeRoutine(_, nin) => nin <= |c.args| && forall x :: x in c.args ==> x in addr
  }

  lemma SlotsApart(addr: seq<int>, len: nat, total: nat, x: int, y: int)
    requires Laid(addr, len, total) && x in addr && y in addr
    ensures 0 <= x <= total - len && (x == y || Apart(x, y, len))
  {
    var s :| 0 <= s < |addr| && addr[s] == x;
    var t :| 0 <= t < |addr| && addr[t] == y;
    assert s < t ==> Apart(addr[s], addr[t], len);
    assert t < s ==> Apart(addr[t], addr[s], len);
  }

  /** Runs one call on the buffer. */
  method Execute<R>(k: Kernel<R>, len: nat, routines: int -> Routine, ghost addr: seq<int>, buffers: array<R>,
                    c: Ftl.Invocation, read: map<nat, seq<seq<R>>>, wrote: map<nat, seq<seq<R>>>)
    returns (read': map<nat, seq<seq<R>>>, wrote': map<nat, seq<seq<R>>>)
    requires Laid(addr, len, buffers.Length) && Safe(routines, addr, len, c)
    modifies buffers
    ensures Run(buffers[..], read', wrote') == Call(k, len, routines, Run(old(buffers[..]), read, wrote), c)
  {
    hide Laid, Write, Sum, Fit, Slice;
    match routines(c.fun)
    case AddRoutine =>
      SlotsApart(addr, len, buffers.Length, c.args[0], c.args[2]);
      SlotsApart(addr, len, buffers.Length, c.args[1], c.args[2]);
      SlotsApart(addr, len, buffers.Length, c.args[2], c.args[2]);
      AddVectors(k, buffers, c.args[0], c.args[1], c.args[2], c.args[3]);
      read', wrote' := read, wrote;
    case NodeRoutine(n, nin) =>
      ghost var mem := buffers[..];
      var ins := LoadInputs(buffers, addr, c.args[..nin], len);
      var outs := FitAll(k, len, k.node(n, ins));
      StoreOutputs(k, len, addr, buffers, c.args[nin..], outs);
      read', wrote' := read[n := ins], wrote[n := outs];
  }

  method LoadInputs<R>(buffers: array<R>, ghost addr: seq<int>, at: seq<int>, len: nat) returns (ins: seq<seq<R>>)
    requires Laid(addr, len, buffers.Length) && forall x :: x in at ==> x in addr
    ensures ins == ReadInputs(buffers[..], at, len)
  {
    ins := [];
    for i := 0 to |at|
      invariant |ins| == i && forall j :: 0 <= j < i ==> ins[j] == Slice(buffers[..], at[j], len)
    {
      SlotsApart(addr, len, buffers.Length, at[i], at[i]);
      assert buffers[..][at[i]..at[i] + len] == buffers[at[i]..at[i] + len];
      ins := ins + [buffers[at[i]..at[i] + len]];
    }
  }

  method StoreOutputs<R>(k: Kernel<R>, len: nat, ghost addr: seq<int>, buffers: array<R>, at: seq<int>,
                         outs: seq<seq<R>>)
    requires Laid(addr, len, buffers.Length) && forall x :: x in at ==> x in addr
    modifies buffers
    ensures buffers[..] == WriteOutputs(k, len, old(buffers[..]), at, outs)
  {
    hide Laid, Write, Fit;
    for o := 0 to |at|
      invariant buffers[..] == WriteOutputs(k, len, old(buffers[..]), at[..o], outs)
    {
      SlotsApart(addr, len, buffers.Length, at[o], at[o]);
      StoreVector(buffers, at[o], Out(k, len, outs, o));
      assert at[..o + 1][..o] == at[..o];
    }
    assert at[..|at|] == at;
  }

  /** Runs the calls of a tick, one after the other, in place. */
  method ExecuteAll<R>(k: Kernel<R>, len: nat, routines: int -> Routine, ghost addr: seq<int>, buffers: array<R>,
                       trace: seq<Ftl.Invocation>)
    returns (read: map<nat, seq<seq<R>>>, wrote: map<nat, seq<seq<R>>>)
    requires Laid(addr, len, buffers.Length) && forall j :: 0 <= j < |trace| ==> Safe(routines, addr, len, trace[j])
    modifies buffers
    ensures Run(buffers[..], read, wrote) ==
            CallAll(k, len, routines, Run(old(buffers[..]), map[], map[]), trace)
  {
    hide Laid, Safe, Call;
    read, wrote := map[], map[];
    for j := 0 to |trace|
      invariant Run(buffers[..], read, wrote) ==
                CallAll(k, len, routines, Run(old(buffers[..]), map[], map[]), trace[..j])
    {
      read, wrote := Execute(k, len, routines, addr, buffers, trace[j], read, wrote);
      assert trace[..j + 1][..j] == trace[..j];
    }
    assert trace[..|trace|] == trace;
  }

  /** The calls of the program and a return, as `ftl_program_add_call` and `ftl_program_add_return` append them. */
  method Assemble(len: nat, prog: seq<Instr>) returns (main: Ftl.Subroutine<Name>)
    ensures fresh(main) && main.instructions == Ftl.Code(LowerAll(len, prog) + [Ftl.Return])
  {
    main := new Ftl.Subroutine();
    ghost var ops: seq<Ftl.Op<Name>> := [];
    for j := 0 to |prog|
      invariant fresh(main) && ops == LowerAll(len, prog[..j]) && main.instructions == Ftl.Code(ops)
    {
      var op := Lower(len, prog[j]);
      main.AddCall(op.fun, op.args, ops);
      ops := ops + [op];
      assert ops == LowerAll(len, prog[..j + 1]);
    }
    assert prog[..|prog|] == prog;
    main.AddReturn(ops);
  }

  lemma AddressesIn(addr: seq<int>, ss: seq<nat>)
    requires forall s :: s in ss ==> s < |addr|
    ensures forall x :: x in Addresses(addr, ss) ==> x in addr
  {
    forall x | x in Addresses(addr, ss) ensures x in addr {
      var j :| 0 <= j < |ss| && Addresses(addr, ss)[j] == x;
      assert ss[j] in ss && x == addr[ss[j]];
    }
  }

  lemma CallsSafe(g: Graph, t: Ftl.Tables<Name>, routines: int -> Routine, addr: seq<int>, len: nat, i: Instr)
    requires Linked(g, t, routines, addr) && Within(i, |addr|)
    requires i.Put? ==> i.node < |g.nin| && |i.ins| == g.nin[i.node]
    ensures Safe(routines, addr, len, Ftl.Meaning(t, Lower(len, i)))
  {
    hide Linked;
    Resolved(g, t, routines, addr, len, i);
    if i.Put? {
      AddressesIn(addr, i.ins);
      AddressesIn(addr, i.outs);
    }
  }

  /** One tick of a compiled graph on one buffer, run word by word and sample by sample. */
  method RunTick<R(!new)>(k: Kernel<R>, ghost g: Graph, t: Ftl.Tables<Name>, routines: int -> Routine,
                          ghost addr: seq<int>, len: nat, buffers: array<R>, prog: seq<Instr>)
    returns (read: map<nat, seq<seq<R>>>, wrote: map<nat, seq<seq<R>>>)
    requires Compiled(g, prog) && AllWithin(prog, |addr|) && Lawful(Samples(k))
    requires Prepared(k, len, addr, buffers.Length, buffers[..]) && Linked(g, t, routines, addr)
    modifies buffers
    ensures Run(buffers[..], read, wrote) == Tick(k, len, t, routines, old(buffers[..]), prog)
    ensures Prepared(k, len, addr, buffers.Length, buffers[..])
    ensures forall n :: n in PutNodes(prog) ==> Computes(k, g, len, Run(buffers[..], read, wrote), n)
  {
    hide Compiled, AllWithin, Lawful, Linked, Computes, Safe, Slice, Ftl.Code, Ftl.Invocations;
    TickComputesGraph(k, g, t, routines, addr, len, buffers[..], prog);
    var main := Assemble(len, prog);
    var trace := Ftl.CompileAndRun(t, main.instructions, LowerAll(len, prog));
    CompiledFits(g, addr, prog);
    forall j | 0 <= j < |prog| ensures t.fun(LowerAll(len, prog)[j].fun) != 0 && LowerAll(len, prog)[j].Invoke? {
      Resolved(g, t, routines, addr, len, prog[j]);
    }
    Ftl.AllInvokedIff(t, LowerAll(len, prog));
    forall j | 0 <= j < |trace| ensures Safe(routines, addr, len, trace[j]) {
      CallsSafe(g, t, routines, addr, len, prog[j]);
    }
    read, wrote := ExecuteAll(k, len, routines, addr, buffers, trace);
  }
}
