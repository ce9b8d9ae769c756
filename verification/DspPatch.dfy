/** The graph of a patch: the nodes are the DSP objects, and the edges what the iterator meets behind their outlets. */
module DspPatch {
  import opened SignalProgram
  import opened DspGraph
  import opened DspMeaning
  import opened DspTraversal
  import DspRun
  import Ftl

  /** A patch, its DSP objects in the order of the list of the graph, and their numbers of signal inlets and outlets. */
  datatype Scene = Scene(patch: Patch, objs: seq<nat>, nin: seq<nat>, nout: seq<nat>)

  /** Every DSP object is in the list, and a connection that carries a signal ends at an inlet that exists. */
  ghost predicate SceneOk(s: Scene) {
    && NetValid(s.patch.net) && |s.objs| == |s.nin| == |s.nout|
    && (forall n :: 0 <= n < |s.objs| ==> s.objs[n] < s.patch.net.size)
    && (forall o :: s.patch.dsp(o) ==> s.patch.node(o) < |s.objs|)
    && (forall n, e :: 0 <= n < |s.objs| && e in EdgesBehind(s.patch, s.objs[n], s.nout[n]) && e.dst < |s.nin| ==>
          s.nin[e.dst] > 0 && !e.forcing ==> e.inlet < s.nin[e.dst])
  }

  ghost function GraphOf(s: Scene): Graph
    requires SceneOk(s)
  {
    Graph(s.nin, s.nout, seq(|s.objs|, n requires 0 <= n < |s.objs| => EdgesBehind(s.patch, s.objs[n], s.nout[n])))
  }

  /** The iterator on outlet `o` of `obj` meets connection `l`. */
  ghost predicate Met(patch: Patch, obj: nat, o: nat, l: Link)
    requires NetValid(patch.net) && obj < patch.net.size
  {
    StartValid(patch.net, Port(obj, o));
    patch.dsp(l.dst) && l in Yields(patch.net, Push(patch.net, [], Port(obj, o)))
  }

  /** The edges of an object are the connections to DSP objects that are met behind its outlets. */
  lemma {:induction false} EdgesAre(patch: Patch, obj: nat, n: nat, e: Edge)
    requires NetValid(patch.net) && obj < patch.net.size
    ensures e in EdgesBehind(patch, obj, n) <==>
            e.outlet < n && exists l :: Met(patch, obj, e.outlet, l) && e == EdgeFor(patch, Port(obj, e.outlet), l)
    decreases n
  {
    hide Yields, NetValid;
    if n > 0 {
      EdgesAre(patch, obj, n - 1, e);
      StartValid(patch.net, Port(obj, n - 1));
      var ls := Yields(patch.net, Push(patch.net, [], Port(obj, n - 1)));
      var last := ToEdges(patch, Port(obj, n - 1), ls);
      assert e in EdgesBehind(patch, obj, n) <==> e in EdgesBehind(patch, obj, n - 1) || e in last;
      if e in last {
        var l :| l in ls && patch.dsp(l.dst) && e == EdgeFor(patch, Port(obj, n - 1), l);
        assert Met(patch, obj, e.outlet, l);
      }
      if e.outlet == n - 1 {
        forall l | Met(patch, obj, e.outlet, l) && e == EdgeFor(patch, Port(obj, e.outlet), l) ensures e in last {
        }
      }
    }
  }

  /** Such a graph is one the compiler accepts. */
  lemma GraphOfValid(s: Scene)
    requires SceneOk(s)
    ensures Valid(GraphOf(s))
  {
    var g := GraphOf(s);
    forall m, k | 0 <= m < |g.edges| && 0 <= k < |g.edges[m]| ensures EdgeValid(g, m, g.edges[m][k]) {
      var e := g.edges[m][k];
      assert e in EdgesBehind(s.patch, s.objs[m], s.nout[m]);
      EdgesAre(s.patch, s.objs[m], s.nout[m], e);
    }
  }

  /** Node `m` follows node `n` exactly when a connection to it lies behind an outlet of `n`, directly or behind thru
      objects none of which is passed twice. */
  lemma HasEdgeIff(s: Scene, n: nat, m: nat)
    requires SceneOk(s) && Receives(s.patch.net) && n < |s.objs|
    ensures HasEdge(GraphOf(s), n, m) <==>
            exists o, l :: 0 <= o < s.nout[n] && LiesSimplyBehind(s.patch.net, Port(s.objs[n], o), l)
                           && s.patch.dsp(l.dst) && s.patch.node(l.dst) == m
  {
    hide Yields, LiesSimplyBehind, NetValid;
    var obj, es := s.objs[n], GraphOf(s).edges[n];
    if HasEdge(GraphOf(s), n, m) {
      var k :| 0 <= k < |es| && es[k].dst == m;
      EdgesAre(s.patch, obj, s.nout[n], es[k]);
      var l :| Met(s.patch, obj, es[k].outlet, l) && es[k] == EdgeFor(s.patch, Port(obj, es[k].outlet), l);
      YieldsIff(s.patch.net, Port(obj, es[k].outlet), l);
    }
    forall o, l | 0 <= o < s.nout[n] && LiesSimplyBehind(s.patch.net, Port(obj, o), l)
                  && s.patch.dsp(l.dst) && s.patch.node(l.dst) == m
      ensures HasEdge(GraphOf(s), n, m)
    {
      YieldsIff(s.patch.net, Port(obj, o), l);
      var e := EdgeFor(s.patch, Port(obj, o), l);
      assert Met(s.patch, obj, e.outlet, l);
      EdgesAre(s.patch, obj, s.nout[n], e);
      var k :| 0 <= k < |es| && es[k] == e;
    }
  }

  // ---------------------------------------------------------------- what an inlet reads, walk by walk

  /** The walks that carry the signal `t` to inlet `i` of node `n`. */
  ghost function Carrying(s: Scene, n: nat, i: nat, t: Term): set<Walk>
    requires SceneOk(s)
  {
    if t.Output? && t.node < |s.objs| && t.outlet < s.nout[t.node]
    then WalksTo(s.patch, s.objs[t.node], Edge(t.outlet, n, i, false))
    else {}
  }

  /** They are the admitted walks from that outlet to a connection to this inlet that does not only force the order. */
  lemma CarryingAre(s: Scene, n: nat, i: nat, m: nat, o: nat, w: Walk)
    requires SceneOk(s)
    ensures w in Carrying(s, n, i, Output(m, o)) <==>
            && m < |s.objs| && o < s.nout[m]
            && Admitted(s.patch.net, {s.objs[m]}, Port(s.objs[m], o), w)
            && s.patch.dsp(w.link.dst) && s.patch.node(w.link.dst) == n && w.link.inlet == i
            && !s.patch.forcing(Port(s.objs[m], o), w.link)
  {
    hide Admitted, NetValid, WalksTo;
    if m < |s.objs| && o < s.nout[m] {
      WalksToAre(s.patch, s.objs[m], Edge(o, n, i, false), w);
    }
  }

  /** The summands are the outputs of the nodes, each as often as walks carry it to the inlet. */
  ghost predicate SumsWalks(s: Scene, n: nat, i: nat, sum: multiset<Term>)
    requires SceneOk(s)
  {
    forall t :: sum[t] == |Carrying(s, n, i, t)|
  }

  lemma {:induction false} ParallelCounts(es: seq<Edge>, k: nat, o: nat, n: nat, i: nat)
    requires k <= |es|
    ensures Parallel(es, k, o, n, i) == multiset(es[..k])[Edge(o, n, i, false)]
  {
    if k > 0 {
      ParallelCounts(es, k - 1, o, n, i);
      assert es[..k] == es[..k - 1] + [es[k - 1]];
    }
  }

  /** The terms the graph asks for at an inlet. */
  lemma TermsAreWalks(s: Scene, n: nat, i: nat)
    requires SceneOk(s)
    ensures SumsWalks(s, n, i, EdgeTerms(GraphOf(s), |s.objs|, 0, n, i))
  {
    hide EdgeTerms, WalksTo, NetValid, EdgesBehind, Parallel;
    var g := GraphOf(s);
    forall t ensures EdgeTerms(g, |s.objs|, 0, n, i)[t] == |Carrying(s, n, i, t)| {
      EdgeTermsCount(g, |s.objs|, 0, n, i, t);
      if t.Output? && t.node < |s.objs| {
        var es, e := g.edges[t.node], Edge(t.outlet, n, i, false);
        ParallelCounts(es, |es|, t.outlet, n, i);
        assert es[..|es|] == es;
        EdgesPerWalk(s.patch, s.objs[t.node], s.nout[t.node], e);
      }
    }
  }

  /** What the graph of a patch asks an inlet to read: the sum over the walks that lead there. */
  lemma InletSumsWalks<V(!new)>(s: Scene, a: Values<V>, outs: map<nat, seq<V>>, n: nat, i: nat, sum: multiset<Term>)
    requires SceneOk(s) && Lawful(a) && SumsWalks(s, n, i, sum)
    ensures InletValue(a, GraphOf(s), outs, n, i) == Total(a, outs, sum)
  {
    hide EdgeTerms, Carrying, Total, EdgeSum, Lawful, SceneOk;
    TermsAreWalks(s, n, i);
    var terms := EdgeTerms(GraphOf(s), |s.objs|, 0, n, i);
    assert forall t :: terms[t] == sum[t];
    assert terms == sum;
    EdgeTermsTotal(a, GraphOf(s), outs, |s.objs|, 0, n, i);
  }

  /** Compiling a patch: the edges every pass meets are those of its graph. */
  method CompilePatch(s: Scene) returns (ok: bool, prog: seq<Instr>, signals: nat)
    requires SceneOk(s)
    ensures Compiled(GraphOf(s), prog) && AllWithin(prog, signals)
    ensures ok <==> Acyclic(GraphOf(s))
  {
    hide Compiled, Acyclic, WalksTo, EdgesBehind;
    var edges := [];
    for n := 0 to |s.objs|
      invariant |edges| == n
      invariant forall m :: 0 <= m < n ==> edges[m] == EdgesBehind(s.patch, s.objs[m], s.nout[m])
    {
      var es := SuccessorEdges(s.patch, s.objs[n], s.nout[n]);
      edges := edges + [es];
    }
    assert edges == GraphOf(s).edges;
    GraphOfValid(s);
    var compiler := new Compiler(Graph(s.nin, s.nout, edges));
    ok := compiler.Compile();
    prog, signals := compiler.prog, |compiler.rc|;
  }

  /** A tick of a compiled patch: every scheduled object reads at each inlet, sample by sample, the sum over the walks
      that carry a signal there, each of them once, and computes its function of that. */
  lemma TickComputesPatch<R(!new)>(s: Scene, k: DspRun.Kernel<R>, t: Ftl.Tables<DspRun.Name>,
                                   routines: int -> DspRun.Routine, addr: seq<int>, len: nat, mem: seq<R>,
                                   prog: seq<Instr>)
    requires SceneOk(s) && Compiled(GraphOf(s), prog) && AllWithin(prog, |addr|)
    requires Lawful(DspRun.Samples(k)) && DspRun.Prepared(k, len, addr, |mem|, mem)
    requires DspRun.Linked(GraphOf(s), t, routines, addr)
    ensures var r := DspRun.Tick(k, len, t, routines, mem, prog);
            && DspRun.Prepared(k, len, addr, |mem|, r.mem)
            && forall n :: n in PutNodes(prog) ==>
                 DspRun.Computes(k, GraphOf(s), len, r, n) && ReadsWalks(s, k, len, r, n)
  {
    hide Compiled, SceneOk, DspRun.Computes, ReadsWalks, Lawful;
    DspRun.TickComputesGraph(k, GraphOf(s), t, routines, addr, len, mem, prog);
    var r := DspRun.Tick(k, len, t, routines, mem, prog);
    forall n | n in PutNodes(prog) ensures ReadsWalks(s, k, len, r, n) {
      ReadsAreWalks(s, k, len, r, n);
    }
  }

  /** Sample `j` of what node `n` has read at inlet `i` is this sum. */
  ghost predicate ReadSum<R(!new)>(k: DspRun.Kernel<R>, len: nat, r: DspRun.Run<R>, n: nat, i: nat, j: nat,
                                   sum: multiset<Term>)
    requires n in r.read && i < |r.read[n]|
  {
    && j < |r.read[n][i]| == len
    && r.read[n][i][j] == Total(DspRun.Samples(k), DspRun.SampleOf(k, r.wrote, j), sum)
  }

  /** Node `n` has read at each inlet the sum over the walks that lead there. */
  ghost predicate ReadsWalks<R(!new)>(s: Scene, k: DspRun.Kernel<R>, len: nat, r: DspRun.Run<R>, n: nat)
    requires SceneOk(s)
  {
    && n in r.read && n < |s.nin| && |r.read[n]| == s.nin[n]
    && forall i: nat, j: nat, sum :: i < s.nin[n] && j < len && SumsWalks(s, n, i, sum) ==>
         ReadSum(k, len, r, n, i, j, sum)
  }

  lemma ReadsAreWalks<R(!new)>(s: Scene, k: DspRun.Kernel<R>, len: nat, r: DspRun.Run<R>, n: nat)
    requires SceneOk(s) && Lawful(DspRun.Samples(k)) && DspRun.Computes(k, GraphOf(s), len, r, n)
    ensures ReadsWalks(s, k, len, r, n)
  {
    hide Lawful, SceneOk, SumsWalks, Total, InletValue, DspRun.SampleOf, DspRun.Samples;
    assert GraphOf(s).nin == s.nin;
    forall i: nat, j: nat, sum | i < s.nin[n] && j < len && SumsWalks(s, n, i, sum)
      ensures ReadSum(k, len, r, n, i, j, sum)
    {
      InletSumsWalks(s, DspRun.Samples(k), DspRun.SampleOf(k, r.wrote, j), n, i, sum);
    }
  }
}
