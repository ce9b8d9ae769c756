/** What one tick of a compiled DSP graph computes: the dataflow meaning of the graph. */
module DspMeaning {
  import opened SignalProgram
  import opened DspGraph

  /** The sum at inlet `i` of node `n`, edge by edge, over all edges of nodes `0..m` and the first `k` of node `m`,
      when node `j` puts out `outs[j]`. */
  function EdgeSum<V>(a: Values<V>, g: Graph, outs: map<nat, seq<V>>, m: nat, k: nat, n: nat, i: nat): V
    requires m <= |g.edges| && k <= if m < |g.edges| then |g.edges[m]| else 0
    decreases m, k
  {
    if k > 0 then
      var e := g.edges[m][k - 1];
      var rest := EdgeSum(a, g, outs, m, k - 1, n, i);
      if Hits(e, e.outlet, n, i) then a.plus(rest, Value(a, outs, Output(m, e.outlet))) else rest
    else if m > 0 then EdgeSum(a, g, outs, m - 1, |g.edges[m - 1]|, n, i)
    else a.zero
  }

  /** What the graph asks node `n` to read at inlet `i`: the sum over every edge that carries a signal there. */
  function InletValue<V>(a: Values<V>, g: Graph, outs: map<nat, seq<V>>, n: nat, i: nat): V {
    EdgeSum(a, g, outs, |g.edges|, 0, n, i)
  }

  function Asked<V>(a: Values<V>, g: Graph, outs: map<nat, seq<V>>, n: nat): seq<V>
    requires n < |g.nin|
  {
    seq(g.nin[n], i requires 0 <= i < g.nin[n] => InletValue(a, g, outs, n, i))
  }

  /** `outs` solves the dataflow equation of node `n`. */
  predicate Solves<V(==)>(a: Values<V>, g: Graph, outs: map<nat, seq<V>>, n: nat) {
    n in outs && n < |g.nin| && outs[n] == a.node(n, Asked(a, g, outs, n))
  }

  /** Both put out the same at node `n`. */
  predicate SameOut<V(==)>(o: map<nat, seq<V>>, o': map<nat, seq<V>>, n: nat) {
    n in o && n in o' && o[n] == o'[n]
  }

  /** The formal counterpart of `EdgeSum`. */
  function EdgeTerms(g: Graph, m: nat, k: nat, n: nat, i: nat): multiset<Term>
    requires m <= |g.edges| && k <= if m < |g.edges| then |g.edges[m]| else 0
    decreases m, k
  {
    if k > 0 then
      var e := g.edges[m][k - 1];
      var rest := EdgeTerms(g, m, k - 1, n, i);
      if Hits(e, e.outlet, n, i) then rest + multiset{Output(m, e.outlet)} else rest
    else if m > 0 then EdgeTerms(g, m - 1, |g.edges[m - 1]|, n, i)
    else multiset{}
  }

  lemma {:induction false} EdgeTermsCount(g: Graph, m: nat, k: nat, n: nat, i: nat, t: Term)
    requires m <= |g.edges| && k <= if m < |g.edges| then |g.edges[m]| else 0
    ensures EdgeTerms(g, m, k, n, i)[t] ==
            if t.Initial? || t.node > m || t.node >= |g.edges| then 0
            else Parallel(g.edges[t.node], if t.node == m then k else |g.edges[t.node]|, t.outlet, n, i)
    decreases m, k
  {
    if k > 0 {
      EdgeTermsCount(g, m, k - 1, n, i, t);
      var e := g.edges[m][k - 1];
      if t.Output? && t.node == m {
        assert Hits(e, t.outlet, n, i) <==> Hits(e, e.outlet, n, i) && e.outlet == t.outlet;
      }
    } else if m > 0 {
      EdgeTermsCount(g, m - 1, |g.edges[m - 1]|, n, i, t);
    }
  }

  lemma TotalNone<V>(a: Values<V>, outs: map<nat, seq<V>>)
    ensures Total(a, outs, multiset{}) == a.zero
  {
  }

  lemma {:induction false} EdgeTermsTotal<V(!new)>(a: Values<V>, g: Graph, outs: map<nat, seq<V>>, m: nat, k: nat,
                                                   n: nat, i: nat)
    requires Lawful(a)
    requires m <= |g.edges| && k <= if m < |g.edges| then |g.edges[m]| else 0
    ensures Total(a, outs, EdgeTerms(g, m, k, n, i)) == EdgeSum(a, g, outs, m, k, n, i)
    decreases m, k
  {
    hide Total, Lawful;
    if k > 0 {
      EdgeTermsTotal(a, g, outs, m, k - 1, n, i);
      var t := Output(m, g.edges[m][k - 1].outlet);
      TotalSingle(a, outs, t);
      TotalUnion(a, outs, EdgeTerms(g, m, k - 1, n, i), multiset{t});
    } else if m > 0 {
      EdgeTermsTotal(a, g, outs, m - 1, |g.edges[m - 1]|, n, i);
    } else {
      TotalNone(a, outs);
    }
  }

  /** Compiler correctness.  For every graph, every commutative monoid, every behaviour of the nodes and whatever the
      buffers held before: each scheduled node reads at each inlet exactly the sum of the outputs of the edges that
      carry a signal there (zero if there are none), and what the nodes put out solves the dataflow equations. */
  lemma CompiledCorrect<V(!new)>(g: Graph, prog: seq<Instr>, a: Values<V>, n: nat)
    requires Compiled(g, prog) && Lawful(a) && n in PutNodes(prog)
    ensures n < |g.edges|
    ensures var m := Exec(a, prog);
            n in m.seen && m.seen[n] == Asked(a, g, m.made, n) && Solves(a, g, m.made, n)
  {
    var m, sy := Exec(a, prog), SymExec(prog);
    PutNodesSeen(prog);
    SymbolicSound(a, prog);
    assert ReadsFanIn(g, sy, n);
    forall i: nat | i < g.nin[n] ensures m.seen[n][i] == InletValue(a, g, m.made, n, i) {
      var want := EdgeTerms(g, |g.edges|, 0, n, i);
      forall t ensures want[t] == sy.seen[n][i][t] {
        EdgeTermsCount(g, |g.edges|, 0, n, i, t);
      }
      assert want == sy.seen[n][i];
      EdgeTermsTotal(a, g, m.made, |g.edges|, 0, n, i);
    }
    assert m.seen[n] == Asked(a, g, m.made, n);
  }

  /** What node `n` is asked to read depends on its predecessors only. */
  lemma {:induction false} EdgeSumLocal<V(!new)>(a: Values<V>, g: Graph, o: map<nat, seq<V>>, o': map<nat, seq<V>>,
                                                 m: nat, k: nat, n: nat, i: nat)
    requires m <= |g.edges| && k <= if m < |g.edges| then |g.edges[m]| else 0
    requires forall j: nat :: HasEdge(g, j, n) ==> SameOut(o, o', j)
    ensures EdgeSum(a, g, o, m, k, n, i) == EdgeSum(a, g, o', m, k, n, i)
    decreases m, k
  {
    if k > 0 {
      EdgeSumLocal(a, g, o, o', m, k - 1, n, i);
      if g.edges[m][k - 1].dst == n {
        assert HasEdge(g, m, n);
      }
    } else if m > 0 {
      EdgeSumLocal(a, g, o, o', m - 1, |g.edges[m - 1]|, n, i);
    }
  }

  /** The dataflow equations of the scheduled nodes have one solution only. */
  lemma {:induction false} UniqueSolution<V(!new)>(a: Values<V>, g: Graph, order: seq<nat>, len: nat,
                                                   o: map<nat, seq<V>>, o': map<nat, seq<V>>)
    requires Valid(g) && Topological(g, order) && len <= |order|
    requires forall j :: 0 <= j < |order| ==> Solves(a, g, o, order[j]) && Solves(a, g, o', order[j])
    ensures forall j :: 0 <= j < len ==> SameOut(o, o', order[j])
  {
    if len > 0 {
      UniqueSolution(a, g, order, len - 1, o, o');
      var n := order[len - 1];
      forall i: nat | i < g.nin[n] ensures InletValue(a, g, o, n, i) == InletValue(a, g, o', n, i) {
        forall j: nat | HasEdge(g, j, n) ensures SameOut(o, o', j) {
          assert j in order[..len - 1];
          var q :| 0 <= q < len - 1 && order[q] == j;
        }
        EdgeSumLocal(a, g, o, o', |g.edges|, 0, n, i);
      }
      assert Asked(a, g, o, n) == Asked(a, g, o', n);
      assert Solves(a, g, o, order[len - 1]) && Solves(a, g, o', order[len - 1]);
    }
  }

  lemma {:induction false} SameSums<V>(a: Values<V>, start: nat -> V, g: Graph, outs: map<nat, seq<V>>, m: nat, k: nat,
                                       n: nat, i: nat)
    requires m <= |g.edges| && k <= if m < |g.edges| then |g.edges[m]| else 0
    ensures EdgeSum(a.(start := start), g, outs, m, k, n, i) == EdgeSum(a, g, outs, m, k, n, i)
    decreases m, k
  {
    if k > 0 {
      SameSums(a, start, g, outs, m, k - 1, n, i);
    } else if m > 0 {
      SameSums(a, start, g, outs, m - 1, |g.edges[m - 1]|, n, i);
    }
  }

  /** A tick computes the one solution `outs` of the graph's dataflow equations, whatever leftovers `start` it finds
      in the shared buffers. */
  lemma TickIsTheSolution<V(!new)>(g: Graph, prog: seq<Instr>, a: Values<V>, outs: map<nat, seq<V>>, start: nat -> V)
    requires Compiled(g, prog) && Lawful(a)
    requires forall n :: n in PutNodes(prog) ==> Solves(a, g, outs, n)
    ensures forall n :: n in PutNodes(prog) ==> SameOut(Exec(a.(start := start), prog).made, outs, n)
  {
    var b, order := a.(start := start), PutNodes(prog);
    assert Lawful(b) by {
      forall x: V, y: V, z: V ensures Laws(b, x, y, z) { assert Laws(a, x, y, z); }
    }
    var made := Exec(b, prog).made;
    forall j | 0 <= j < |order| ensures Solves(b, g, made, order[j]) && Solves(b, g, outs, order[j]) {
      var n := order[j];
      CompiledCorrect(g, prog, b, n);
      assert Solves(a, g, outs, n);
      forall i: nat { SameSums(a, start, g, outs, |g.edges|, 0, n, i); }
      assert Asked(a, g, outs, n) == Asked(b, g, outs, n);
    }
    UniqueSolution(b, g, order, |order|, made, outs);
  }
}
