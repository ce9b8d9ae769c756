/** The DSP graph compiler: counts predecessors, schedules nodes depth first, allocates signals
    by reference count and emits the calls of one tick. */
module DspGraph {
  import opened Sets
  import opened SignalProgram

  /** A connection from outlet `outlet` of its source to inlet `inlet` of node `dst`. */
  datatype Edge = Edge(outlet: nat, dst: nat, inlet: nat, forcing: bool)

  /** Node `n` has `nin[n]` signal inlets and `nout[n]` signal outlets; `edges[n]` are its outgoing connections
      in the order the graph traversal meets them, outlet by outlet. */
  datatype Graph = Graph(nin: seq<nat>, nout: seq<nat>, edges: seq<seq<Edge>>)

  predicate EdgeValid(g: Graph, m: nat, e: Edge)
    requires |g.nin| == |g.nout| == |g.edges| && m < |g.edges|
  {
    e.outlet < g.nout[m] && e.dst < |g.edges| && (g.nin[e.dst] > 0 && !e.forcing ==> e.inlet < g.nin[e.dst])
  }

  predicate Valid(g: Graph) {
    && |g.nin| == |g.nout| == |g.edges|
    && (forall m, k :: 0 <= m < |g.edges| && 0 <= k < |g.edges[m]| ==> EdgeValid(g, m, g.edges[m][k]))
    && (forall m, j, k :: 0 <= m < |g.edges| && 0 <= j < k < |g.edges[m]| ==>
          g.edges[m][j].outlet <= g.edges[m][k].outlet)
  }

  /** Does the edge carry a signal into its destination, or does it only force an order? */
  predicate Carries(g: Graph, e: Edge)
    requires e.dst < |g.nin|
  {
    g.nin[e.dst] > 0 && !e.forcing
  }

  // ---------------------------------------------------------------- what flows into an inlet

  predicate Hits(e: Edge, o: nat, n: nat, i: nat) {
    e.outlet == o && e.dst == n && e.inlet == i && !e.forcing
  }

  /** How many of the first `k` edges in `es` carry outlet `o` to inlet `i` of node `n`. */
  function Parallel(es: seq<Edge>, k: nat, o: nat, n: nat, i: nat): nat
    requires k <= |es|
  {
    if k == 0 then 0 else Parallel(es, k - 1, o, n, i) + if Hits(es[k - 1], o, n, i) then 1 else 0
  }

  predicate Progress(g: Graph, sent: seq<nat>) {
    |sent| == |g.edges| && forall m :: 0 <= m < |sent| ==> sent[m] <= |g.edges[m]|
  }

  /** How often summand `t` has arrived at inlet `i` of node `n` once each node `m` has realized `sent[m]` edges. */
  function Arrived(g: Graph, sent: seq<nat>, n: nat, i: nat, t: Term): nat
    requires Progress(g, sent)
  {
    if t.Output? && t.node < |g.edges| then Parallel(g.edges[t.node], sent[t.node], t.outlet, n, i) else 0
  }

  /** How often the graph itself asks for summand `t` at inlet `i` of node `n`: once for every edge that carries it. */
  function FanIn(g: Graph, n: nat, i: nat, t: Term): nat {
    if t.Output? && t.node < |g.edges| then Parallel(g.edges[t.node], |g.edges[t.node]|, t.outlet, n, i) else 0
  }

  /** The edges into `n` that are not realized yet. */
  ghost function Waiting(g: Graph, sent: seq<nat>, n: nat): set<(nat, nat)>
    requires Progress(g, sent)
  {
    set m: nat, k: nat | m < |g.edges| && sent[m] <= k < |g.edges[m]| && g.edges[m][k].dst == n :: (m, k)
  }

  lemma ArrivedSend(g: Graph, sent: seq<nat>, c: nat, n: nat, i: nat, t: Term)
    requires Progress(g, sent) && c < |g.edges| && sent[c] < |g.edges[c]|
    ensures Progress(g, sent[c := sent[c] + 1])
    ensures var e := g.edges[c][sent[c]];
            Arrived(g, sent[c := sent[c] + 1], n, i, t) ==
            Arrived(g, sent, n, i, t) + if t == Output(c, e.outlet) && Hits(e, e.outlet, n, i) then 1 else 0
  {
  }

  lemma {:induction false} NoMoreHits(es: seq<Edge>, k: nat, m: nat, o: nat, n: nat, i: nat)
    requires k <= m <= |es|
    requires forall j :: k <= j < m ==> es[j].dst != n
    ensures Parallel(es, m, o, n, i) == Parallel(es, k, o, n, i)
  {
    if k < m {
      NoMoreHits(es, k, m - 1, o, n, i);
      assert es[m - 1].dst != n;
    }
  }

  /** When no edge into `n` is outstanding, everything the graph asks for at its inlets has arrived. */
  lemma NothingWaiting(g: Graph, sent: seq<nat>, n: nat, i: nat, t: Term)
    requires Progress(g, sent) && Waiting(g, sent, n) == {}
    ensures Arrived(g, sent, n, i, t) == FanIn(g, n, i, t)
  {
    if t.Output? && t.node < |g.edges| {
      var es, k := g.edges[t.node], sent[t.node];
      forall j: nat | k <= j < |es| ensures es[j].dst != n {
        WaitingAt(g, sent, n, t.node, j);
      }
      NoMoreHits(es, k, |es|, t.outlet, n, i);
    }
  }

  lemma WaitingAt(g: Graph, sent: seq<nat>, n: nat, m: nat, k: nat)
    requires Progress(g, sent)
    ensures (m, k) in Waiting(g, sent, n) <==> m < |g.edges| && sent[m] <= k < |g.edges[m]| && g.edges[m][k].dst == n
  {
  }

  lemma WaitingSend(g: Graph, sent: seq<nat>, c: nat, n: nat)
    requires Progress(g, sent) && c < |g.edges| && sent[c] < |g.edges[c]|
    ensures Progress(g, sent[c := sent[c] + 1])
    ensures |Waiting(g, sent, n)| ==
            |Waiting(g, sent[c := sent[c] + 1], n)| + (if g.edges[c][sent[c]].dst == n then 1 else 0)
  {
    var k := sent[c];
    var sent' := sent[c := k + 1];
    var w, w' := Waiting(g, sent, n), Waiting(g, sent', n);
    forall m: nat, j: nat ensures (m, j) in w <==> (m, j) in w' || (g.edges[c][k].dst == n && (m, j) == (c, k)) {
      WaitingAt(g, sent, n, m, j);
      WaitingAt(g, sent', n, m, j);
    }
    WaitingAt(g, sent', n, c, k);
    assert w == if g.edges[c][k].dst == n then w' + {(c, k)} else w';
  }

  // ---------------------------------------------------------------- compiler state

  /** `pred_cnt` of a node whose calls are emitted. */
  const SCHEDULED := -1
  /** `refcnt` of a signal that is allocated but not bound to an inlet yet. */
  const PENDING := -1
  /** An unbound inlet. */
  const UNBOUND := -1

  /** `cnt` are the predecessor counters, `ins` the signals bound to inlets, `rc` the reference counts of the
      allocated signals, `prog` the calls emitted; `sent` counts the realized edges of each node. */
  datatype State = State(cnt: seq<int>, ins: seq<seq<int>>, rc: seq<int>, prog: seq<Instr>, sent: seq<nat>)

  ghost predicate Shape(g: Graph, st: State) {
    && Valid(g) && Progress(g, st.sent)
    && |st.cnt| == |st.ins| == |g.edges|
    && forall n :: 0 <= n < |g.edges| ==> |st.ins[n]| == g.nin[n]
  }

  /** A counter is the number of edges from nodes that are not realized; `cur` is the node being realized, if any. */
  ghost predicate Counts(g: Graph, st: State, cur: int)
    requires Shape(g, st)
  {
    forall n: nat :: n < |g.edges| ==>
      if st.cnt[n] == SCHEDULED then
        Waiting(g, st.sent, n) == {} && (n != cur ==> st.sent[n] == |g.edges[n]|)
      else
        st.cnt[n] == |Waiting(g, st.sent, n)| && st.sent[n] == 0
  }

  /** The inlets of unscheduled nodes that are bound to signal `s`. */
  ghost function Refs(cnt: seq<int>, ins: seq<seq<int>>, s: int): set<(nat, nat)>
    requires |cnt| == |ins|
  {
    set n: nat, i: nat | n < |ins| && cnt[n] != SCHEDULED && i < |ins[n]| && ins[n][i] == s :: (n, i)
  }

  /** Every reference count is the number of unscheduled inlets bound to the signal; `pend` are the pending signals. */
  ghost predicate Pool(cnt: seq<int>, ins: seq<seq<int>>, rc: seq<int>, pend: set<nat>)
    requires |cnt| == |ins|
  {
    && |rc| >= 1 && rc[ZERO_SIGNAL] == 1 && ZERO_SIGNAL !in pend
    && (forall s :: s in pend ==> s < |rc|)
    && (forall s: nat :: 1 <= s < |rc| ==>
          if s in pend then rc[s] == PENDING && Refs(cnt, ins, s) == {} else rc[s] == |Refs(cnt, ins, s)|)
    && (forall n, i :: 0 <= n < |ins| && cnt[n] != SCHEDULED && 0 <= i < |ins[n]| ==>
          ins[n][i] == UNBOUND || 1 <= ins[n][i] < |rc|)
  }

  /** The contents of the signal bound to an inlet; nothing when there is none. */
  ghost function Held(st: State, n: nat, i: nat): multiset<Term>
    requires n < |st.ins| && i < |st.ins[n]|
  {
    if st.ins[n][i] < 0 then multiset{} else Look(SymExec(st.prog).buf, st.ins[n][i])
  }

  /** An inlet of an unscheduled node holds exactly the sum of what has arrived there. */
  ghost predicate Holds(g: Graph, st: State, n: nat, i: nat)
    requires Shape(g, st) && n < |g.edges| && i < g.nin[n]
  {
    forall t :: Arrived(g, st.sent, n, i, t) == Held(st, n, i)[t]
  }

  /** Node `n` has read, at every inlet, exactly the summands the graph asks for. */
  ghost predicate ReadsFanIn(g: Graph, sy: Symbolic, n: nat)
    requires n < |g.nin| && n in sy.seen
  {
    && |sy.seen[n]| == g.nin[n]
    && forall i: nat, t :: i < g.nin[n] ==> sy.seen[n][i][t] == FanIn(g, n, i, t)
  }

  /** The nodes put so far are the scheduled ones, and they read what the graph asks for. */
  ghost predicate PutsRead(g: Graph, st: State)
    requires Shape(g, st)
  {
    var sy := SymExec(st.prog);
    && WellFormed(st.prog)
    && Look(sy.buf, ZERO_SIGNAL) == multiset{}
    && (forall n: nat :: n in sy.seen <==> n < |g.edges| && st.cnt[n] == SCHEDULED)
    && (forall n: nat :: n in sy.seen ==> ReadsFanIn(g, sy, n))
  }

  ghost predicate Contents(g: Graph, st: State)
    requires Shape(g, st)
  {
    && PutsRead(g, st)
    && forall n: nat, i: nat :: n < |g.edges| && st.cnt[n] != SCHEDULED && i < g.nin[n] ==> Holds(g, st, n, i)
  }

  ghost predicate Core(g: Graph, st: State, pend: set<nat>, cur: int) {
    && Shape(g, st) && Counts(g, st, cur)
    && Pool(st.cnt, st.ins, st.rc, pend)
    && Contents(g, st)
    && Topological(g, PutNodes(st.prog))
    && AllWithin(st.prog, |st.rc|)
  }

  /** While node `c` is realized: the outputs that later edges still need are intact, and those of
      outlets not reached yet are pending. */
  ghost predicate Fanning(g: Graph, st: State, pend: set<nat>, c: nat, outs: seq<nat>)
    requires Shape(g, st)
  {
    && c < |g.edges| && st.cnt[c] == SCHEDULED
    && |outs| == g.nout[c] && Distinct(outs)
    && (forall o :: 0 <= o < |outs| ==> 1 <= outs[o] < |st.rc|)
    && (forall s :: s in pend ==> s in outs)
    && (forall o :: 0 <= o < |outs| && Last(g, st.sent, c) < o ==> outs[o] in pend)
    && (forall o :: 0 <= o < |outs| && Last(g, st.sent, c) <= o ==>
          Look(SymExec(st.prog).buf, outs[o]) == multiset{Output(c, o)})
  }

  /** The outlet of the last realized edge of `c`. */
  function Last(g: Graph, sent: seq<nat>, c: nat): int
    requires Progress(g, sent) && c < |g.edges|
  {
    if sent[c] == 0 then -1 else g.edges[c][sent[c] - 1].outlet
  }

  // ---------------------------------------------------------------- order of the calls

  function PutNodes(prog: seq<Instr>): seq<nat> {
    if prog == [] then []
    else
      var init := PutNodes(prog[..|prog| - 1]);
      match prog[|prog| - 1]
      case Add(_, _, _) => init
      case Put(n, _, _) => init + [n]
  }

  predicate HasEdge(g: Graph, m: nat, n: nat) {
    m < |g.edges| && exists k :: 0 <= k < |g.edges[m]| && g.edges[m][k].dst == n
  }

  /** No node occurs twice, and each comes after all its predecessors. */
  ghost predicate Topological(g: Graph, order: seq<nat>) {
    && Distinct(order)
    && (forall j :: 0 <= j < |order| ==> order[j] < |g.edges|)
    && forall j, m: nat :: 0 <= j < |order| && HasEdge(g, m, order[j]) ==> m in order[..j]
  }

  lemma PutNodesAppend(prog: seq<Instr>, i: Instr)
    ensures PutNodes(prog + [i]) == PutNodes(prog) + (if i.Put? then [i.node] else [])
  {
    assert (prog + [i])[..|prog + [i]| - 1] == prog;
  }

  lemma {:induction false} PutNodesSeen(prog: seq<Instr>)
    ensures forall n :: n in PutNodes(prog) <==> n in SymExec(prog).seen
  {
    if prog != [] {
      PutNodesSeen(prog[..|prog| - 1]);
    }
  }

  // ---------------------------------------------------------------- realizing one edge

  function Unref(rc: seq<int>, s: nat): seq<int>
    requires s < |rc|
  {
    if rc[s] != PENDING then rc[s := rc[s] - 1] else rc
  }

  function Reref(rc: seq<int>, s: nat): seq<int>
    requires s < |rc|
  {
    if rc[s] == PENDING then rc[s := 1] else rc[s := rc[s] + 1]
  }

  function Alloc(rc: seq<int>, s: nat): seq<int>
    requires s <= |rc|
  {
    if s < |rc| then rc[s := PENDING] else rc + [PENDING]
  }

  predicate Free(rc: seq<int>, s: nat) {
    1 <= s <= |rc| && (s < |rc| ==> rc[s] == 0)
  }

  /** The part of a step that does not depend on whether the edge carries a signal. */
  function Counted(st: State, c: nat, d: nat): State
    requires c < |st.sent| && d < |st.cnt|
  {
    st.(cnt := st.cnt[d := st.cnt[d] - 1], sent := st.sent[c := st.sent[c] + 1])
  }

  lemma EdgeWaits(g: Graph, st: State, c: nat)
    requires Shape(g, st) && Counts(g, st, c)
    requires c < |g.edges| && st.sent[c] < |g.edges[c]|
    ensures EdgeValid(g, c, g.edges[c][st.sent[c]])
    ensures st.cnt[g.edges[c][st.sent[c]].dst] >= 1
  {
    var e := g.edges[c][st.sent[c]];
    assert EdgeValid(g, c, e);
    assert (c, st.sent[c]) in Waiting(g, st.sent, e.dst);
  }

  lemma CountsSend(g: Graph, st: State, st': State, c: nat, e: Edge)
    requires Shape(g, st) && Counts(g, st, c) && NextEdge(g, st.sent, c, e) && st.cnt[c] == SCHEDULED
    requires st'.cnt == Counted(st, c, e.dst).cnt && st'.sent == Counted(st, c, e.dst).sent
    requires |st'.ins| == |st.ins| && forall n :: 0 <= n < |st.ins| ==> |st'.ins[n]| == |st.ins[n]|
    ensures Shape(g, st') && Counts(g, st', c) && st.cnt[e.dst] >= 1
  {
    EdgeWaits(g, st, c);
    forall n: nat | n < |g.edges|
      ensures if st'.cnt[n] == SCHEDULED then
                Waiting(g, st'.sent, n) == {} && (n != c ==> st'.sent[n] == |g.edges[n]|)
              else
                st'.cnt[n] == |Waiting(g, st'.sent, n)| && st'.sent[n] == 0
    {
      WaitingSend(g, st.sent, c, n);
    }
  }

  lemma RefsSame(cnt: seq<int>, cnt': seq<int>, ins: seq<seq<int>>)
    requires |cnt| == |cnt'| == |ins|
    requires forall n :: 0 <= n < |cnt| ==> (cnt[n] == SCHEDULED <==> cnt'[n] == SCHEDULED)
    ensures forall s :: Refs(cnt', ins, s) == Refs(cnt, ins, s)
  {
    forall s ensures Refs(cnt', ins, s) == Refs(cnt, ins, s) {
      assert Refs(cnt', ins, s) <= Refs(cnt, ins, s);
      assert Refs(cnt, ins, s) <= Refs(cnt', ins, s);
    }
  }

  lemma RefsAt(cnt: seq<int>, ins: seq<seq<int>>, s: int, n: nat, i: nat)
    requires |cnt| == |ins|
    ensures (n, i) in Refs(cnt, ins, s) <==> n < |ins| && cnt[n] != SCHEDULED && i < |ins[n]| && ins[n][i] == s
  {
  }

  /** Rebinding inlet `(d, i)` to `v` moves that one reference. */
  lemma RefsBind(cnt: seq<int>, ins: seq<seq<int>>, d: nat, i: nat, v: int, s: int)
    requires |cnt| == |ins| && d < |ins| && i < |ins[d]| && cnt[d] != SCHEDULED
    ensures var ins' := ins[d := ins[d][i := v]];
            Refs(cnt, ins', s) == if v == s then Refs(cnt, ins, s) + {(d, i)} else Refs(cnt, ins, s) - {(d, i)}
    ensures var ins' := ins[d := ins[d][i := v]];
            |Refs(cnt, ins', s)| == |Refs(cnt, ins, s)| - (if ins[d][i] == s then 1 else 0) + (if v == s then 1 else 0)
  {
    var ins' := ins[d := ins[d][i := v]];
    var r, r' := Refs(cnt, ins, s), Refs(cnt, ins', s);
    forall n: nat, j: nat | (n, j) != (d, i) ensures (n, j) in r <==> (n, j) in r' {
      RefsAt(cnt, ins, s, n, j);
      RefsAt(cnt, ins', s, n, j);
    }
    RefsAt(cnt, ins, s, d, i);
    RefsAt(cnt, ins', s, d, i);
    var rest := r - {(d, i)};
    assert rest == r' - {(d, i)};
    assert r == if ins[d][i] == s then rest + {(d, i)} else rest;
    assert r' == if v == s then rest + {(d, i)} else rest;
  }

  /** Binding an unbound inlet to the output `s`. */
  lemma PoolBind(cnt: seq<int>, ins: seq<seq<int>>, rc: seq<int>, pend: set<nat>, d: nat, i: nat, s: nat)
    requires |cnt| == |ins| && d < |ins| && i < |ins[d]| && cnt[d] != SCHEDULED
    requires Pool(cnt, ins, rc, pend) && ins[d][i] == UNBOUND && 1 <= s < |rc|
    ensures Pool(cnt, ins[d := ins[d][i := s]], Reref(rc, s), pend - {s})
  {
    hide Refs;
    var ins', rc' := ins[d := ins[d][i := s]], Reref(rc, s);
    forall r: nat | 1 <= r < |rc|
      ensures if r in pend - {s} then rc'[r] == PENDING && Refs(cnt, ins', r) == {} else rc'[r] == |Refs(cnt, ins', r)|
    {
      RefsBind(cnt, ins, d, i, s, r);
    }
    forall n, j | 0 <= n < |ins'| && cnt[n] != SCHEDULED && 0 <= j < |ins'[n]|
      ensures ins'[n][j] == UNBOUND || 1 <= ins'[n][j] < |rc'|
    {
      assert (n, j) != (d, i) ==> ins'[n][j] == ins[n][j];
    }
  }

  /** The reference counts after inserting an add: `p` was bound, `s` is the output, `w` the signal of the sum. */
  function AddCounts(rc: seq<int>, p: nat, s: nat, w: nat): (rc': seq<int>)
    requires p < |rc| && s < |rc| && w <= |rc|
    ensures |rc'| >= |rc|
  {
    Reref(Unref(Alloc(Reref(Unref(rc, p), s), w), s), w)
  }

  /** The signal allocated for a sum is neither the output being added nor pending, and no inlet other than
      the one being rebound is bound to it. */
  lemma FreshForAdd(cnt: seq<int>, ins: seq<seq<int>>, rc: seq<int>, pend: set<nat>, d: nat, i: nat, s: nat, w: nat)
    requires |cnt| == |ins| && d < |ins| && i < |ins[d]| && cnt[d] != SCHEDULED
    requires Pool(cnt, ins, rc, pend) && 1 <= ins[d][i] && 1 <= s < |rc|
    requires Free(Reref(Unref(rc, ins[d][i]), s), w)
    ensures w != s && w !in pend
    ensures forall n: nat, j: nat :: n < |ins| && cnt[n] != SCHEDULED && j < |ins[n]| && (n, j) != (d, i) ==>
            ins[n][j] != w
  {
    var p := ins[d][i];
    RefsAt(cnt, ins, p, d, i);
    assert rc[p] == |Refs(cnt, ins, p)|;
    if w < |rc| {
      forall n: nat, j: nat | n < |ins| && cnt[n] != SCHEDULED && j < |ins[n]| && (n, j) != (d, i)
        ensures ins[n][j] != w
      {
        if ins[n][j] == w {
          RefsAt(cnt, ins, w, n, j);
          if w == p {
            TwoElements(Refs(cnt, ins, p), (n, j), (d, i));
          }
        }
      }
    }
  }

  /** Replacing the bound signal `p` of an inlet by the signal `w` of the inserted sum. */
  lemma PoolAdd(cnt: seq<int>, ins: seq<seq<int>>, rc: seq<int>, pend: set<nat>, d: nat, i: nat, s: nat, w: nat)
    requires |cnt| == |ins| && d < |ins| && i < |ins[d]| && cnt[d] != SCHEDULED
    requires Pool(cnt, ins, rc, pend) && 1 <= ins[d][i] && 1 <= s < |rc|
    requires Free(Reref(Unref(rc, ins[d][i]), s), w)
    ensures Pool(cnt, ins[d := ins[d][i := w]], AddCounts(rc, ins[d][i], s, w), pend - {s})
  {
    var p := ins[d][i];
    RefsAt(cnt, ins, p, d, i);
    assert rc[p] == |Refs(cnt, ins, p)| >= 1;
    FreshForAdd(cnt, ins, rc, pend, d, i, s, w);
    var rc' := AddCounts(rc, p, s, w);
    forall r: nat | 1 <= r < |rc'| {
      PoolAddAt(cnt, ins, rc, pend, d, i, s, w, r);
    }
  }

  lemma PoolAddAt(cnt: seq<int>, ins: seq<seq<int>>, rc: seq<int>, pend: set<nat>, d: nat, i: nat, s: nat, w: nat,
                  r: nat)
    requires |cnt| == |ins| && d < |ins| && i < |ins[d]| && cnt[d] != SCHEDULED
    requires Pool(cnt, ins, rc, pend) && 1 <= ins[d][i] && 1 <= s < |rc|
    requires Free(Reref(Unref(rc, ins[d][i]), s), w) && w != s && rc[ins[d][i]] >= 1
    requires 1 <= r < |AddCounts(rc, ins[d][i], s, w)|
    ensures var rc', ins' := AddCounts(rc, ins[d][i], s, w), ins[d := ins[d][i := w]];
            if r in pend - {s} then rc'[r] == PENDING && Refs(cnt, ins', r) == {} else rc'[r] == |Refs(cnt, ins', r)|
  {
    AddCountsAt(rc, ins[d][i], s, w, r);
    RefsBind(cnt, ins, d, i, w, r);
    if r >= |rc| {
      NoRefs(cnt, ins, rc, pend, r);
    }
  }

  lemma AddCountsSize(rc: seq<int>, p: nat, s: nat, w: nat)
    requires p < |rc| && s < |rc| && w <= |rc|
    ensures |rc| <= |AddCounts(rc, p, s, w)| && w < |AddCounts(rc, p, s, w)|
  {
  }

  /** The net effect of the five count updates: the bound signal loses a reference and the sum gains one. */
  lemma AddCountsAt(rc: seq<int>, p: nat, s: nat, w: nat, r: nat)
    requires p < |rc| && 1 <= s < |rc| && rc[p] >= 1 && (rc[s] >= 0 || rc[s] == PENDING)
    requires Free(Reref(Unref(rc, p), s), w) && w != s
    requires r < |AddCounts(rc, p, s, w)|
    ensures AddCounts(rc, p, s, w)[r] ==
            (if r == |rc| || (r == s && rc[s] == PENDING) then 0 else rc[r]) -
            (if r == p then 1 else 0) + (if r == w then 1 else 0)
  {
    var r1 := Unref(rc, p);
    var r2 := Reref(r1, s);
    var r3 := Alloc(r2, w);
    var r4 := Unref(r3, s);
    assert r4[w] == PENDING;
    assert r2[s] == (if rc[s] == PENDING then 0 else rc[s]) - (if s == p then 1 else 0) + 1;
    assert r4[s] == r2[s] - 1;
  }

  lemma NoRefs(cnt: seq<int>, ins: seq<seq<int>>, rc: seq<int>, pend: set<nat>, r: nat)
    requires |cnt| == |ins| && Pool(cnt, ins, rc, pend) && r >= |rc|
    ensures Refs(cnt, ins, r) == {}
  {
    forall n: nat, i: nat ensures (n, i) !in Refs(cnt, ins, r) {
      RefsAt(cnt, ins, r, n, i);
    }
  }

  /** What inlet `i` of node `n` holds gains the summands `x`; every other inlet keeps what it holds. */
  ghost predicate Gains(g: Graph, st: State, st': State, carried: bool, d: nat, k: nat, x: multiset<Term>)
    requires Shape(g, st) && Shape(g, st')
  {
    forall n: nat, i: nat :: n < |g.edges| && st.cnt[n] != SCHEDULED && i < g.nin[n] ==>
      Held(st', n, i) == if carried && n == d && i == k then Held(st, n, i) + x else Held(st, n, i)
  }

  /** What an inlet holds after one edge is realized. */
  lemma HoldsSend(g: Graph, st: State, st': State, c: nat, e: Edge, n: nat, i: nat)
    requires Shape(g, st) && Shape(g, st') && NextEdge(g, st.sent, c, e) && st'.sent == st.sent[c := st.sent[c] + 1]
    requires n < |g.edges| && i < g.nin[n] && Holds(g, st, n, i)
    requires Held(st', n, i) == if Carries(g, e) && n == e.dst && i == e.inlet
                                then Held(st, n, i) + multiset{Output(c, e.outlet)} else Held(st, n, i)
    ensures Holds(g, st', n, i)
  {
    forall t ensures Arrived(g, st'.sent, n, i, t) == Held(st', n, i)[t] {
      ArrivedSend(g, st.sent, c, n, i, t);
    }
  }

  lemma ContentsSend(g: Graph, st: State, st': State, c: nat, e: Edge)
    requires Shape(g, st) && Shape(g, st') && Contents(g, st) && PutsRead(g, st')
    requires NextEdge(g, st.sent, c, e) && st'.sent == st.sent[c := st.sent[c] + 1]
    requires forall n :: 0 <= n < |g.edges| ==> (st.cnt[n] == SCHEDULED <==> st'.cnt[n] == SCHEDULED)
    requires Gains(g, st, st', Carries(g, e), e.dst, e.inlet, multiset{Output(c, e.outlet)})
    ensures Contents(g, st')
  {
    forall n: nat, i: nat | n < |g.edges| && st'.cnt[n] != SCHEDULED && i < g.nin[n] ensures Holds(g, st', n, i) {
      hide Held, Holds, PutsRead, Arrived;
      HoldsSend(g, st, st', c, e, n, i);
    }
  }

  lemma PutsReadAdd(g: Graph, st: State, st': State, x: nat, y: nat, w: nat)
    requires Shape(g, st) && Shape(g, st') && Contents(g, st) && w != ZERO_SIGNAL
    requires st'.prog == st.prog + [Add(x, y, w)]
    requires forall n :: 0 <= n < |g.edges| ==> (st.cnt[n] == SCHEDULED <==> st'.cnt[n] == SCHEDULED)
    ensures PutsRead(g, st')
    ensures forall s :: s != w ==> Look(SymExec(st'.prog).buf, s) == Look(SymExec(st.prog).buf, s)
    ensures Look(SymExec(st'.prog).buf, w) == Look(SymExec(st.prog).buf, x) + Look(SymExec(st.prog).buf, y)
    ensures SymExec(st'.prog).seen == SymExec(st.prog).seen
    ensures PutNodes(st'.prog) == PutNodes(st.prog)
  {
    Append(st.prog, Add(x, y, w));
    PutNodesAppend(st.prog, Add(x, y, w));
    var sy, sy' := SymExec(st.prog), SymExec(st'.prog);
    forall n: nat | n in sy'.seen ensures ReadsFanIn(g, sy', n) {
      assert ReadsFanIn(g, sy, n);
    }
  }

  lemma FanningSend(g: Graph, st: State, st': State, pend: set<nat>, pend': set<nat>, c: nat, outs: seq<nat>)
    requires Shape(g, st) && Shape(g, st') && Fanning(g, st, pend, c, outs) && st.sent[c] < |g.edges[c]|
    requires st'.sent == st.sent[c := st.sent[c] + 1] && st'.cnt[c] == SCHEDULED && |st'.rc| >= |st.rc|
    requires EdgeValid(g, c, g.edges[c][st.sent[c]])
    requires pend - {outs[g.edges[c][st.sent[c]].outlet]} <= pend' <= pend
    requires forall o :: 0 <= o < |outs| && g.edges[c][st.sent[c]].outlet <= o ==>
               Look(SymExec(st'.prog).buf, outs[o]) == Look(SymExec(st.prog).buf, outs[o])
    ensures Fanning(g, st', pend', c, outs)
  {
    hide Look, SymExec;
    var k := st.sent[c];
    assert Last(g, st.sent, c) <= g.edges[c][k].outlet == Last(g, st'.sent, c);
  }

  lemma FanningAdd(g: Graph, st: State, st': State, pend: set<nat>, c: nat, outs: seq<nat>, e: Edge, w: nat)
    requires Shape(g, st) && Shape(g, st') && Fanning(g, st, pend, c, outs) && NextEdge(g, st.sent, c, e)
    requires st'.sent == st.sent[c := st.sent[c] + 1] && st'.cnt[c] == SCHEDULED && |st'.rc| >= |st.rc|
    requires w != outs[e.outlet] && w !in pend
    requires forall s :: s != w ==> Look(SymExec(st'.prog).buf, s) == Look(SymExec(st.prog).buf, s)
    ensures Fanning(g, st', pend - {outs[e.outlet]}, c, outs)
  {
    assert Last(g, st.sent, c) <= e.outlet;
    forall o | e.outlet <= o < |outs| ensures outs[o] != w {
      assert o != e.outlet ==> outs[o] in pend;
    }
    FanningSend(g, st, st', pend, pend - {outs[e.outlet]}, c, outs);
  }

  /** The edge of `c` that is realized next. */
  predicate NextEdge(g: Graph, sent: seq<nat>, c: nat, e: Edge) {
    && Valid(g) && |sent| == |g.edges| && c < |g.edges| && sent[c] < |g.edges[c]|
    && e == g.edges[c][sent[c]] && EdgeValid(g, c, e)
  }

  ghost predicate Realizing(g: Graph, st: State, pend: set<nat>, c: nat, outs: seq<nat>) {
    Core(g, st, pend, c) && Fanning(g, st, pend, c, outs)
  }

  /** What a realized edge leaves to prove once the reference counts and the outputs are settled. */
  lemma SendRest(g: Graph, st: State, st': State, pend: set<nat>, pend': set<nat>, c: nat, outs: seq<nat>, e: Edge)
    requires Realizing(g, st, pend, c, outs) && NextEdge(g, st.sent, c, e) && Shape(g, st') && Counts(g, st', c)
    requires st'.cnt == Counted(st, c, e.dst).cnt && st'.sent == Counted(st, c, e.dst).sent
    requires Pool(st'.cnt, st'.ins, st'.rc, pend') && PutsRead(g, st') && PutNodes(st'.prog) == PutNodes(st.prog)
    requires Fanning(g, st', pend', c, outs) && st.cnt[e.dst] >= 1
    requires Gains(g, st, st', Carries(g, e), e.dst, e.inlet, multiset{Output(c, e.outlet)})
    requires AllWithin(st'.prog, |st'.rc|)
    ensures Realizing(g, st', pend', c, outs)
  {
    hide AllWithin, Pool, Counts, PutsRead, Fanning, Topological, Contents, Gains;
    assert forall n :: 0 <= n < |g.edges| ==> (st.cnt[n] == SCHEDULED <==> st'.cnt[n] == SCHEDULED);
    ContentsSend(g, st, st', c, e);
  }

  /** An edge that carries no signal changes nothing but the counter. */
  lemma SendPlain(g: Graph, st: State, pend: set<nat>, c: nat, outs: seq<nat>, e: Edge)
    requires Realizing(g, st, pend, c, outs) && NextEdge(g, st.sent, c, e) && !Carries(g, e)
    ensures Realizing(g, Counted(st, c, e.dst), pend, c, outs)
  {
    hide AllWithin, Pool, Counts, Topological, Contents, PutsRead, Fanning, Gains;
    var st' := Counted(st, c, e.dst);
    OutputIntact(g, st, pend, c, outs, e);
    CountsSend(g, st, st', c, e);
    SamePuts(g, st, st');
    PlainPool(st, st', pend);
    FanningSend(g, st, st', pend, pend, c, outs);
    PlainGains(g, st, st', e, multiset{Output(c, e.outlet)});
    SendRest(g, st, st', pend, pend, c, outs, e);
  }

  lemma PlainPool(st: State, st': State, pend: set<nat>)
    requires |st.cnt| == |st.ins| == |st'.cnt| && st'.ins == st.ins && st'.rc == st.rc
    requires forall n :: 0 <= n < |st.cnt| ==> (st.cnt[n] == SCHEDULED <==> st'.cnt[n] == SCHEDULED)
    requires Pool(st.cnt, st.ins, st.rc, pend)
    ensures Pool(st'.cnt, st'.ins, st'.rc, pend)
  {
    RefsSame(st.cnt, st'.cnt, st.ins);
  }

  lemma PlainGains(g: Graph, st: State, st': State, e: Edge, x: multiset<Term>)
    requires Shape(g, st) && Shape(g, st') && st'.ins == st.ins && st'.prog == st.prog
    ensures Gains(g, st, st', false, e.dst, e.inlet, x)
  {
  }

  lemma SamePuts(g: Graph, st: State, st': State)
    requires Shape(g, st) && Shape(g, st') && Contents(g, st) && st'.prog == st.prog
    requires forall n :: 0 <= n < |g.edges| ==> (st.cnt[n] == SCHEDULED <==> st'.cnt[n] == SCHEDULED)
    ensures PutsRead(g, st')
  {
  }

  /** An unbound inlet is bound to the output itself. */
  ghost predicate Binding(g: Graph, st: State, st': State, c: nat, outs: seq<nat>, e: Edge)
    requires Shape(g, st) && NextEdge(g, st.sent, c, e)
  {
    && Carries(g, e) && e.outlet < |outs| && outs[e.outlet] < |st.rc|
    && st.ins[e.dst][e.inlet] == UNBOUND
    && st' == Counted(st, c, e.dst).(rc := Reref(st.rc, outs[e.outlet]),
                                     ins := st.ins[e.dst := st.ins[e.dst][e.inlet := outs[e.outlet]]])
  }

  lemma BindPool(cnt: seq<int>, cnt': seq<int>, ins: seq<seq<int>>, rc: seq<int>, pend: set<nat>, d: nat, i: nat,
                 s: nat)
    requires |cnt| == |cnt'| == |ins| && d < |ins| && i < |ins[d]| && cnt[d] != SCHEDULED
    requires forall n :: 0 <= n < |cnt| ==> (cnt[n] == SCHEDULED <==> cnt'[n] == SCHEDULED)
    requires Pool(cnt, ins, rc, pend) && ins[d][i] == UNBOUND && 1 <= s < |rc|
    ensures Pool(cnt', ins[d := ins[d][i := s]], Reref(rc, s), pend - {s})
  {
    RefsSame(cnt, cnt', ins);
    PoolBind(cnt', ins, rc, pend, d, i, s);
  }

  lemma BindGains(g: Graph, st: State, st': State, c: nat, outs: seq<nat>, e: Edge)
    requires Shape(g, st) && Shape(g, st') && NextEdge(g, st.sent, c, e) && Binding(g, st, st', c, outs, e)
    ensures Gains(g, st, st', true, e.dst, e.inlet, Look(SymExec(st.prog).buf, outs[e.outlet]))
  {
  }

  /** The output an edge is about to carry is intact. */
  lemma OutputIntact(g: Graph, st: State, pend: set<nat>, c: nat, outs: seq<nat>, e: Edge)
    requires Shape(g, st) && Fanning(g, st, pend, c, outs) && NextEdge(g, st.sent, c, e)
    ensures e.outlet < |outs| && 1 <= outs[e.outlet] < |st.rc| && st.cnt[c] == SCHEDULED
    ensures Look(SymExec(st.prog).buf, outs[e.outlet]) == multiset{Output(c, e.outlet)}
  {
    assert Last(g, st.sent, c) <= e.outlet;
  }

  lemma SendBind(g: Graph, st: State, st': State, pend: set<nat>, c: nat, outs: seq<nat>, e: Edge)
    requires Realizing(g, st, pend, c, outs) && NextEdge(g, st.sent, c, e) && Binding(g, st, st', c, outs, e)
    ensures Realizing(g, st', pend - {outs[e.outlet]}, c, outs)
  {
    hide AllWithin, Pool, Counts, Topological, Contents, PutsRead, Fanning, Gains;
    var sig := outs[e.outlet];
    OutputIntact(g, st, pend, c, outs, e);
    CountsSend(g, st, st', c, e);
    SamePuts(g, st, st');
    BindPool(st.cnt, st'.cnt, st.ins, st.rc, pend, e.dst, e.inlet, sig);
    FanningSend(g, st, st', pend, pend - {sig}, c, outs);
    BindGains(g, st, st', c, outs, e);
    SendRest(g, st, st', pend, pend - {sig}, c, outs, e);
  }

  /** A bound inlet is rebound to the sum, in the free signal `w`, of what it was bound to and the output. */
  ghost predicate Adding(g: Graph, st: State, st': State, c: nat, outs: seq<nat>, e: Edge, w: nat)
    requires Shape(g, st) && NextEdge(g, st.sent, c, e)
  {
    && Carries(g, e) && e.outlet < |outs| && st.cnt[e.dst] >= 1
    && var p, sig := st.ins[e.dst][e.inlet], outs[e.outlet];
       && 1 <= p < |st.rc| && 1 <= sig < |st.rc| && Free(Reref(Unref(st.rc, p), sig), w)
       && st' == Counted(st, c, e.dst).(rc := AddCounts(st.rc, p, sig, w),
                                        ins := st.ins[e.dst := st.ins[e.dst][e.inlet := w]],
                                        prog := st.prog + [Add(p, sig, w)])
  }

  lemma SendAdd(g: Graph, st: State, st': State, pend: set<nat>, c: nat, outs: seq<nat>, e: Edge, w: nat)
    requires Realizing(g, st, pend, c, outs) && NextEdge(g, st.sent, c, e) && Adding(g, st, st', c, outs, e, w)
    ensures Realizing(g, st', pend - {outs[e.outlet]}, c, outs)
  {
    hide AllWithin, Pool, Counts, Topological, Contents, PutsRead, Fanning, Gains, AddCounts;
    var p, sig := st.ins[e.dst][e.inlet], outs[e.outlet];
    OutputIntact(g, st, pend, c, outs, e);
    CountsSend(g, st, st', c, e);
    SendAddPool(st.cnt, st'.cnt, st.ins, st.rc, pend, e.dst, e.inlet, sig, w);
    PutsReadAdd(g, st, st', p, sig, w);
    AddGains(g, st, st', e, sig, w, multiset{Output(c, e.outlet)});
    FanningAdd(g, st, st', pend, c, outs, e, w);
    AddCountsSize(st.rc, p, sig, w);
    AllWithinGrows(st.prog, Add(p, sig, w), |st.rc|, |st'.rc|);
    SendRest(g, st, st', pend, pend - {sig}, c, outs, e);
  }

  lemma SendAddPool(cnt: seq<int>, cnt': seq<int>, ins: seq<seq<int>>, rc: seq<int>, pend: set<nat>,
                    d: nat, i: nat, s: nat, w: nat)
    requires |cnt| == |cnt'| == |ins| && d < |ins| && i < |ins[d]| && cnt[d] != SCHEDULED
    requires forall n :: 0 <= n < |cnt| ==> (cnt[n] == SCHEDULED <==> cnt'[n] == SCHEDULED)
    requires Pool(cnt, ins, rc, pend) && 1 <= ins[d][i] && 1 <= s < |rc|
    requires Free(Reref(Unref(rc, ins[d][i]), s), w)
    ensures Pool(cnt', ins[d := ins[d][i := w]], AddCounts(rc, ins[d][i], s, w), pend - {s})
    ensures w != s && w !in pend
    ensures forall n: nat, j: nat :: n < |ins| && cnt[n] != SCHEDULED && j < |ins[n]| && (n, j) != (d, i) ==>
            ins[n][j] != w
  {
    RefsSame(cnt, cnt', ins);
    PoolAdd(cnt', ins, rc, pend, d, i, s, w);
    FreshForAdd(cnt, ins, rc, pend, d, i, s, w);
  }

  lemma AddGains(g: Graph, st: State, st': State, e: Edge, sig: nat, w: nat, x: multiset<Term>)
    requires Shape(g, st) && Shape(g, st') && e.dst < |st.ins| && e.inlet < |st.ins[e.dst]|
    requires 0 <= st.ins[e.dst][e.inlet] && st'.ins == st.ins[e.dst := st.ins[e.dst][e.inlet := w]]
    requires forall n: nat, j: nat ::
        n < |st.ins| && st.cnt[n] != SCHEDULED && j < |st.ins[n]| && (n, j) != (e.dst, e.inlet) ==> st.ins[n][j] != w
    requires var b, b' := SymExec(st.prog).buf, SymExec(st'.prog).buf;
             && (forall s :: s != w ==> Look(b', s) == Look(b, s))
             && Look(b', w) == Look(b, st.ins[e.dst][e.inlet]) + Look(b, sig)
             && Look(b, sig) == x
    ensures Gains(g, st, st', true, e.dst, e.inlet, x)
  {
    hide Look, SymExec;
  }

  // ---------------------------------------------------------------- scheduling a node

  /** The references held by inlets other than the first `i` inlets of node `n`. */
  ghost function RefsFrom(cnt: seq<int>, ins: seq<seq<int>>, s: int, n: nat, i: nat): set<(nat, nat)>
    requires |cnt| == |ins|
  {
    set x | x in Refs(cnt, ins, s) && (x.0 != n || x.1 >= i)
  }

  lemma RefsFromStep(cnt: seq<int>, ins: seq<seq<int>>, s: int, n: nat, i: nat)
    requires |cnt| == |ins| && n < |ins| && cnt[n] != SCHEDULED && i < |ins[n]|
    ensures |RefsFrom(cnt, ins, s, n, i)| == |RefsFrom(cnt, ins, s, n, i + 1)| + if ins[n][i] == s then 1 else 0
  {
    var a, b := RefsFrom(cnt, ins, s, n, i), RefsFrom(cnt, ins, s, n, i + 1);
    RefsAt(cnt, ins, s, n, i);
    assert a == if ins[n][i] == s then b + {(n, i)} else b;
  }

  lemma RefsFromAll(cnt: seq<int>, ins: seq<seq<int>>, ins': seq<seq<int>>, s: nat, n: nat)
    requires |cnt| == |ins| == |ins'| && n < |ins| && s != ZERO_SIGNAL
    requires forall m :: 0 <= m < |ins| && m != n ==> ins'[m] == ins[m]
    ensures RefsFrom(cnt, ins, s, n, 0) == Refs(cnt, ins, s)
    ensures RefsFrom(cnt, ins, s, n, |ins[n]|) == Refs(cnt[n := SCHEDULED], ins', s)
  {
    var a, b := RefsFrom(cnt, ins, s, n, |ins[n]|), Refs(cnt[n := SCHEDULED], ins', s);
    forall m: nat, i: nat ensures (m, i) in a <==> (m, i) in b {
      RefsAt(cnt, ins, s, m, i);
      RefsAt(cnt[n := SCHEDULED], ins', s, m, i);
    }
    assert RefsFrom(cnt, ins, s, n, 0) == Refs(cnt, ins, s);
  }

  /** The first `i` inputs of node `n` are unreferenced; `ins0` is what the inlets were bound to before. */
  ghost predicate Detaching(cnt: seq<int>, ins0: seq<seq<int>>, ins: seq<seq<int>>, rc: seq<int>, n: nat, i: nat) {
    && |cnt| == |ins0| == |ins| && n < |ins| && i <= |ins0[n]| == |ins[n]| && |rc| >= 1 && rc[ZERO_SIGNAL] == 1
    && cnt[n] != SCHEDULED
    && (forall m :: 0 <= m < |ins| && m != n ==> ins[m] == ins0[m])
    && (forall j :: 0 <= j < |ins[n]| ==>
          ins[n][j] == if j < i && ins0[n][j] == UNBOUND then ZERO_SIGNAL else ins0[n][j])
    && (forall s: nat :: 1 <= s < |rc| ==> rc[s] == |RefsFrom(cnt, ins0, s, n, i)|)
    && (forall m, j :: 0 <= m < |ins0| && cnt[m] != SCHEDULED && 0 <= j < |ins0[m]| ==>
          ins0[m][j] == UNBOUND || 1 <= ins0[m][j] < |rc|)
  }

  lemma DetachStart(cnt: seq<int>, ins: seq<seq<int>>, rc: seq<int>, n: nat)
    requires |cnt| == |ins| && n < |ins| && cnt[n] != SCHEDULED && Pool(cnt, ins, rc, {})
    ensures Detaching(cnt, ins, ins, rc, n, 0)
  {
    forall s: nat | 1 <= s < |rc| ensures rc[s] == |RefsFrom(cnt, ins, s, n, 0)| {
      RefsFromAll(cnt, ins, ins, s, n);
    }
  }

  lemma DetachStep(cnt: seq<int>, ins0: seq<seq<int>>, ins: seq<seq<int>>, rc: seq<int>, n: nat, i: nat)
    requires Detaching(cnt, ins0, ins, rc, n, i) && i < |ins0[n]|
    ensures ins[n][i] == ins0[n][i]
    ensures if ins[n][i] == UNBOUND then Detaching(cnt, ins0, ins[n := ins[n][i := ZERO_SIGNAL]], rc, n, i + 1)
            else 1 <= ins[n][i] < |rc| && Detaching(cnt, ins0, ins, Unref(rc, ins[n][i]), n, i + 1)
  {
    var rc' := if ins[n][i] == UNBOUND then rc else Unref(rc, ins[n][i]);
    forall s: nat | 1 <= s < |rc| ensures rc'[s] == |RefsFrom(cnt, ins0, s, n, i + 1)| {
      RefsFromStep(cnt, ins0, s, n, i);
    }
  }

  lemma DetachEnd(cnt: seq<int>, ins0: seq<seq<int>>, ins: seq<seq<int>>, rc: seq<int>, n: nat)
    requires |cnt| == |ins0| == |ins| && n < |ins| && Detaching(cnt, ins0, ins, rc, n, |ins[n]|)
    ensures Pool(cnt[n := SCHEDULED], ins, rc, {})
    ensures forall m :: 0 <= m < |ins| && m != n ==> ins[m] == ins0[m]
    ensures |ins[n]| == |ins0[n]|
    ensures forall j :: 0 <= j < |ins[n]| ==> ins[n][j] == if ins0[n][j] == UNBOUND then ZERO_SIGNAL else ins0[n][j]
  {
    forall s: nat | 1 <= s < |rc| ensures rc[s] == |Refs(cnt[n := SCHEDULED], ins, s)| {
      RefsFromAll(cnt, ins0, ins, s, n);
    }
  }

  function Elems(outs: seq<nat>): set<nat> {
    set s | s in outs
  }

  /** Node `n` is put: it reads `nins` and writes `outs`. */
  ghost predicate Putting(g: Graph, st: State, st': State, n: nat, nins: seq<nat>, outs: seq<nat>) {
    && Core(g, st, {}, -1) && n < |g.edges| && st.cnt[n] == 0 && Shape(g, st')
    && st'.cnt == st.cnt[n := SCHEDULED] && st'.sent == st.sent && st'.prog == st.prog + [Put(n, nins, outs)]
    && (forall m :: 0 <= m < |g.edges| && m != n ==> st'.ins[m] == st.ins[m])
    && |nins| == g.nin[n]
    && (forall i :: 0 <= i < |nins| ==> nins[i] == if st.ins[n][i] == UNBOUND then ZERO_SIGNAL else st.ins[n][i])
    && |outs| == g.nout[n] && Distinct(outs)
    && (forall o :: 0 <= o < |outs| ==> 1 <= outs[o] < |st'.rc|)
    && |st.rc| <= |st'.rc| && Pool(st'.cnt, st'.ins, st'.rc, Elems(outs))
  }

  /** A ready node reads, through its unreferenced inputs, exactly what the graph asks for, and its outputs land in
      buffers no other inlet is bound to. */
  lemma PutNode(g: Graph, st: State, st': State, n: nat, nins: seq<nat>, outs: seq<nat>)
    requires Putting(g, st, st', n, nins, outs)
    ensures Core(g, st', Elems(outs), n) && Fanning(g, st', Elems(outs), n, outs)
  {
    hide AllWithin, Counts, Topological, Pool, PutsRead, Holds;
    PutWithin(g, st, st', n, nins, outs);
    PutCounts(g, st, st', n);
    PutPuts(g, st, st', n, nins, outs);
    PutHolds(g, st, st', n, nins, outs);
    PutNodesAppend(st.prog, Put(n, nins, outs));
    TopologicalPut(g, st, n);
  }

  lemma PutWithin(g: Graph, st: State, st': State, n: nat, nins: seq<nat>, outs: seq<nat>)
    requires Putting(g, st, st', n, nins, outs)
    ensures AllWithin(st'.prog, |st'.rc|)
  {
    hide Counts, Topological, PutsRead, Holds, AllWithin, Contents, Distinct, Refs;
    forall i | 0 <= i < |nins| ensures nins[i] < |st'.rc| {
      assert st.ins[n][i] == UNBOUND || 1 <= st.ins[n][i] < |st.rc|;
    }
    AllWithinGrows(st.prog, Put(n, nins, outs), |st.rc|, |st'.rc|);
  }

  lemma PutPuts(g: Graph, st: State, st': State, n: nat, nins: seq<nat>, outs: seq<nat>)
    requires Putting(g, st, st', n, nins, outs)
    ensures PutsRead(g, st')
    ensures forall o :: 0 <= o < |outs| ==> Look(SymExec(st'.prog).buf, outs[o]) == multiset{Output(n, o)}
  {
    hide Counts, Topological, Pool, Holds;
    var sy, sy', put := SymExec(st.prog), SymExec(st'.prog), Put(n, nins, outs);
    Append(st.prog, put);
    WriteOutsLook(sy.buf, n, outs);
    PutReads(g, st, n, nins, outs);
    forall m: nat | m in sy'.seen && m != n ensures ReadsFanIn(g, sy', m) {
      assert ReadsFanIn(g, sy, m);
    }
  }

  lemma PutHolds(g: Graph, st: State, st': State, n: nat, nins: seq<nat>, outs: seq<nat>)
    requires Putting(g, st, st', n, nins, outs)
    ensures forall m: nat, i: nat :: m < |g.edges| && st'.cnt[m] != SCHEDULED && i < g.nin[m] ==> Holds(g, st', m, i)
  {
    hide Counts, Topological, PutsRead;
    Append(st.prog, Put(n, nins, outs));
    WriteOutsLook(SymExec(st.prog).buf, n, outs);
    forall m: nat, i: nat | m < |g.edges| && st'.cnt[m] != SCHEDULED && i < g.nin[m] ensures Holds(g, st', m, i) {
      assert Holds(g, st, m, i);
      RefsAt(st'.cnt, st'.ins, st'.ins[m][i], m, i);
    }
  }

  lemma PutCounts(g: Graph, st: State, st': State, n: nat)
    requires Shape(g, st) && Counts(g, st, -1) && n < |g.edges| && st.cnt[n] == 0
    requires Shape(g, st') && st'.cnt == st.cnt[n := SCHEDULED] && st'.sent == st.sent
    ensures Counts(g, st', n) && st.sent[n] == 0
  {
  }

  lemma PutReads(g: Graph, st: State, n: nat, nins: seq<nat>, outs: seq<nat>)
    requires Core(g, st, {}, -1) && n < |g.edges| && st.cnt[n] == 0
    requires |nins| == g.nin[n]
    requires forall i :: 0 <= i < |nins| ==> nins[i] == if st.ins[n][i] == UNBOUND then ZERO_SIGNAL else st.ins[n][i]
    ensures ReadsFanIn(g, SymStep(SymExec(st.prog), Put(n, nins, outs)), n)
  {
    var sy := SymExec(st.prog);
    var sy' := SymStep(sy, Put(n, nins, outs));
    assert Waiting(g, st.sent, n) == {};
    forall i: nat, t | i < g.nin[n] ensures sy'.seen[n][i][t] == FanIn(g, n, i, t) {
      assert Holds(g, st, n, i);
      NothingWaiting(g, st.sent, n, i, t);
      assert sy'.seen[n][i] == Look(sy.buf, nins[i]);
    }
  }

  lemma TopologicalPut(g: Graph, st: State, n: nat)
    requires Core(g, st, {}, -1) && n < |g.edges| && st.cnt[n] == 0
    ensures Topological(g, PutNodes(st.prog) + [n])
  {
    var order := PutNodes(st.prog);
    var order' := order + [n];
    PutNodesSeen(st.prog);
    forall j, m: nat | 0 <= j < |order'| && HasEdge(g, m, order'[j]) ensures m in order'[..j] {
      if j < |order| {
        assert order'[j] == order[j] && order'[..j] == order[..j];
      } else {
        var k: nat :| k < |g.edges[m]| && g.edges[m][k].dst == n;
        WaitingAt(g, st.sent, n, m, k);
        assert order'[..j] == order;
      }
    }
  }

  /** Freeing the outputs that are still pending. */
  lemma PoolFree(cnt: seq<int>, ins: seq<seq<int>>, rc: seq<int>, pend: set<nat>, s: nat)
    requires |cnt| == |ins| && Pool(cnt, ins, rc, pend) && s in pend
    ensures Pool(cnt, ins, rc[s := 0], pend - {s})
  {
  }

  /** What the counters and reference counts say before edge `e` with signal `sig` is realized. */
  predicate Realizable(g: Graph, st: State, c: nat, e: Edge, sig: nat) {
    && |st.cnt| == |st.ins| == |g.nin| && c < |st.sent| && e.dst < |st.cnt| && st.cnt[e.dst] >= 1
    && (Carries(g, e) ==>
          && e.inlet < |st.ins[e.dst]| && 1 <= sig < |st.rc| && st.rc[ZERO_SIGNAL] == 1
          && (st.rc[sig] == PENDING || st.rc[sig] >= 0)
          && var p := st.ins[e.dst][e.inlet];
             p != UNBOUND ==> 1 <= p < |st.rc| && st.rc[p] >= 1)
  }

  lemma RealizingIsRealizable(g: Graph, st: State, pend: set<nat>, c: nat, outs: seq<nat>, k: nat)
    requires Realizing(g, st, pend, c, outs) && k == st.sent[c] < |g.edges[c]|
    ensures NextEdge(g, st.sent, c, g.edges[c][k])
    ensures g.edges[c][k].outlet < |outs| && Realizable(g, st, c, g.edges[c][k], outs[g.edges[c][k].outlet])
  {
    var e := g.edges[c][k];
    EdgeWaits(g, st, c);
    if Carries(g, e) {
      RefsAt(st.cnt, st.ins, st.ins[e.dst][e.inlet], e.dst, e.inlet);
    }
  }

  /** The state after edge `e` of `c` is realized; `w` is the signal allocated when a sum has to be inserted. */
  function Realized(g: Graph, st: State, c: nat, e: Edge, sig: nat, w: nat): State
    requires Realizable(g, st, c, e, sig)
    requires Carries(g, e) && st.ins[e.dst][e.inlet] != UNBOUND ==>
             Free(Reref(Unref(st.rc, st.ins[e.dst][e.inlet]), sig), w)
  {
    var st' := Counted(st, c, e.dst);
    if !Carries(g, e) then st'
    else
      var p := st.ins[e.dst][e.inlet];
      if p == UNBOUND then
        st'.(rc := Reref(st.rc, sig), ins := st.ins[e.dst := st.ins[e.dst][e.inlet := sig]])
      else
        st'.(rc := AddCounts(st.rc, p, sig, w), ins := st.ins[e.dst := st.ins[e.dst][e.inlet := w]],
             prog := st.prog + [Add(p, sig, w)])
  }

  /** Realizing an edge keeps every invariant of the compiler; its signal is no longer pending if it was carried. */
  lemma RealizeEdge(g: Graph, st: State, pend: set<nat>, c: nat, outs: seq<nat>, e: Edge, w: nat)
    returns (pend': set<nat>)
    requires Realizing(g, st, pend, c, outs) && NextEdge(g, st.sent, c, e)
    requires e.outlet < |outs| && Realizable(g, st, c, e, outs[e.outlet])
    requires Carries(g, e) && st.ins[e.dst][e.inlet] != UNBOUND ==>
               Free(Reref(Unref(st.rc, st.ins[e.dst][e.inlet]), outs[e.outlet]), w)
    ensures var st' := Realized(g, st, c, e, outs[e.outlet], w);
            && Realizing(g, st', pend', c, outs) && st'.sent[c] == st.sent[c] + 1
            && Unscheduled(st'.cnt) == Unscheduled(st.cnt) && Ready(st'.cnt) <= Ready(st.cnt) + {e.dst}
  {
    var st' := Realized(g, st, c, e, outs[e.outlet], w);
    CountDown(st.cnt, e.dst);
    if !Carries(g, e) {
      pend' := pend;
      SendPlain(g, st, pend, c, outs, e);
    } else {
      pend' := pend - {outs[e.outlet]};
      if st.ins[e.dst][e.inlet] == UNBOUND {
        SendBind(g, st, st', pend, c, outs, e);
      } else {
        SendAdd(g, st, st', pend, c, outs, e, w);
      }
    }
  }

  /** A node is done when its edges are realized and none of its outputs is pending. */
  lemma FinishNode(g: Graph, st: State, st': State, pend: set<nat>, n: nat)
    requires Core(g, st, pend, n) && n < |g.edges| && st.sent[n] == |g.edges[n]|
    requires st' == st.(rc := st'.rc) && |st'.rc| == |st.rc| && Pool(st'.cnt, st'.ins, st'.rc, {})
    ensures Core(g, st', {}, -1)
  {
    forall m: nat, i: nat | m < |g.edges| && st'.cnt[m] != SCHEDULED && i < g.nin[m] ensures Holds(g, st', m, i) {
      assert Holds(g, st, m, i);
    }
  }

  // ---------------------------------------------------------------- the compiler

  ghost function Unscheduled(cnt: seq<int>): set<nat> {
    set m: nat | m < |cnt| && cnt[m] != SCHEDULED
  }

  /** The nodes whose predecessors are all realized but that are not scheduled yet. */
  ghost function Ready(cnt: seq<int>): set<nat> {
    set m: nat | m < |cnt| && cnt[m] == 0
  }

  /** The destinations of the first `k` edges of `n`. */
  ghost function Successors(g: Graph, n: nat, k: nat): set<nat>
    requires n < |g.edges| && k <= |g.edges[n]|
  {
    set j | 0 <= j < k :: g.edges[n][j].dst
  }

  lemma SuccessorsStep(g: Graph, n: nat, k: nat)
    requires n < |g.edges| && k < |g.edges[n]|
    ensures Successors(g, n, k + 1) == Successors(g, n, k) + {g.edges[n][k].dst}
  {
  }

  lemma Removed<T>(after: set<T>, before: set<T>, all: set<T>, gone: set<T>, d: T)
    requires after <= before - {d} && before <= all - gone
    ensures after <= all - (gone + {d})
  {
  }

  lemma ReadyAt(cnt: seq<int>, n: nat)
    requires n < |cnt|
    ensures n in Ready(cnt) <==> cnt[n] == 0
  {
  }

  lemma ReadyBelow(cnt: seq<int>)
    ensures forall m: nat :: m in Ready(cnt) ==> m < |cnt|
  {
  }

  /** What the driving loops need to know of the invariant. */
  lemma CoreShape(g: Graph, st: State, pend: set<nat>, cur: int)
    requires Core(g, st, pend, cur)
    ensures Valid(g) && |st.cnt| == |g.edges|
  {
  }

  lemma CountDown(cnt: seq<int>, d: nat)
    requires d < |cnt| && cnt[d] >= 1
    ensures Unscheduled(cnt[d := cnt[d] - 1]) == Unscheduled(cnt)
    ensures Ready(cnt[d := cnt[d] - 1]) <= Ready(cnt) + {d}
  {
  }

  lemma Schedule(cnt: seq<int>, n: nat)
    requires n < |cnt| && cnt[n] == 0
    ensures Unscheduled(cnt[n := SCHEDULED]) == Unscheduled(cnt) - {n}
    ensures Ready(cnt[n := SCHEDULED]) == Ready(cnt) - {n}
    ensures n in Unscheduled(cnt)
  {
  }

  class Compiler {
    const g: Graph
    /** `pred_cnt` of each node */
    var cnt: seq<int>
    /** `descr.in` of each node */
    var ins: seq<seq<int>>
    /** `refcnt` of each signal, in order of allocation */
    var rc: seq<int>
    /** the calls added to the chain so far */
    var prog: seq<Instr>
    ghost var sent: seq<nat>

    ghost function S(): State
      reads this
    {
      State(cnt, ins, rc, prog, sent)
    }

    constructor (g: Graph)
      ensures this.g == g
    {
      this.g := g;
    }

    /** `fts_dsp_signal_new`: the list is searched from the most recently created signal on. */
    method NewSignal() returns (s: nat)
      requires |rc| >= 1 && rc[ZERO_SIGNAL] != 0
      modifies this`rc
      ensures Free(old(rc), s) && rc == Alloc(old(rc), s)
    {
      var k := |rc|;
      while k > 0
        invariant k <= |rc|
        invariant rc == old(rc)
      {
        k := k - 1;
        if rc[k] == 0 {
          rc := rc[k := PENDING];
          return k;
        }
      }
      s := |rc|;
      rc := rc + [PENDING];
    }

    method Unreference(s: nat)
      requires s < |rc|
      modifies this`rc
      ensures rc == Unref(old(rc), s)
    {
      if rc[s] != PENDING {
        rc := rc[s := rc[s] - 1];
      }
    }

    method Reference(s: nat)
      requires s < |rc|
      modifies this`rc
      ensures rc == Reref(old(rc), s)
    {
      if rc[s] == PENDING {
        rc := rc[s := 1];
      } else {
        rc := rc[s := rc[s] + 1];
      }
    }

    /** Several edges meet at inlet `i` of node `d`: the bound signal is replaced by the sum with `sig`. */
    method InsertAdd(d: nat, i: nat, sig: nat) returns (ghost sum: nat)
      requires d < |ins| && i < |ins[d]| && 1 <= ins[d][i] < |rc| && 1 <= sig < |rc|
      requires rc[ZERO_SIGNAL] == 1 && rc[ins[d][i]] >= 1 && (rc[sig] == PENDING || rc[sig] >= 0)
      modifies this`rc, this`ins, this`prog
      ensures Free(Reref(Unref(old(rc), old(ins[d][i])), sig), sum)
      ensures rc == AddCounts(old(rc), old(ins[d][i]), sig, sum)
      ensures ins == old(ins)[d := old(ins[d])[i := sum]]
      ensures prog == old(prog) + [Add(old(ins[d][i]), sig, sum)]
    {
      var previous := ins[d][i];
      Unreference(previous);
      Reference(sig);
      var s := NewSignal();
      prog := prog + [Add(previous, sig, s)];
      Unreference(sig);
      Reference(s);
      ins := ins[d := ins[d][i := s]];
      sum := s;
    }

    /** Edge function used while a node is scheduled: counts the predecessor down and binds the
        output `sig` to the inlet, inserting an add where the inlet is bound already. */
    method DecPredIncRefcnt(ghost c: nat, e: Edge, sig: nat) returns (ghost sum: nat)
      requires Realizable(g, S(), c, e, sig)
      modifies this
      ensures Carries(g, e) && old(ins[e.dst][e.inlet]) != UNBOUND ==>
                Free(Reref(Unref(old(rc), old(ins[e.dst][e.inlet])), sig), sum)
      ensures S() == Realized(g, old(S()), c, e, sig, sum)
    {
      sum := 0;
      cnt := cnt[e.dst := cnt[e.dst] - 1];
      sent := sent[c := sent[c] + 1];
      if g.nin[e.dst] > 0 && !e.forcing {
        if ins[e.dst][e.inlet] != UNBOUND {
          sum := InsertAdd(e.dst, e.inlet, sig);
        } else {
          Reference(sig);
          ins := ins[e.dst := ins[e.dst][e.inlet := sig]];
        }
      }
    }

    method ScheduleNode(n: nat)
      requires Core(g, S(), {}, -1) && n < |g.edges| && cnt[n] == 0
      modifies this
      ensures Core(g, S(), {}, -1)
      ensures Unscheduled(cnt) == Unscheduled(old(cnt)) - {n}
      ensures Ready(cnt) <= Ready(old(cnt)) - {n} + Successors(g, n, |g.edges[n]|)
    {
      ghost var st := S();
      // unreference the inputs so that they can be reused by the outputs
      UnreferenceInputs(n);
      var outs := GenOutputs(n);
      var inputs := ins[n];
      var nins := seq(|inputs|, i requires 0 <= i < |inputs| => if inputs[i] >= 0 then inputs[i] else 0);
      prog := prog + [Put(n, nins, outs)];
      cnt := cnt[n := SCHEDULED];
      PutNode(g, st, S(), n, nins, outs);
      Schedule(st.cnt, n);
      ghost var pend := RealizeSuccessors(n, outs, Elems(outs));
      ghost var done := S();
      FreePending(outs, pend);
      FinishNode(g, done, S(), pend, n);
    }

    method RealizeSuccessors(n: nat, outs: seq<nat>, ghost pend: set<nat>) returns (ghost pend': set<nat>)
      requires Realizing(g, S(), pend, n, outs) && sent[n] == 0
      modifies this
      ensures Realizing(g, S(), pend', n, outs) && sent[n] == |g.edges[n]|
      ensures Unscheduled(cnt) == Unscheduled(old(cnt))
      ensures Ready(cnt) <= Ready(old(cnt)) + Successors(g, n, |g.edges[n]|)
    {
      pend' := pend;
      var k := 0;
      while k < |g.edges[n]|
        invariant Realizing(g, S(), pend', n, outs)
        invariant k == sent[n] <= |g.edges[n]|
        invariant Unscheduled(cnt) == Unscheduled(old(cnt))
        invariant Ready(cnt) <= Ready(old(cnt)) + Successors(g, n, k)
      {
        pend' := RealizeNext(n, k, outs, pend');
        SuccessorsStep(g, n, k);
        k := k + 1;
      }
    }

    method RealizeNext(n: nat, k: nat, outs: seq<nat>, ghost pend: set<nat>) returns (ghost pend': set<nat>)
      requires Realizing(g, S(), pend, n, outs) && k == sent[n] < |g.edges[n]|
      modifies this
      ensures Realizing(g, S(), pend', n, outs) && sent[n] == k + 1
      ensures Unscheduled(cnt) == Unscheduled(old(cnt)) && Ready(cnt) <= Ready(old(cnt)) + {g.edges[n][k].dst}
    {
      var e := g.edges[n][k];
      ghost var st := S();
      RealizingIsRealizable(g, st, pend, n, outs, k);
      ghost var sum := DecPredIncRefcnt(n, e, outs[e.outlet]);
      pend' := RealizeEdge(g, st, pend, n, outs, e, sum);
    }

    method UnreferenceInputs(n: nat)
      requires Core(g, S(), {}, -1) && n < |g.edges| && cnt[n] == 0
      modifies this`rc, this`ins
      ensures |rc| == |old(rc)| && |ins| == |old(ins)| && forall m :: 0 <= m < |ins| && m != n ==> ins[m] == old(ins[m])
      ensures |ins[n]| == g.nin[n]
      ensures forall i :: 0 <= i < g.nin[n] ==>
                ins[n][i] == if old(ins[n][i]) == UNBOUND then ZERO_SIGNAL else old(ins[n][i])
      ensures Pool(cnt[n := SCHEDULED], ins, rc, {})
    {
      hide Counts, Pool, Contents, Topological, Detaching;
      ghost var ins0 := ins;
      DetachStart(cnt, ins, rc, n);
      var i := 0;
      while i < g.nin[n]
        invariant i <= g.nin[n] && |ins| == |ins0| && |ins[n]| == g.nin[n] && |rc| == |old(rc)|
        invariant Detaching(cnt, ins0, ins, rc, n, i)
      {
        DetachStep(cnt, ins0, ins, rc, n, i);
        if ins[n][i] != UNBOUND {
          Unreference(ins[n][i]);
        } else {
          ins := ins[n := ins[n][i := ZERO_SIGNAL]];
        }
        i := i + 1;
      }
      DetachEnd(cnt, ins0, ins, rc, n);
    }

    /** `gen_outputs` for uniform signal lengths: one pending signal for every outlet. */
    method GenOutputs(n: nat) returns (outs: seq<nat>)
      requires |cnt| == |ins| && n < |cnt| && n < |g.nout| && Pool(cnt[n := SCHEDULED], ins, rc, {})
      modifies this`rc
      ensures |outs| == g.nout[n] && Distinct(outs) && |rc| >= |old(rc)|
      ensures forall o :: 0 <= o < |outs| ==> 1 <= outs[o] < |rc|
      ensures Pool(cnt[n := SCHEDULED], ins, rc, Elems(outs))
    {
      ghost var cnt' := cnt[n := SCHEDULED];
      outs := [];
      assert Elems(outs) == {};
      while |outs| < g.nout[n]
        invariant |outs| <= g.nout[n] && Distinct(outs) && |rc| >= |old(rc)|
        invariant forall o :: 0 <= o < |outs| ==> 1 <= outs[o] < |rc|
        invariant Pool(cnt', ins, rc, Elems(outs))
        decreases g.nout[n] - |outs|
      {
        ghost var rc0, outs0 := rc, outs;
        var s := NewSignal();
        PoolNew(cnt', ins, rc0, Elems(outs0), s);
        outs := outs + [s];
        assert Elems(outs) == Elems(outs0) + {s};
      }
    }

    /** Frees the outputs that ended up connected to nothing. */
    method FreePending(outs: seq<nat>, ghost pend: set<nat>)
      requires |cnt| == |ins| && Pool(cnt, ins, rc, pend)
      requires forall s :: s in pend ==> s in outs
      requires forall o :: 0 <= o < |outs| ==> outs[o] < |rc|
      modifies this`rc
      ensures Pool(cnt, ins, rc, {}) && |rc| == |old(rc)|
    {
      ghost var left := pend;
      var o := 0;
      while o < |outs|
        invariant o <= |outs| && |rc| == |old(rc)|
        invariant Pool(cnt, ins, rc, left)
        invariant forall s :: s in left ==> s in outs[o..]
      {
        if rc[outs[o]] == PENDING {
          PoolFree(cnt, ins, rc, left, outs[o]);
          rc := rc[outs[o] := 0];
          left := left - {outs[o]};
        }
        o := o + 1;
      }
      assert left == {};
    }

    method ScheduleDepth(n: nat)
      requires Core(g, S(), {}, -1) && n < |g.edges|
      modifies this
      ensures Core(g, S(), {}, -1)
      ensures Unscheduled(cnt) <= Unscheduled(old(cnt)) && Ready(cnt) <= Ready(old(cnt)) - {n}
      decreases Unscheduled(cnt), 1
    {
      if cnt[n] == 0 {
        Schedule(cnt, n);
        ScheduleNode(n);
        ScheduleSuccessors(n);
      }
    }

    method ScheduleSuccessors(n: nat)
      requires Core(g, S(), {}, -1) && n < |g.edges|
      modifies this
      ensures Core(g, S(), {}, -1)
      ensures Unscheduled(cnt) <= Unscheduled(old(cnt))
      ensures Ready(cnt) <= Ready(old(cnt)) - Successors(g, n, |g.edges[n]|)
      decreases Unscheduled(cnt), 2
    {
      assert Successors(g, n, 0) == {};
      assert Valid(g);
      hide Core, Ready, Unscheduled, Successors;
      var k := 0;
      while k < |g.edges[n]|
        invariant k <= |g.edges[n]|
        invariant Core(g, S(), {}, -1)
        invariant Unscheduled(cnt) <= Unscheduled(old(cnt))
        invariant Ready(cnt) <= Ready(old(cnt)) - Successors(g, n, k)
      {
        var d := g.edges[n][k].dst;
        assert EdgeValid(g, n, g.edges[n][k]);
        ghost var before := Ready(cnt);
        ScheduleDepth(d);
        SuccessorsStep(g, n, k);
        Removed(Ready(cnt), before, Ready(old(cnt)), Successors(g, n, k), d);
        k := k + 1;
      }
    }

    /** `fts_dsp_graph_compile`: leaves in `prog` the calls of one tick, and reports whether every node got in. */
    method Compile() returns (ok: bool)
      requires Valid(g)
      modifies this
      ensures Compiled(g, prog) && AllWithin(prog, |rc|)
      ensures ok <==> Acyclic(g)
    {
      Reinit();
      CountPredecessors();
      StartCore(g, S());
      ScheduleAll();
      FinishCompile(g, S());
      ok := CheckLoop();
      AcyclicIffAllIn(g, prog);
    }

    /** An empty chain, the zero signal, and every node untouched. */
    method Reinit()
      requires Valid(g)
      modifies this
      ensures |cnt| == |ins| == |sent| == |g.edges| && rc == [1] && prog == []
      ensures forall n: nat :: n < |g.edges| ==> cnt[n] == 0 && sent[n] == 0 && |ins[n]| == g.nin[n]
      ensures forall n: nat, i: nat :: n < |g.edges| && i < g.nin[n] ==> ins[n][i] == UNBOUND
    {
      rc, prog := [PENDING], [];
      Reference(ZERO_SIGNAL);
      cnt := seq(|g.edges|, _ => 0);
      var nin := g.nin;
      ins := seq(|nin|, n requires 0 <= n < |nin| => seq(nin[n], _ => UNBOUND));
      sent := seq(|g.edges|, _ => 0);
    }

    /** Schedules every node that has no predecessors, and what becomes ready behind it. */
    method ScheduleAll()
      requires Core(g, S(), {}, -1)
      modifies this
      ensures Core(g, S(), {}, -1) && Ready(cnt) == {}
    {
      hide Core, Ready;
      CoreShape(g, S(), {}, -1);
      var n := 0;
      while n < |g.edges|
        invariant n <= |g.edges| == |cnt|
        invariant Core(g, S(), {}, -1)
        invariant forall m: nat {:trigger m in Ready(cnt)} :: m < n ==> m !in Ready(cnt)
      {
        ReadyAt(cnt, n);
        if cnt[n] == 0 {
          ScheduleDepth(n);
        }
        CoreShape(g, S(), {}, -1);
        n := n + 1;
      }
      ReadyBelow(cnt);
    }

    method CountPredecessors()
      requires Valid(g) && |cnt| == |g.edges| && (forall n :: 0 <= n < |cnt| ==> cnt[n] == 0)
      modifies this`cnt
      ensures |cnt| == |g.edges|
      ensures forall n: nat :: n < |cnt| ==> cnt[n] == |EdgesInto(g, |g.edges|, 0, n)|
    {
      forall n: nat { EdgesIntoNone(g, n); }
      var m := 0;
      while m < |g.edges|
        invariant m <= |g.edges| && |cnt| == |g.edges|
        invariant forall n: nat :: n < |cnt| ==> cnt[n] == |EdgesInto(g, m, 0, n)|
      {
        var k := 0;
        while k < |g.edges[m]|
          invariant k <= |g.edges[m]| && |cnt| == |g.edges|
          invariant forall n: nat :: n < |cnt| ==> cnt[n] == |EdgesInto(g, m, k, n)|
        {
          var d := g.edges[m][k].dst;
          assert EdgeValid(g, m, g.edges[m][k]);
          forall n: nat { EdgesIntoStep(g, m, k, n); }
          cnt := cnt[d := cnt[d] + 1];
          k := k + 1;
        }
        forall n: nat { EdgesIntoRow(g, m, n); }
        m := m + 1;
      }
    }

    method CheckLoop() returns (ok: bool)
      requires Core(g, S(), {}, -1)
      ensures ok <==> forall n: nat :: n < |g.edges| ==> n in SymExec(prog).seen
    {
      ok := true;
      var n := 0;
      while n < |g.edges|
        invariant n <= |g.edges|
        invariant ok <==> forall m: nat :: m < n ==> m in SymExec(prog).seen
      {
        assert n in SymExec(prog).seen <==> cnt[n] == SCHEDULED;
        if cnt[n] != SCHEDULED {
          ok := false;
        }
        n := n + 1;
      }
    }
  }

  /** The edges into `n` among those of nodes `0..m` and the first `k` of node `m`. */
  ghost function EdgesInto(g: Graph, m: nat, k: nat, n: nat): set<(nat, nat)> {
    set a: nat, b: nat | a < |g.edges| && b < |g.edges[a]| && (a < m || (a == m && b < k)) && g.edges[a][b].dst == n ::
      (a, b)
  }

  lemma EdgesIntoNone(g: Graph, n: nat)
    ensures EdgesInto(g, 0, 0, n) == {}
  {
  }

  lemma EdgesIntoAt(g: Graph, m: nat, k: nat, n: nat, a: nat, b: nat)
    ensures (a, b) in EdgesInto(g, m, k, n) <==>
            a < |g.edges| && b < |g.edges[a]| && (a < m || (a == m && b < k)) && g.edges[a][b].dst == n
  {
  }

  lemma EdgesIntoStep(g: Graph, m: nat, k: nat, n: nat)
    requires m < |g.edges| && k < |g.edges[m]|
    ensures |EdgesInto(g, m, k + 1, n)| == |EdgesInto(g, m, k, n)| + if g.edges[m][k].dst == n then 1 else 0
  {
    var s, s' := EdgesInto(g, m, k, n), EdgesInto(g, m, k + 1, n);
    forall a: nat, b: nat ensures (a, b) in s' <==> (a, b) in s || (g.edges[m][k].dst == n && (a, b) == (m, k)) {
      EdgesIntoAt(g, m, k, n, a, b);
      EdgesIntoAt(g, m, k + 1, n, a, b);
    }
    EdgesIntoAt(g, m, k, n, m, k);
    assert s' == if g.edges[m][k].dst == n then s + {(m, k)} else s;
  }

  lemma EdgesIntoRow(g: Graph, m: nat, n: nat)
    requires m < |g.edges|
    ensures EdgesInto(g, m, |g.edges[m]|, n) == EdgesInto(g, m + 1, 0, n)
  {
    forall a: nat, b: nat
      ensures (a, b) in EdgesInto(g, m, |g.edges[m]|, n) <==> (a, b) in EdgesInto(g, m + 1, 0, n)
    {
      EdgesIntoAt(g, m, |g.edges[m]|, n, a, b);
      EdgesIntoAt(g, m + 1, 0, n, a, b);
    }
  }

  lemma EdgesIntoAll(g: Graph, sent: seq<nat>, n: nat)
    requires Progress(g, sent) && forall m :: 0 <= m < |sent| ==> sent[m] == 0
    ensures EdgesInto(g, |g.edges|, 0, n) == Waiting(g, sent, n)
  {
    forall a: nat, b: nat ensures (a, b) in EdgesInto(g, |g.edges|, 0, n) <==> (a, b) in Waiting(g, sent, n) {
      EdgesIntoAt(g, |g.edges|, 0, n, a, b);
      WaitingAt(g, sent, n, a, b);
    }
  }

  lemma StartCore(g: Graph, st: State)
    requires Valid(g) && |st.cnt| == |st.ins| == |st.sent| == |g.edges|
    requires forall n: nat :: n < |g.edges| ==>
               st.cnt[n] == |EdgesInto(g, |g.edges|, 0, n)| && st.sent[n] == 0 && |st.ins[n]| == g.nin[n]
    requires forall n: nat, i: nat :: n < |g.edges| && i < g.nin[n] ==> st.ins[n][i] == UNBOUND
    requires st.rc == [1] && st.prog == []
    ensures Core(g, st, {}, -1)
  {
    forall n: nat | n < |g.edges| ensures st.cnt[n] == |Waiting(g, st.sent, n)| {
      EdgesIntoAll(g, st.sent, n);
    }
  }

  // ---------------------------------------------------------------- what a compiled program is

  /** Some predecessor of `n` never ran. */
  ghost predicate Blocked(g: Graph, sy: Symbolic, n: nat) {
    exists m: nat :: m !in sy.seen && HasEdge(g, m, n)
  }

  /** The nodes put read what the graph asks for, in topological order; every node left out has a predecessor
      that is left out too. */
  ghost predicate Compiled(g: Graph, prog: seq<Instr>) {
    var sy := SymExec(prog);
    && Valid(g) && WellFormed(prog)
    && (forall n: nat :: n in sy.seen ==> n < |g.edges| && ReadsFanIn(g, sy, n))
    && Topological(g, PutNodes(prog))
    && (forall n: nat {:trigger Blocked(g, sy, n)} :: n < |g.edges| && n !in sy.seen ==> Blocked(g, sy, n))
  }

  lemma FinishCompile(g: Graph, st: State)
    requires Core(g, st, {}, -1) && Ready(st.cnt) == {}
    ensures Compiled(g, st.prog) && AllWithin(st.prog, |st.rc|)
  {
    var sy := SymExec(st.prog);
    forall n: nat | n < |g.edges| && n !in sy.seen ensures Blocked(g, sy, n) {
      assert n !in Ready(st.cnt);
      assert Waiting(g, st.sent, n) != {};
      var x :| x in Waiting(g, st.sent, n);
      WaitingAt(g, st.sent, n, x.0, x.1);
      assert HasEdge(g, x.0, n);
    }
  }

  // ---------------------------------------------------------------- loops

  /** A walk along the edges of the graph. */
  ghost predicate Walk(g: Graph, p: seq<nat>) {
    |p| >= 1 && (forall i :: 0 <= i < |p| ==> p[i] < |g.edges|) && forall i :: 0 <= i < |p| - 1 ==>
      HasEdge(g, p[i], p[i + 1])
  }

  ghost predicate Acyclic(g: Graph) {
    forall p :: Walk(g, p) && |p| > 1 ==> p[0] != p[|p| - 1]
  }

  /** Some walk first goes round a cycle and then ends at `n`. */
  ghost predicate OnOrBelowCycle(g: Graph, n: nat) {
    exists p, j :: Walk(g, p) && 0 < j < |p| && p[0] == p[j] && p[|p| - 1] == n
  }

  /** Along a walk that ends in a scheduled node, positions in the schedule only grow. */
  lemma {:induction false} WalkBackwards(g: Graph, order: seq<nat>, p: seq<nat>, q: nat)
    requires Topological(g, order) && Walk(g, p) && q < |order| && p[|p| - 1] == order[q]
    ensures forall i :: 0 <= i < |p| - 1 ==> p[i] in order[..q]
  {
    if |p| > 1 {
      var init := p[..|p| - 1];
      assert HasEdge(g, p[|p| - 2], p[|p| - 1]);
      assert p[|p| - 2] in order[..q];
      var r: nat :| r < q && order[r] == p[|p| - 2];
      WalkBackwards(g, order, init, r);
      forall i | 0 <= i < |p| - 1 ensures p[i] in order[..q] {
        if i < |p| - 2 {
          assert init[i] == p[i] && p[i] in order[..r];
        }
      }
    }
  }

  lemma CycleLeftOut(g: Graph, order: seq<nat>, p: seq<nat>, j: nat)
    requires Topological(g, order) && Walk(g, p) && 0 < j < |p| && p[0] == p[j]
    ensures p[|p| - 1] !in order
  {
    if p[|p| - 1] in order {
      var q: nat :| q < |order| && order[q] == p[|p| - 1];
      WalkBackwards(g, order, p, q);
      assert p[j] in order;
      var r: nat :| r < |order| && order[r] == p[j];
      var head := p[..j + 1];
      assert Walk(g, head) && head[0] == order[r];
      WalkBackwards(g, order, head, r);
    }
  }

  /** From a node that is left out one can walk backwards as far as one likes without leaving the left-out nodes. */
  lemma {:induction false} BackWalk(g: Graph, prog: seq<Instr>, n: nat, len: nat) returns (p: seq<nat>)
    requires Compiled(g, prog) && n < |g.edges| && n !in SymExec(prog).seen
    ensures Walk(g, p) && |p| == len + 1 && p[len] == n
    decreases len
  {
    if len == 0 {
      p := [n];
    } else {
      assert Blocked(g, SymExec(prog), n);
      var m: nat :| m !in SymExec(prog).seen && HasEdge(g, m, n);
      var p' := BackWalk(g, prog, m, len - 1);
      p := p' + [n];
      forall i | 0 <= i < |p| - 1 ensures HasEdge(g, p[i], p[i + 1]) {
        if i < |p'| - 1 {
          assert HasEdge(g, p'[i], p'[i + 1]);
        }
      }
    }
  }

  /** Pigeonhole. */
  lemma {:induction false} Repeats(p: seq<nat>, bound: nat)
    requires |p| > bound && forall i :: 0 <= i < |p| ==> p[i] < bound
    ensures !Distinct(p)
  {
    if Distinct(p) {
      var s := set i | 0 <= i < |p| :: p[i];
      ElementsCount(p);
      BelowCount(bound);
      SubsetSize(s, Below(bound));
    }
  }

  lemma {:induction false} ElementsCount(p: seq<nat>)
    requires Distinct(p)
    ensures |set i | 0 <= i < |p| :: p[i]| == |p|
  {
    if p != [] {
      var init := p[..|p| - 1];
      ElementsCount(init);
      var s, t := set i | 0 <= i < |p| :: p[i], set i | 0 <= i < |init| :: init[i];
      var last := p[|p| - 1];
      forall x ensures x in s <==> x in t + {last} {
        if x in t {
          var i :| 0 <= i < |init| && init[i] == x;
          assert p[i] == x;
        }
        if x in s && x != last {
          var i :| 0 <= i < |p| && p[i] == x;
          assert init[i] == x;
        }
      }
      assert s == t + {last};
      forall i | 0 <= i < |init| ensures init[i] != last {
        assert p[i] != p[|p| - 1];
      }
    }
  }

  /** A node is left unscheduled exactly when it lies on a cycle or downstream of one. */
  lemma LeftOutIffCycle(g: Graph, prog: seq<Instr>, n: nat)
    requires Compiled(g, prog) && n < |g.edges|
    ensures n !in SymExec(prog).seen <==> OnOrBelowCycle(g, n)
  {
    hide ReadsFanIn, Topological, SymExec, WellFormed, PutNodes;
    PutNodesSeen(prog);
    if OnOrBelowCycle(g, n) {
      var p, j :| Walk(g, p) && 0 < j < |p| && p[0] == p[j] && p[|p| - 1] == n;
      CycleLeftOut(g, PutNodes(prog), p, j);
    }
    if n !in SymExec(prog).seen {
      var p := BackWalk(g, prog, n, |g.edges|);
      Repeats(p, |g.edges|);
      var i, j :| 0 <= i < j < |p| && p[i] == p[j];
      var q := p[i..];
      assert Walk(g, q) && q[0] == q[j - i] && q[|q| - 1] == n;
    }
  }

  lemma AcyclicIffAllIn(g: Graph, prog: seq<Instr>)
    requires Compiled(g, prog)
    ensures Acyclic(g) <==> forall n: nat :: n < |g.edges| ==> n in SymExec(prog).seen
  {
    if !Acyclic(g) {
      var p :| Walk(g, p) && |p| > 1 && p[0] == p[|p| - 1];
      LeftOutIffCycle(g, prog, p[|p| - 1]);
    }
    if n: nat :| n < |g.edges| && n !in SymExec(prog).seen {
      LeftOutIffCycle(g, prog, n);
      var p, j :| Walk(g, p) && 0 < j < |p| && p[0] == p[j] && p[|p| - 1] == n;
      assert Walk(g, p[..j + 1]);
    }
  }

  lemma PoolNew(cnt: seq<int>, ins: seq<seq<int>>, rc: seq<int>, pend: set<nat>, s: nat)
    requires |cnt| == |ins| && Pool(cnt, ins, rc, pend) && Free(rc, s)
    ensures Pool(cnt, ins, Alloc(rc, s), pend + {s}) && s !in pend
  {
    if s == |rc| {
      NoRefs(cnt, ins, rc, pend, s);
    }
  }
}
