/** How the DSP graph finds the successors of a node: an iterator over the connections of an outlet that looks
    through "thru" objects with an explicit stack. */
module DspTraversal {
  import opened DspGraph
  import opened Sets

  datatype Link = Link(dst: nat, inlet: nat)

  /** An object and one of its outlets. */
  datatype Port = Port(obj: nat, outlet: nat)

  /** The patch as the iterator sees it.  `links` gives the connections of an outlet, `thru` says which objects answer
      the propagate message and `targets` what they answer. */
  datatype Net = Net(size: nat, degree: nat, links: Port -> seq<Link>, thru: nat -> bool, targets: Link -> seq<Port>)

  /** There are finitely many objects and every outlet has finitely many connections. */
  ghost predicate NetValid(net: Net) {
    && (forall p :: |net.links(p)| <= net.degree)
    && (forall p, l :: l in net.links(p) ==> l.dst < net.size)
    && (forall l, t :: t in net.targets(l) ==> t.obj < net.size)
  }

  /** A stack element: an object and its connections that are not visited yet. */
  datatype Frame = Frame(obj: nat, rest: seq<Link>)

  predicate OnStack(stack: seq<Frame>, obj: nat) {
    exists i :: 0 <= i < |stack| && stack[i].obj == obj
  }

  /** The stack (top last) holds pairwise distinct objects. */
  ghost predicate StackValid(net: Net, stack: seq<Frame>) {
    && (forall i :: 0 <= i < |stack| ==> stack[i].obj < net.size && |stack[i].rest| <= net.degree)
    && (forall i, j :: 0 <= i < j < |stack| ==> stack[i].obj != stack[j].obj)
  }

  function Push(net: Net, stack: seq<Frame>, p: Port): seq<Frame> {
    if OnStack(stack, p.obj) then stack else stack + [Frame(p.obj, net.links(p))]
  }

  function PushAll(net: Net, stack: seq<Frame>, ps: seq<Port>): seq<Frame>
    decreases |ps|
  {
    if ps == [] then stack else PushAll(net, Push(net, stack, ps[0]), ps[1..])
  }

  /** Moves the top element past its current connection. */
  function Skip(stack: seq<Frame>): seq<Frame>
    requires stack != [] && stack[|stack| - 1].rest != []
  {
    var top := stack[|stack| - 1];
    stack[..|stack| - 1] + [Frame(top.obj, top.rest[1..])]
  }

  // ---------------------------------------------------------------- termination

  function Pow(b: nat, e: nat): (r: nat)
    ensures b > 0 ==> r > 0
  {
    if e == 0 then 1 else b * Pow(b, e - 1)
  }

  /** The remaining connections from the bottom of the stack to its top, as the digits of one number. */
  function Weight(b: nat, stack: seq<Frame>, room: nat): nat
    requires |stack| <= room
  {
    if stack == [] then 0 else (|stack[0].rest| + 1) * Pow(b, room) + Weight(b, stack[1..], room - 1)
  }

  lemma {:induction false} WeightBelow(b: nat, stack: seq<Frame>, room: nat)
    requires |stack| <= room && forall i :: 0 <= i < |stack| ==> |stack[i].rest| + 2 <= b
    ensures stack != [] ==> Weight(b, stack, room) < Pow(b, room + 1)
  {
    if stack != [] {
      var p := Pow(b, room);
      assert |stack[0].rest| + 2 <= b && p > 0;
      if |stack| == 1 {
        assert Weight(b, stack[1..], room - 1) == 0;
      } else {
        var rest := stack[1..];
        assert forall i :: 0 <= i < |rest| ==> rest[i] == stack[i + 1];
        WeightBelow(b, rest, room - 1);
        assert rest != [] && Pow(b, (room - 1) + 1) == p;
      }
      assert Weight(b, stack[1..], room - 1) < p;
      assert (|stack[0].rest| + 1) * p + p == (|stack[0].rest| + 2) * p <= b * p by {
        MulMono(|stack[0].rest| + 2, b, p);
      }
    }
  }

  lemma MulMono(x: nat, y: nat, z: nat)
    requires x <= y
    ensures x * z <= y * z
  {
    assert y * z == x * z + (y - x) * z;
  }

  /** Using up a connection outweighs anything pushed above it. */
  lemma {:induction false} WeightDrops(b: nat, low: seq<Frame>, f: Frame, f': Frame, high: seq<Frame>, room: nat)
    requires |low| + 1 + |high| <= room && |f'.rest| < |f.rest|
    requires forall i :: 0 <= i < |high| ==> |high[i].rest| + 2 <= b
    requires b > 0
    ensures Weight(b, low + [f'] + high, room) < Weight(b, low + [f], room)
  {
    var s', s := low + [f'] + high, low + [f];
    if low == [] {
      assert s'[1..] == high && s[1..] == [];
      if high != [] {
        WeightBelow(b, high, room - 1);
      }
      var p := Pow(b, room);
      assert (|f'.rest| + 1) * p + p == (|f'.rest| + 2) * p <= (|f.rest| + 1) * p by {
        MulMono(|f'.rest| + 2, |f.rest| + 1, p);
      }
    } else {
      assert s'[1..] == low[1..] + [f'] + high && s[1..] == low[1..] + [f];
      WeightDrops(b, low[1..], f, f', high, room - 1);
    }
  }

  lemma {:induction false} WeightPops(b: nat, low: seq<Frame>, f: Frame, room: nat)
    requires |low| + 1 <= room && b > 0
    ensures Weight(b, low, room) < Weight(b, low + [f], room)
  {
    if low != [] {
      assert (low + [f])[1..] == low[1..] + [f];
      WeightPops(b, low[1..], f, room - 1);
    } else {
      assert Weight(b, (low + [f])[1..], room - 1) == 0;
      MulMono(1, |f.rest| + 1, Pow(b, room));
    }
  }

  /** Distinct objects fit into the patch. */
  lemma StackFits(net: Net, stack: seq<Frame>)
    requires StackValid(net, stack)
    ensures |stack| <= net.size
  {
    var objs := seq(|stack|, i requires 0 <= i < |stack| => stack[i].obj);
    if |stack| > net.size {
      Repeats(objs, net.size);
    }
  }

  ghost function Measure(net: Net, stack: seq<Frame>): nat
    requires StackValid(net, stack)
  {
    StackFits(net, stack);
    Weight(net.degree + 2, stack, net.size)
  }

  lemma {:induction false} PushAllGrows(net: Net, stack: seq<Frame>, ps: seq<Port>)
    requires NetValid(net) && StackValid(net, stack) && forall t :: t in ps ==> t.obj < net.size
    ensures StackValid(net, PushAll(net, stack, ps)) && stack <= PushAll(net, stack, ps)
    ensures forall i :: 0 <= i < |ps| ==> OnStack(PushAll(net, stack, ps), ps[i].obj)
    ensures forall i :: |stack| <= i < |PushAll(net, stack, ps)| ==>
              exists p :: p in ps && PushAll(net, stack, ps)[i] == Frame(p.obj, net.links(p))
    decreases |ps|
  {
    if ps != [] {
      var s := Push(net, stack, ps[0]);
      PushAllGrows(net, s, ps[1..]);
      var t := PushAll(net, stack, ps);
      assert OnStack(s, ps[0].obj) by {
        if !OnStack(stack, ps[0].obj) { assert s[|stack|].obj == ps[0].obj; }
      }
      forall i | 0 <= i < |ps| ensures OnStack(t, ps[i].obj) {
        if i == 0 {
          var j :| 0 <= j < |s| && s[j].obj == ps[0].obj;
          assert t[j] == s[j];
        } else {
          assert ps[i] == ps[1..][i - 1];
        }
      }
      forall i | |stack| <= i < |t| ensures exists p :: p in ps && t[i] == Frame(p.obj, net.links(p)) {
        if i < |s| {
          assert t[i] == s[i] == Frame(ps[0].obj, net.links(ps[0]));
        } else {
          var p :| p in ps[1..] && t[i] == Frame(p.obj, net.links(p));
          assert p in ps;
        }
      }
    }
  }

  lemma SuffixBound(net: Net, stack: seq<Frame>, k: nat)
    requires StackValid(net, stack) && k <= |stack|
    ensures forall i :: 0 <= i < |stack[k..]| ==> |stack[k..][i].rest| + 2 <= net.degree + 2
  {
  }

  lemma PopDecreases(net: Net, stack: seq<Frame>)
    requires StackValid(net, stack) && stack != []
    ensures StackValid(net, stack[..|stack| - 1]) && Measure(net, stack[..|stack| - 1]) < Measure(net, stack)
  {
    var low, top := stack[..|stack| - 1], stack[|stack| - 1];
    assert stack == low + [top];
    StackFits(net, stack);
    WeightPops(net.degree + 2, low, top, net.size);
  }

  /** Looking through a thru object makes the measure smaller, however much is pushed. */
  lemma SkipDecreases(net: Net, stack: seq<Frame>, ps: seq<Port>)
    requires NetValid(net) && StackValid(net, stack) && stack != [] && stack[|stack| - 1].rest != []
    requires forall t :: t in ps ==> t.obj < net.size
    ensures StackValid(net, PushAll(net, Skip(stack), ps))
            && Measure(net, PushAll(net, Skip(stack), ps)) < Measure(net, stack)
  {
    var low, top := stack[..|stack| - 1], stack[|stack| - 1];
    var s, f := Skip(stack), Frame(top.obj, top.rest[1..]);
    assert StackValid(net, s);
    var t := PushAll(net, s, ps);
    assert StackValid(net, t) && s <= t by { PushAllGrows(net, s, ps); }
    MeasureDrops(net, stack, t, f);
  }

  lemma MeasureDrops(net: Net, stack: seq<Frame>, t: seq<Frame>, f: Frame)
    requires StackValid(net, stack) && StackValid(net, t) && stack != []
    requires stack[..|stack| - 1] + [f] <= t && |f.rest| < |stack[|stack| - 1].rest|
    ensures Measure(net, t) < Measure(net, stack)
  {
    var low, top, high := stack[..|stack| - 1], stack[|stack| - 1], t[|stack|..];
    assert stack == low + [top] && t == low + [f] + high;
    StackFits(net, stack);
    StackFits(net, t);
    SuffixBound(net, t, |stack|);
    WeightDrops(net.degree + 2, low, top, f, high, net.size);
  }

  // ---------------------------------------------------------------- what the iterator yields

  /** The state after the top connection has been handled: skipped, or replaced by what lies behind it. */
  function Advance(net: Net, stack: seq<Frame>): seq<Frame>
    requires stack != []
  {
    var top := stack[|stack| - 1];
    if top.rest == [] then stack[..|stack| - 1]
    else PushAll(net, Skip(stack), Behind(net, top.rest[0]))
  }

  /** What the iterator pushes in place of connection `l`. */
  function Behind(net: Net, l: Link): seq<Port> {
    if net.thru(l.dst) then net.targets(l) else []
  }

  lemma AdvanceDecreases(net: Net, stack: seq<Frame>)
    requires NetValid(net) && StackValid(net, stack) && stack != []
    ensures StackValid(net, Advance(net, stack)) && Measure(net, Advance(net, stack)) < Measure(net, stack)
  {
    var top := stack[|stack| - 1];
    if top.rest == [] {
      PopDecreases(net, stack);
    } else {
      SkipDecreases(net, stack, Behind(net, top.rest[0]));
    }
  }

  /** The connections still to come from a given stack: those to ordinary objects, thru objects being replaced by
      what lies behind them. */
  ghost function Yields(net: Net, stack: seq<Frame>): seq<Link>
    requires NetValid(net) && StackValid(net, stack)
    decreases Measure(net, stack)
  {
    if stack == [] then []
    else
      var top := stack[|stack| - 1];
      AdvanceDecreases(net, stack);
      (if top.rest == [] || net.thru(top.rest[0].dst) then [] else [top.rest[0]]) + Yields(net, Advance(net, stack))
  }

  // ---------------------------------------------------------------- walks

  /** A way to an ordinary object: each step takes a connection of the port it is at, and enters one of the ports that
      the destination of that connection answers; `last` is the connection `link` at the end. */
  datatype Walk = Walk(steps: seq<(nat, nat)>, last: nat, link: Link)

  function Objs(ps: seq<Port>): set<nat> {
    set p | p in ps :: p.obj
  }

  function Held(stack: seq<Frame>): set<nat> {
    set f | f in stack :: f.obj
  }

  function Links(ws: seq<Walk>): (ls: seq<Link>)
    ensures |ls| == |ws|
  {
    seq(|ws|, i requires 0 <= i < |ws| => ws[i].link)
  }

  function Entering(step: (nat, nat), w: Walk): Walk {
    w.(steps := [step] + w.steps)
  }

  function EnteringAll(step: (nat, nat), ws: seq<Walk>): (r: seq<Walk>)
    ensures |r| == |ws|
  {
    seq(|ws|, i requires 0 <= i < |ws| => Entering(step, ws[i]))
  }

  lemma FewerLeft(size: nat, held: set<nat>, ts: seq<Port>, n: nat)
    requires 0 < n <= |ts| && ts[n - 1].obj < size && ts[n - 1].obj !in held
    ensures Below(size) - (held + Objs(ts[..n])) < Below(size) - held
  {
    assert ts[n - 1] in ts[..n];
    assert ts[n - 1].obj in Below(size) - held;
  }

  /** The walks of the iterator that is at connection `a` of port `p`, in order, when the objects in `held` are on the
      stack. */
  ghost function Walks(net: Net, held: set<nat>, p: Port, a: nat): seq<Walk>
    requires NetValid(net) && a <= |net.links(p)|
    decreases Below(net.size) - held, |net.links(p)| - a, 1, 0
  {
    if a == |net.links(p)| then []
    else
      var l := net.links(p)[a];
      (if net.thru(l.dst) then Into(net, held, p, a, |net.targets(l)|) else [Walk([], a, l)])
      + Walks(net, held, p, a + 1)
  }

  /** The walks through the first `n` ports of the answer: the last one is entered first, while the ones before it
      wait on the stack. */
  ghost function Into(net: Net, held: set<nat>, p: Port, a: nat, n: nat): seq<Walk>
    requires NetValid(net) && a < |net.links(p)| && n <= |net.targets(net.links(p)[a])|
    decreases Below(net.size) - held, |net.links(p)| - a, 0, n
  {
    if n == 0 then []
    else
      var ts := net.targets(net.links(p)[a]);
      var q := ts[n - 1];
      (if q.obj in held + Objs(ts[..n - 1]) then []
       else (FewerLeft(net.size, held, ts, n); EnteringAll((a, n - 1), Walks(net, held + Objs(ts[..n]), q, 0))))
      + Into(net, held, p, a, n - 1)
  }

  /** The walk enters no object that is on the stack, nor one that waits there to be entered after it. */
  ghost predicate Admitted(net: Net, held: set<nat>, p: Port, w: Walk)
    decreases |w.steps|
  {
    var ls := net.links(p);
    if w.steps == [] then w.last < |ls| && ls[w.last] == w.link && !net.thru(w.link.dst)
    else
      var (a, i) := w.steps[0];
      && a < |ls| && net.thru(ls[a].dst) && i < |net.targets(ls[a])|
      && var ts := net.targets(ls[a]);
         && ts[i].obj !in held + Objs(ts[..i])
         && Admitted(net, held + Objs(ts[..i + 1]), ts[i], w.(steps := w.steps[1..]))
  }

  function First(w: Walk): nat {
    if w.steps == [] then w.last else w.steps[0].0
  }

  predicate Distinct(ws: seq<Walk>) {
    forall i, j :: 0 <= i < j < |ws| ==> ws[i] != ws[j]
  }

  lemma DistinctJoin(a: seq<Walk>, b: seq<Walk>)
    requires Distinct(a) && Distinct(b) && forall w :: w in a ==> w !in b
    ensures Distinct(a + b)
  {
    forall i, j | 0 <= i < j < |a + b| ensures (a + b)[i] != (a + b)[j] {
      if i < |a| <= j {
        assert a[i] in a && b[j - |a|] in b;
      }
    }
  }

  /** What an admitted walk starts with. */
  lemma AdmittedFirst(net: Net, held: set<nat>, p: Port, w: Walk)
    requires Admitted(net, held, p, w)
    ensures First(w) < |net.links(p)|
    ensures var l := net.links(p)[First(w)];
            if net.thru(l.dst) then w.steps != [] && w.steps[0].1 < |net.targets(l)| else w == Walk([], First(w), l)
  {
  }

  lemma {:induction false} WalksAdmitted(net: Net, held: set<nat>, p: Port, a: nat)
    requires NetValid(net) && a <= |net.links(p)|
    ensures forall w :: w in Walks(net, held, p, a) <==> Admitted(net, held, p, w) && First(w) >= a
    ensures Distinct(Walks(net, held, p, a))
    decreases Below(net.size) - held, |net.links(p)| - a, 1, 0
  {
    if a < |net.links(p)| {
      var l, rest := net.links(p)[a], Walks(net, held, p, a + 1);
      var first := if net.thru(l.dst) then Into(net, held, p, a, |net.targets(l)|) else [Walk([], a, l)];
      assert Walks(net, held, p, a) == first + rest;
      WalksAdmitted(net, held, p, a + 1);
      FirstWalks(net, held, p, a, first);
      DistinctJoin(first, rest);
    } else {
      forall w | Admitted(net, held, p, w) ensures First(w) < a { AdmittedFirst(net, held, p, w); }
    }
  }

  lemma {:induction false} FirstWalks(net: Net, held: set<nat>, p: Port, a: nat, first: seq<Walk>)
    requires NetValid(net) && a < |net.links(p)|
    requires var l := net.links(p)[a];
             first == if net.thru(l.dst) then Into(net, held, p, a, |net.targets(l)|) else [Walk([], a, l)]
    ensures forall w :: w in first <==> Admitted(net, held, p, w) && First(w) == a
    ensures Distinct(first)
    decreases Below(net.size) - held, |net.links(p)| - a, 0, |net.targets(net.links(p)[a])| + 1
  {
    var l := net.links(p)[a];
    if net.thru(l.dst) {
      IntoAdmitted(net, held, p, a, |net.targets(l)|);
    }
    hide Into;
    forall w ensures w in first <==> Admitted(net, held, p, w) && First(w) == a {
      if Admitted(net, held, p, w) { AdmittedFirst(net, held, p, w); }
    }
  }

  lemma AdmittedEnters(net: Net, held: set<nat>, p: Port, a: nat, i: nat, w: Walk)
    requires a < |net.links(p)| && net.thru(net.links(p)[a].dst) && i < |net.targets(net.links(p)[a])|
    requires w.steps != [] && w.steps[0] == (a, i)
    ensures var ts := net.targets(net.links(p)[a]);
            Admitted(net, held, p, w) <==>
              ts[i].obj !in held + Objs(ts[..i]) &&
              Admitted(net, held + Objs(ts[..i + 1]), ts[i], w.(steps := w.steps[1..]))
  {
  }

  lemma {:induction false} IntoAdmitted(net: Net, held: set<nat>, p: Port, a: nat, n: nat)
    requires NetValid(net) && a < |net.links(p)| && net.thru(net.links(p)[a].dst)
    requires n <= |net.targets(net.links(p)[a])|
    ensures forall w :: w in Into(net, held, p, a, n) <==>
              Admitted(net, held, p, w) && w.steps != [] && w.steps[0].0 == a && w.steps[0].1 < n
    ensures Distinct(Into(net, held, p, a, n))
    decreases Below(net.size) - held, |net.links(p)| - a, 0, n
  {
    hide Admitted, Distinct, Walks, EnteringAll, Links, Objs, NetValid, First;
    if n > 0 {
      var ts := net.targets(net.links(p)[a]);
      var q, rest, held' := ts[n - 1], Into(net, held, p, a, n - 1), held + Objs(ts[..n]);
      IntoAdmitted(net, held, p, a, n - 1);
      if q.obj !in held + Objs(ts[..n - 1]) {
        TargetOk(net, net.links(p)[a], n - 1);
        FewerLeft(net.size, held, ts, n);
        var inner := Walks(net, held', q, 0);
        var last := EnteringAll((a, n - 1), inner);
        WalksAdmitted(net, held', q, 0);
        EnteringAllIs((a, n - 1), inner);
        DistinctJoin(last, rest);
        assert Into(net, held, p, a, n) == last + rest;
      } else {
        assert Into(net, held, p, a, n) == [] + rest == rest;
      }
      forall w: Walk | w.steps != [] && w.steps[0] == (a, n - 1)
        ensures w in Into(net, held, p, a, n) <==> Admitted(net, held, p, w)
      {
        AdmittedEnters(net, held, p, a, n - 1, w);
      }
    } else {
      NoneDistinct();
    }
  }

  lemma NoneDistinct()
    ensures Distinct([])
  {
  }

  lemma EnteringAllIs(step: (nat, nat), ws: seq<Walk>)
    ensures forall w :: w in EnteringAll(step, ws) <==>
              w.steps != [] && w.steps[0] == step && w.(steps := w.steps[1..]) in ws
    ensures Distinct(ws) ==> Distinct(EnteringAll(step, ws))
    ensures Links(EnteringAll(step, ws)) == Links(ws)
  {
    var r := EnteringAll(step, ws);
    forall i | 0 <= i < |ws| ensures r[i].(steps := r[i].steps[1..]) == ws[i] {
      assert r[i].steps[1..] == ws[i].steps;
    }
    forall w: Walk | w.steps != [] && w.steps[0] == step && w.(steps := w.steps[1..]) in ws ensures w in r {
      var i :| 0 <= i < |ws| && ws[i] == w.(steps := w.steps[1..]);
      assert r[i].steps == w.steps;
      assert r[i] == w;
    }
    assert forall i, j :: 0 <= i < j < |r| && r[i] == r[j] ==> ws[i] == ws[j];
  }

  // ---------------------------------------------------------------- the iterator takes exactly the admitted walks

  lemma {:induction false} PushAllSnoc(net: Net, stack: seq<Frame>, ps: seq<Port>, q: Port)
    ensures PushAll(net, stack, ps + [q]) == Push(net, PushAll(net, stack, ps), q)
    decreases |ps|
  {
    if ps == [] {
      assert [q][1..] == [] && [] + [q] == [q];
      assert PushAll(net, Push(net, stack, q), []) == Push(net, stack, q);
    } else {
      assert (ps + [q])[1..] == ps[1..] + [q];
      PushAllSnoc(net, Push(net, stack, ps[0]), ps[1..], q);
    }
  }

  lemma OnStackHeld(stack: seq<Frame>, obj: nat)
    ensures OnStack(stack, obj) <==> obj in Held(stack)
  {
    if OnStack(stack, obj) {
      var i :| 0 <= i < |stack| && stack[i].obj == obj;
      assert stack[i] in stack;
    }
  }

  lemma HeldPush(stack: seq<Frame>, f: Frame)
    ensures Held(stack + [f]) == Held(stack) + {f.obj}
  {
    assert f in stack + [f];
    assert forall g :: g in stack + [f] <==> g in stack || g == f;
  }

  lemma ObjsSnoc(ts: seq<Port>, n: nat)
    requires 0 < n <= |ts|
    ensures Objs(ts[..n]) == Objs(ts[..n - 1]) + {ts[n - 1].obj} && ts[..n] == ts[..n - 1] + [ts[n - 1]]
  {
    assert ts[..n] == ts[..n - 1] + [ts[n - 1]];
    assert ts[n - 1] in ts[..n];
    assert forall g :: g in ts[..n] <==> g in ts[..n - 1] || g == ts[n - 1];
  }

  lemma WalksStep(net: Net, held: set<nat>, p: Port, a: nat)
    requires NetValid(net) && a <= |net.links(p)|
    ensures Walks(net, held, p, a) ==
            if a == |net.links(p)| then []
            else
              var l := net.links(p)[a];
              (if net.thru(l.dst) then Into(net, held, p, a, |net.targets(l)|) else [Walk([], a, l)])
              + Walks(net, held, p, a + 1)
  {
  }

  lemma LinksJoin(a: seq<Walk>, b: seq<Walk>)
    ensures Links(a + b) == Links(a) + Links(b)
    ensures forall p, k, l :: Links([Walk(p, k, l)]) == [l]
  {
  }

  lemma Regroup(a: seq<Link>, b: seq<Link>, c: seq<Link>)
    ensures (a + b) + c == a + (b + c) && [] + c == c
  {
  }

  /** What is yielded from a stack: the walks from its top frame, and then what the frames below yield. */
  lemma {:induction false} WalksYield(net: Net, low: seq<Frame>, p: Port, a: nat, stack: seq<Frame>)
    requires NetValid(net) && a <= |net.links(p)| && stack == low + [Frame(p.obj, net.links(p)[a..])]
    requires StackValid(net, stack) && StackValid(net, low)
    ensures Yields(net, stack) == Links(Walks(net, Held(stack), p, a)) + Yields(net, low)
    decreases Below(net.size) - Held(stack), |net.links(p)| - a, 1, 0
  {
    hide Walks, Into, Links, Held, StackValid, NetValid, PushAll, Measure;
    var held, rest := Held(stack), net.links(p)[a..];
    WalksStep(net, held, p, a);
    YieldsAdvance(net, stack);
    if a == |net.links(p)| {
      assert stack[..|stack| - 1] == low;
      assert Links([]) + Yields(net, low) == Yields(net, low);
    } else {
      var l, next := net.links(p)[a], low + [Frame(p.obj, net.links(p)[a + 1..])];
      assert rest[0] == l && rest[1..] == net.links(p)[a + 1..];
      assert Skip(stack) == next;
      SkipValid(net, stack);
      HeldPush(low, Frame(p.obj, rest));
      HeldPush(low, Frame(p.obj, rest[1..]));
      WalksYield(net, low, p, a + 1, next);
      var others := Walks(net, held, p, a + 1);
      if net.thru(l.dst) {
        var ts := net.targets(l);
        IntoYield(net, next, p, a, |ts|);
        assert ts[..|ts|] == ts;
        LinksJoin(Into(net, held, p, a, |ts|), others);
        Regroup(Links(Into(net, held, p, a, |ts|)), Links(others), Yields(net, low));
      } else {
        PushNone(net, next);
        LinksJoin([Walk([], a, l)], others);
        Regroup([l], Links(others), Yields(net, low));
      }
    }
  }

  lemma PushNone(net: Net, stack: seq<Frame>)
    ensures PushAll(net, stack, []) == stack
  {
  }

  lemma SkipValid(net: Net, stack: seq<Frame>)
    requires StackValid(net, stack) && stack != [] && stack[|stack| - 1].rest != []
    ensures StackValid(net, Skip(stack))
  {
  }

  lemma YieldsAdvance(net: Net, stack: seq<Frame>)
    requires NetValid(net) && StackValid(net, stack) && stack != []
    ensures StackValid(net, Advance(net, stack))
    ensures var top := stack[|stack| - 1];
            Yields(net, stack) ==
            (if top.rest == [] || net.thru(top.rest[0].dst) then [] else [top.rest[0]])
            + Yields(net, Advance(net, stack))
  {
    AdvanceDecreases(net, stack);
  }

  lemma {:induction false} IntoYield(net: Net, stack: seq<Frame>, p: Port, a: nat, n: nat)
    requires NetValid(net) && a < |net.links(p)| && n <= |net.targets(net.links(p)[a])| && StackValid(net, stack)
    ensures var s := PushAll(net, stack, net.targets(net.links(p)[a])[..n]);
            && StackValid(net, s) && Held(s) == Held(stack) + Objs(net.targets(net.links(p)[a])[..n])
            && Yields(net, s) == Links(Into(net, Held(stack), p, a, n)) + Yields(net, stack)
    decreases Below(net.size) - Held(stack), |net.links(p)| - a, 0, n
  {
    hide Walks, Links, Held, StackValid, NetValid, PushAll, Measure, Yields, Objs, OnStack, EnteringAll;
    var ts, held := net.targets(net.links(p)[a]), Held(stack);
    if n == 0 {
      assert ts[..0] == [];
      PushNone(net, stack);
      NoneBehind();
      assert Links([]) + Yields(net, stack) == Yields(net, stack);
      assert Held(stack) + {} == Held(stack);
    } else {
      var q, s, rest := ts[n - 1], PushAll(net, stack, ts[..n - 1]), Into(net, held, p, a, n - 1);
      IntoYield(net, stack, p, a, n - 1);
      ObjsSnoc(ts, n);
      PushAllSnoc(net, stack, ts[..n - 1], q);
      OnStackHeld(s, q.obj);
      if q.obj in Held(s) {
        assert [] + rest == rest;
        assert Held(s) + {q.obj} == Held(s);
      } else {
        var f := Frame(q.obj, net.links(q));
        HeldPush(s, f);
        TargetOk(net, net.links(p)[a], n - 1);
        PushValid(net, s, f);
        FewerLeft(net.size, held, ts, n);
        assert net.links(q)[0..] == net.links(q);
        assert Held(s + [f]) == held + Objs(ts[..n]);
        WalksYield(net, s, q, 0, s + [f]);
        var inner := Walks(net, Held(s + [f]), q, 0);
        EnteringAllIs((a, n - 1), inner);
        LinksJoin(EnteringAll((a, n - 1), inner), rest);
        Regroup(Links(inner), Links(rest), Yields(net, stack));
      }
    }
  }

  lemma NoneBehind()
    ensures Objs([]) == {} && Links([]) == []
  {
  }

  lemma TargetOk(net: Net, l: Link, i: nat)
    requires NetValid(net) && i < |net.targets(l)|
    ensures net.targets(l)[i].obj < net.size && |net.links(net.targets(l)[i])| <= net.degree
  {
    assert net.targets(l)[i] in net.targets(l);
  }

  lemma PushValid(net: Net, stack: seq<Frame>, f: Frame)
    requires StackValid(net, stack) && f.obj !in Held(stack) && f.obj < net.size && |f.rest| <= net.degree
    ensures StackValid(net, stack + [f])
  {
    forall i | 0 <= i < |stack| ensures stack[i].obj != f.obj {
      assert stack[i] in stack;
    }
  }

  /** The iterator on outlet `start` yields the connections at the ends of the admitted walks, one for each walk: on any
      network, whatever thru objects answer. */
  lemma YieldsAreWalks(net: Net, start: Port)
    requires NetValid(net) && start.obj < net.size
    ensures StackValid(net, Push(net, [], start))
    ensures var ws := Walks(net, {start.obj}, start, 0);
            && Yields(net, Push(net, [], start)) == Links(ws) && Distinct(ws)
            && forall w :: w in ws <==> Admitted(net, {start.obj}, start, w)
  {
    var f := Frame(start.obj, net.links(start));
    assert net.links(start)[0..] == net.links(start);
    assert Push(net, [], start) == [] + [f];
    HeldPush([], f);
    assert Held([]) == {} && Held([f]) == {start.obj};
    WalksYield(net, [], start, 0, [f]);
    WalksAdmitted(net, {start.obj}, start, 0);
    assert Links(Walks(net, {start.obj}, start, 0)) + [] == Links(Walks(net, {start.obj}, start, 0));
  }

  /** The admitted walks that end with connection `l`. */
  ghost function Arrivals(net: Net, start: Port, l: Link): set<Walk>
    requires NetValid(net)
  {
    EndingIn(Walks(net, {start.obj}, start, 0), l)
  }

  ghost function EndingIn(ws: seq<Walk>, l: Link): set<Walk> {
    set w | w in ws && w.link == l
  }

  lemma {:induction false} LinksCount(ws: seq<Walk>, l: Link)
    requires Distinct(ws)
    ensures multiset(Links(ws))[l] == |EndingIn(ws, l)|
  {
    if ws == [] {
      assert Links(ws) == [] && EndingIn(ws, l) == {};
    } else {
      var n := |ws| - 1;
      var init, last := ws[..n], ws[n];
      assert ws == init + [last];
      LinksJoin(init, [last]);
      LinksCount(init, l);
      LastIsNew(init, last, l);
      assert Links([last]) == [last.link];
      assert multiset(Links(init) + [last.link])[l] == multiset(Links(init))[l] + if last.link == l then 1 else 0;
    }
  }

  lemma LastIsNew(init: seq<Walk>, last: Walk, l: Link)
    requires Distinct(init + [last])
    ensures |EndingIn(init + [last], l)| == |EndingIn(init, l)| + if last.link == l then 1 else 0
  {
    var ws, n := init + [last], |init|;
    forall w | w in init ensures w != last {
      var i :| 0 <= i < n && init[i] == w;
      assert ws[i] == w && ws[n] == last;
    }
    assert forall w :: w in ws <==> w in init || w == last;
    assert EndingIn(ws, l) == if last.link == l then EndingIn(init, l) + {last} else EndingIn(init, l);
  }

  /** How often a connection is yielded: once for each admitted walk that ends with it. */
  lemma YieldedPerWalk(net: Net, start: Port, l: Link)
    requires NetValid(net) && start.obj < net.size
    ensures StackValid(net, Push(net, [], start))
    ensures multiset(Yields(net, Push(net, [], start)))[l] == |Arrivals(net, start, l)|
    ensures forall w :: w in Arrivals(net, start, l) <==> Admitted(net, {start.obj}, start, w) && w.link == l
  {
    hide Walks, Yields, Admitted, Distinct;
    YieldsAreWalks(net, start);
    LinksCount(Walks(net, {start.obj}, start, 0), l);
  }

  // ---------------------------------------------------------------- chains

  ghost predicate Follows(net: Net, p: Port, q: Port) {
    exists l :: l in net.links(p) && net.thru(l.dst) && q in net.targets(l)
  }

  /** A chain of ports, each behind a connection of the one before. */
  ghost predicate Chain(net: Net, c: seq<Port>) {
    c != [] && forall i :: 0 <= i < |c| - 1 ==> Follows(net, c[i], c[i + 1])
  }

  /** It passes no object twice. */
  predicate Simple(c: seq<Port>) {
    forall i, j :: 0 <= i < j < |c| ==> c[i].obj != c[j].obj
  }

  ghost predicate Reachable(net: Net, start: Port, p: Port) {
    exists c :: Chain(net, c) && c[0] == start && c[|c| - 1] == p
  }

  ghost predicate SimplyReachable(net: Net, start: Port, p: Port) {
    exists c :: Chain(net, c) && Simple(c) && c[0] == start && c[|c| - 1] == p
  }

  /** A connection to an ordinary object that lies behind the outlet `start`. */
  ghost predicate LiesBehind(net: Net, start: Port, l: Link) {
    !net.thru(l.dst) && exists p :: Reachable(net, start, p) && l in net.links(p)
  }

  /** One that lies there without an object being passed twice. */
  ghost predicate LiesSimplyBehind(net: Net, start: Port, l: Link) {
    !net.thru(l.dst) && exists p :: SimplyReachable(net, start, p) && l in net.links(p)
  }

  ghost predicate Answered(net: Net, p: Port) {
    exists l :: p in net.targets(l)
  }

  /** What thru objects answer: a label, or an inlet of a patcher, answers all its receives, each at its only outlet; a
      send, an outlet of a patcher and a dispatcher answer with one port. */
  ghost predicate Receives(net: Net) {
    forall l, q, r :: |net.targets(l)| > 1 && q in net.targets(l) && Answered(net, r) && r.obj == q.obj ==> r == q
  }

  predicate Clear(c: seq<Port>, held: set<nat>) {
    forall i :: 1 <= i < |c| ==> c[i].obj !in held
  }

  /** An admitted walk passes no object twice. */
  lemma {:induction false} WalkHasChain(net: Net, held: set<nat>, p: Port, w: Walk) returns (c: seq<Port>)
    requires Admitted(net, held, p, w) && p.obj in held
    ensures Chain(net, c) && Simple(c) && c[0] == p && Clear(c, held)
    ensures w.link in net.links(c[|c| - 1]) && !net.thru(w.link.dst)
    decreases |w.steps|
  {
    if w.steps == [] {
      c := [p];
    } else {
      var (a, i) := w.steps[0];
      var ts := net.targets(net.links(p)[a]);
      ObjsSnoc(ts, i + 1);
      var c' := WalkHasChain(net, held + Objs(ts[..i + 1]), ts[i], w.(steps := w.steps[1..]));
      c := [p] + c';
      assert Follows(net, p, ts[i]);
    }
  }

  lemma ObjsAt(ts: seq<Port>, n: nat, o: nat)
    requires n <= |ts|
    ensures o in Objs(ts[..n]) <==> exists i :: 0 <= i < n && ts[i].obj == o
  {
    if o in Objs(ts[..n]) {
      var q :| q in ts[..n] && q.obj == o;
      var i :| 0 <= i < n && ts[..n][i] == q;
      assert ts[i].obj == o;
    }
    forall i | 0 <= i < n && ts[i].obj == o ensures o in Objs(ts[..n]) {
      assert ts[..n][i] in ts[..n];
    }
  }

  /** The first port of an answer whose object the chain enters, and where. */
  lemma FirstEntered(net: Net, ts: seq<Port>, c: seq<Port>, l: Link) returns (i: nat, m: nat)
    requires Receives(net) && Chain(net, c) && Simple(c) && |c| > 1 && ts == net.targets(l) && c[1] in ts
    ensures i < |ts| && 1 <= m < |c| && c[m] == ts[i]
    ensures forall j, k :: 0 <= j < i && 1 <= k < |c| ==> ts[j].obj != c[k].obj
  {
    i := 0;
    var e :| 0 <= e < |ts| && ts[e] == c[1];
    while forall k :: 1 <= k < |c| ==> c[k].obj != ts[i].obj
      invariant i <= e
      invariant forall j, k :: 0 <= j < i && 1 <= k < |c| ==> ts[j].obj != c[k].obj
      decreases e - i
    {
      assert i != e;
      i := i + 1;
    }
    m :| 1 <= m < |c| && c[m].obj == ts[i].obj;
    if |ts| > 1 {
      assert Follows(net, c[m - 1], c[m]);
      assert Answered(net, c[m]);
      assert ts[i] in ts;
    }
  }

  lemma FirstLink(net: Net, c: seq<Port>) returns (a: nat)
    requires Chain(net, c) && |c| > 1
    ensures a < |net.links(c[0])|
    ensures net.thru(net.links(c[0])[a].dst) && c[1] in net.targets(net.links(c[0])[a])
  {
    assert Follows(net, c[0], c[1]);
    var l :| l in net.links(c[0]) && net.thru(l.dst) && c[1] in net.targets(l);
    a :| 0 <= a < |net.links(c[0])| && net.links(c[0])[a] == l;
  }

  lemma SuffixChain(net: Net, c: seq<Port>, m: nat)
    requires Chain(net, c) && Simple(c) && m < |c|
    ensures Chain(net, c[m..]) && Simple(c[m..])
  {
    var d := c[m..];
    forall j | 0 <= j < |d| - 1 ensures Follows(net, d[j], d[j + 1]) {
      assert Follows(net, c[m + j], c[m + j + 1]);
    }
    forall i, j | 0 <= i < j < |d| ensures d[i].obj != d[j].obj {
      assert c[m + i].obj != c[m + j].obj;
    }
  }

  lemma RestIsClear(held: set<nat>, ts: seq<Port>, c: seq<Port>, i: nat, m: nat)
    requires Simple(c) && Clear(c, held) && i < |ts| && 1 <= m < |c| && c[m] == ts[i]
    requires forall j, k :: 0 <= j < i && 1 <= k < |c| ==> ts[j].obj != c[k].obj
    ensures ts[i].obj !in held + Objs(ts[..i]) && ts[i].obj in held + Objs(ts[..i + 1])
    ensures Clear(c[m..], held + Objs(ts[..i + 1]))
  {
    ObjsAt(ts, i, ts[i].obj);
    ObjsAt(ts, i + 1, ts[i].obj);
    forall j | 1 <= j < |c[m..]| ensures c[m..][j].obj !in held + Objs(ts[..i + 1]) {
      ObjsAt(ts, i + 1, c[m..][j].obj);
      assert c[m..][j] == c[m + j] && c[m].obj != c[m + j].obj;
    }
  }

  /** Where a chain that passes no object twice leads, an admitted walk leads as well. */
  lemma {:induction false} ChainHasWalk(net: Net, held: set<nat>, p: Port, c: seq<Port>, l: Link) returns (w: Walk)
    requires Receives(net) && Chain(net, c) && Simple(c) && c[0] == p && p.obj in held && Clear(c, held)
    requires l in net.links(c[|c| - 1]) && !net.thru(l.dst)
    ensures Admitted(net, held, p, w) && w.link == l
    decreases |c|
  {
    hide Follows, Receives, Simple, Clear, Objs;
    if |c| == 1 {
      var k :| 0 <= k < |net.links(p)| && net.links(p)[k] == l;
      w := Walk([], k, l);
    } else {
      var a := FirstLink(net, c);
      var ts := net.targets(net.links(p)[a]);
      var i, m := FirstEntered(net, ts, c, net.links(p)[a]);
      var held', c' := held + Objs(ts[..i + 1]), c[m..];
      SuffixChain(net, c, m);
      RestIsClear(held, ts, c, i, m);
      var w' := ChainHasWalk(net, held', ts[i], c', l);
      w := Entering((a, i), w');
      assert w.(steps := w.steps[1..]) == w';
    }
  }

  lemma SimpleChainTo(net: Net, start: Port, p: Port) returns (c: seq<Port>)
    requires SimplyReachable(net, start, p)
    ensures Chain(net, c) && Simple(c) && c != [] && c[0] == start && c[|c| - 1] == p && Clear(c, {start.obj})
  {
    c :| Chain(net, c) && Simple(c) && c[0] == start && c[|c| - 1] == p;
  }

  /** The iterator on outlet `start` yields exactly the connections to ordinary objects behind the ports it can reach
      without passing an object twice. */
  lemma YieldsIff(net: Net, start: Port, l: Link)
    requires NetValid(net) && start.obj < net.size && Receives(net)
    ensures StackValid(net, Push(net, [], start))
    ensures l in Yields(net, Push(net, [], start)) <==> LiesSimplyBehind(net, start, l)
  {
    hide Walks, Yields, Admitted, Distinct, Chain, Simple, Receives;
    YieldsAreWalks(net, start);
    var ws := Walks(net, {start.obj}, start, 0);
    if l in Yields(net, Push(net, [], start)) {
      var i :| 0 <= i < |ws| && Links(ws)[i] == l;
      var c := WalkHasChain(net, {start.obj}, start, ws[i]);
      assert SimplyReachable(net, start, c[|c| - 1]);
    }
    if LiesSimplyBehind(net, start, l) {
      var p :| SimplyReachable(net, start, p) && l in net.links(p);
      var c := SimpleChainTo(net, start, p);
      var w := ChainHasWalk(net, {start.obj}, start, c, l);
      var i :| 0 <= i < |ws| && ws[i] == w;
      assert Links(ws)[i] == l;
    }
  }

  /** Nothing behind an outlet is missed exactly when everything there can be reached without passing an object
      twice. */
  lemma NothingMissedIff(net: Net, start: Port)
    requires NetValid(net) && start.obj < net.size && Receives(net)
    ensures StackValid(net, Push(net, [], start))
    ensures (forall l :: LiesBehind(net, start, l) ==> l in Yields(net, Push(net, [], start))) <==>
            (forall l :: LiesBehind(net, start, l) ==> LiesSimplyBehind(net, start, l))
  {
    hide Yields, NetValid, Receives, StackValid, Push, Measure, LiesBehind, LiesSimplyBehind;
    StartValid(net, start);
    forall l ensures l in Yields(net, Push(net, [], start)) <==> LiesSimplyBehind(net, start, l) {
      YieldsIff(net, start, l);
    }
  }

  lemma StartValid(net: Net, start: Port)
    requires NetValid(net) && start.obj < net.size
    ensures StackValid(net, Push(net, [], start))
  {
  }

  /** Nothing is missed when no object is entered through two of its outlets. */
  lemma OneOutletSuffices(net: Net, start: Port, p: Port)
    requires Reachable(net, start, p)
    requires forall q, r :: Reachable(net, start, q) && Reachable(net, start, r) && q.obj == r.obj ==> q == r
    ensures SimplyReachable(net, start, p)
  {
    var c :| Chain(net, c) && c[0] == start && c[|c| - 1] == p;
    ShortestIsSimple(net, start, c);
  }

  /** Cutting a chain short where it comes back to a port. */
  lemma {:induction false} ShortestIsSimple(net: Net, start: Port, c: seq<Port>)
    requires Chain(net, c) && c[0] == start
    requires forall q, r :: Reachable(net, start, q) && Reachable(net, start, r) && q.obj == r.obj ==> q == r
    ensures SimplyReachable(net, start, c[|c| - 1])
    decreases |c|
  {
    hide Chain, Reachable, Follows;
    if !Simple(c) {
      var i: nat, j: nat :| i < j < |c| && c[i].obj == c[j].obj;
      PrefixReaches(net, start, c, i);
      PrefixReaches(net, start, c, j);
      CutChain(net, c, i, j);
      ShortestIsSimple(net, start, c[..i + 1] + c[j + 1..]);
    }
  }

  lemma CutChain(net: Net, c: seq<Port>, i: nat, j: nat)
    requires Chain(net, c) && i < j < |c| && c[i] == c[j]
    ensures var d := c[..i + 1] + c[j + 1..];
            Chain(net, d) && |d| < |c| && d[0] == c[0] && d[|d| - 1] == c[|c| - 1]
  {
    hide Follows;
    var d := c[..i + 1] + c[j + 1..];
    forall k | 0 <= k < |d| - 1 ensures Follows(net, d[k], d[k + 1]) {
      var e := if k < i then k else k + (j - i);
      assert Follows(net, c[e], c[e + 1]);
    }
  }

  lemma PrefixReaches(net: Net, start: Port, c: seq<Port>, i: nat)
    requires Chain(net, c) && c[0] == start && i < |c|
    ensures Reachable(net, start, c[i])
  {
    var d := c[..i + 1];
    forall k | 0 <= k < |d| - 1 ensures Follows(net, d[k], d[k + 1]) {
      assert d[k] == c[k] && d[k + 1] == c[k + 1];
    }
    assert Chain(net, d) && d[0] == start && d[|d| - 1] == c[i];
  }

  // ---------------------------------------------------------------- a patcher fed back to itself

  /** Object 1 is a patcher that has its first outlet connected to its second inlet.  Its inlets lead to the receives 2
      and 3, these to the sends 4 and 5 of its outlets, and the second outlet to the ordinary object 6. */
  function FeedbackLinks(p: Port): seq<Link> {
    if p == Port(0, 0) then [Link(1, 0)]
    else if p == Port(2, 0) then [Link(4, 0)]
    else if p == Port(1, 0) then [Link(1, 1)]
    else if p == Port(3, 0) then [Link(5, 0)]
    else if p == Port(1, 1) then [Link(6, 0)]
    else []
  }

  predicate IsThru(o: nat) {
    o == 1 || o == 4 || o == 5
  }

  function FeedbackTargets(l: Link): seq<Port> {
    if l == Link(1, 0) then [Port(2, 0)]
    else if l == Link(1, 1) then [Port(3, 0)]
    else if l == Link(4, 0) then [Port(1, 0)]
    else if l == Link(5, 0) then [Port(1, 1)]
    else []
  }

  function Feedback(): Net {
    Net(7, 1, FeedbackLinks, IsThru, FeedbackTargets)
  }

  function FeedbackChain(): (c: seq<Port>)
    ensures |c| == 5
  {
    [Port(0, 0), Port(2, 0), Port(1, 0), Port(3, 0), Port(1, 1)]
  }

  /** The network on which a reachable connection is missed: the patcher is on the stack when its second outlet is to be
      entered, so what lies behind that outlet is never yielded. */
  lemma FeedbackMissed()
    ensures NetValid(Feedback()) && Receives(Feedback())
    ensures Reachable(Feedback(), Port(0, 0), Port(1, 1)) && Link(6, 0) in Feedback().links(Port(1, 1))
    ensures !Feedback().thru(6) && StackValid(Feedback(), Push(Feedback(), [], Port(0, 0)))
    ensures Link(6, 0) !in Yields(Feedback(), Push(Feedback(), [], Port(0, 0)))
  {
    hide Yields, NetValid, Receives, StackValid, Push, Measure, SimplyReachable, Reachable;
    var net, start := Feedback(), Port(0, 0);
    FeedbackIsChain(net);
    YieldsIff(net, start, Link(6, 0));
    forall p | SimplyReachable(net, start, p) ensures Link(6, 0) !in net.links(p) {
      NotSimply(net, p);
    }
  }

  lemma NotSimply(net: Net, p: Port)
    requires net == Feedback() && SimplyReachable(net, Port(0, 0), p)
    ensures Link(6, 0) !in net.links(p)
  {
    hide Simple, Chain, Clear;
    var c := SimpleChainTo(net, Port(0, 0), p);
    OnlyChain(net, c);
    if |c| == 5 {
      TwiceTheSame(c, 2, 4);
    }
  }

  lemma TwiceTheSame(c: seq<Port>, i: nat, j: nat)
    requires Simple(c) && i < j < |c|
    ensures c[i].obj != c[j].obj
  {
  }

  lemma FeedbackIsChain(net: Net)
    requires net == Feedback()
    ensures NetValid(net) && Receives(net) && Reachable(net, Port(0, 0), Port(1, 1))
  {
    var c := FeedbackChain();
    hide Chain, Follows;
    FeedbackFollows(net);
    EachFollows(net, c);
    assert c[0] == Port(0, 0) && c[|c| - 1] == Port(1, 1);
  }

  lemma EachFollows(net: Net, c: seq<Port>)
    requires c != [] && forall i :: 0 <= i < |c| - 1 ==> Follows(net, c[i], c[i + 1])
    ensures Chain(net, c)
  {
  }

  lemma FeedbackFollows(net: Net)
    requires net == Feedback()
    ensures forall i :: 0 <= i < 4 ==> Follows(net, FeedbackChain()[i], FeedbackChain()[i + 1])
  {
    var c := FeedbackChain();
    forall i | 0 <= i < 4 ensures Follows(net, c[i], c[i + 1]) {
      var l := net.links(c[i])[0];
      assert l in net.links(c[i]) && net.targets(l) == [c[i + 1]];
    }
  }

  /** There is one chain only. */
  lemma {:induction false} OnlyChain(net: Net, c: seq<Port>)
    requires net == Feedback() && Chain(net, c) && c[0] == Port(0, 0)
    ensures |c| <= 5 && forall i :: 0 <= i < |c| ==> c[i] == FeedbackChain()[i]
    decreases |c|
  {
    if |c| > 1 {
      var init := c[..|c| - 1];
      assert Chain(net, init);
      OnlyChain(net, init);
      assert Follows(net, c[|c| - 2], c[|c| - 1]);
    }
  }

  // ---------------------------------------------------------------- the iterator

  class GraphIterator {
    const net: Net
    var stack: seq<Frame>

    constructor (net: Net, start: Port)
      requires NetValid(net) && start.obj < net.size
      ensures this.net == net && AtConnection()
      ensures Remaining() == Yields(net, Push(net, [], start))
    {
      this.net := net;
      stack := Push(net, [], start);
      new;
      Step();
    }

    ghost predicate Valid()
      reads this
    {
      NetValid(net) && StackValid(net, stack)
    }

    /** Between calls the iterator is at its end, or at a connection to an ordinary object. */
    ghost predicate AtConnection()
      reads this
    {
      Valid() && (stack != [] ==> var top := stack[|stack| - 1]; top.rest != [] && !net.thru(top.rest[0].dst))
    }

    ghost function Remaining(): seq<Link>
      requires Valid()
      reads this
    {
      Yields(net, stack)
    }

    /** `graph_iterator_step`: pops exhausted elements and looks through thru objects. */
    method Step()
      requires Valid()
      modifies this
      ensures AtConnection() && Remaining() == old(Remaining())
      decreases Measure(net, stack)
    {
      if stack == [] {
        return;
      }
      AdvanceDecreases(net, stack);
      var top := stack[|stack| - 1];
      if top.rest == [] {
        stack := stack[..|stack| - 1];
        Step();
      } else if net.thru(top.rest[0].dst) {
        stack := PushAll(net, Skip(stack), net.targets(top.rest[0]));
        Step();
      }
    }

    method Next() returns (l: Link)
      requires AtConnection() && stack != []
      modifies this
      ensures AtConnection() && old(Remaining()) == [l] + Remaining()
    {
      AdvanceDecreases(net, stack);
      l := stack[|stack| - 1].rest[0];
      stack := Skip(stack);
      Step();
    }
  }

  // ---------------------------------------------------------------- the edges of a node

  /** The DSP objects of a patch: `node` numbers them, and `forcing` tells whether there is a direct order-forcing
      connection from a port to an inlet. */
  datatype Patch = Patch(net: Net, dsp: nat -> bool, node: nat -> nat, forcing: (Port, Link) -> bool)

  /** The graph edges among connections met from port `p`. */
  function ToEdges(patch: Patch, p: Port, ls: seq<Link>): (es: seq<Edge>)
    ensures forall e :: e in es ==> e.outlet == p.outlet
    ensures forall e :: e in es ==>
              exists l :: l in ls && patch.dsp(l.dst) &&
                e == Edge(p.outlet, patch.node(l.dst), l.inlet, patch.forcing(p, l))
    ensures forall l :: l in ls && patch.dsp(l.dst) ==>
            Edge(p.outlet, patch.node(l.dst), l.inlet, patch.forcing(p, l)) in es
  {
    if ls == [] then []
    else
      var l := ls[0];
      assert forall x :: x in ls <==> x == l || x in ls[1..];
      (if patch.dsp(l.dst) then [Edge(p.outlet, patch.node(l.dst), l.inlet, patch.forcing(p, l))] else []) +
      ToEdges(patch, p, ls[1..])
  }

  /** The edges behind the first `n` outlets of `obj`. */
  ghost function EdgesBehind(patch: Patch, obj: nat, n: nat): (es: seq<Edge>)
    requires NetValid(patch.net) && obj < patch.net.size
    ensures forall e :: e in es ==> e.outlet < n
    ensures forall i, j :: 0 <= i < j < |es| ==> es[i].outlet <= es[j].outlet
  {
    if n == 0 then []
    else
      var a := EdgesBehind(patch, obj, n - 1);
      var b := ToEdges(patch, Port(obj, n - 1), Yields(patch.net, Push(patch.net, [], Port(obj, n - 1))));
      SortedAppend(a, b, n - 1);
      a + b
  }

  lemma SortedAppend(a: seq<Edge>, b: seq<Edge>, o: nat)
    requires forall e :: e in a ==> e.outlet < o
    requires forall i, j :: 0 <= i < j < |a| ==> a[i].outlet <= a[j].outlet
    requires forall e :: e in b ==> e.outlet == o
    ensures forall e :: e in a + b ==> e.outlet < o + 1
    ensures forall i, j :: 0 <= i < j < |a + b| ==> (a + b)[i].outlet <= (a + b)[j].outlet
  {
    assert forall i :: 0 <= i < |a| ==> a[i] in a;
    assert forall i :: 0 <= i < |b| ==> b[i] in b;
  }

  lemma {:induction false} ToEdgesAppend(patch: Patch, p: Port, ls: seq<Link>, l: Link)
    ensures ToEdges(patch, p, ls + [l]) == ToEdges(patch, p, ls) + ToEdges(patch, p, [l])
  {
    if ls == [] {
      assert [] + [l] == [l];
    } else {
      assert (ls + [l])[1..] == ls[1..] + [l];
      ToEdgesAppend(patch, p, ls[1..], l);
    }
  }

  /** One iterator behind outlet `i` of `obj`. */
  method OutletEdges(patch: Patch, obj: nat, i: nat) returns (es: seq<Edge>)
    requires NetValid(patch.net) && obj < patch.net.size
    ensures es == ToEdges(patch, Port(obj, i), Yields(patch.net, Push(patch.net, [], Port(obj, i))))
  {
    hide ToEdges, Yields;
    var p := Port(obj, i);
    var iter := new GraphIterator(patch.net, p);
    ghost var all, met := iter.Remaining(), [];
    NoEdges(patch, p);
    es := [];
    while iter.stack != []
      invariant iter.net == patch.net && iter.AtConnection() && fresh(iter)
      invariant all == met + iter.Remaining()
      invariant es == ToEdges(patch, p, met)
      decreases |iter.Remaining()|
    {
      var l := iter.Next();
      if patch.dsp(l.dst) {
        es := es + [Edge(i, patch.node(l.dst), l.inlet, patch.forcing(p, l))];
      }
      ToEdgesSnoc(patch, p, met, l);
      met := met + [l];
    }
    NoneLeft(patch.net);
    assert met == all;
  }

  lemma NoEdges(patch: Patch, p: Port)
    ensures ToEdges(patch, p, []) == []
  {
  }

  lemma NoneLeft(net: Net)
    requires NetValid(net)
    ensures StackValid(net, []) && Yields(net, []) == []
  {
  }

  lemma ToEdgesSnoc(patch: Patch, p: Port, ls: seq<Link>, l: Link)
    ensures ToEdges(patch, p, ls + [l]) == ToEdges(patch, p, ls) +
            if patch.dsp(l.dst) then [Edge(p.outlet, patch.node(l.dst), l.inlet, patch.forcing(p, l))] else []
  {
    ToEdgesAppend(patch, p, ls, l);
    assert [l][1..] == [];
  }

  function EdgeFor(patch: Patch, p: Port, l: Link): Edge {
    Edge(p.outlet, patch.node(l.dst), l.inlet, patch.forcing(p, l))
  }

  /** Connection `l`, met from port `p`, is edge `e` of the graph. */
  predicate IsEdge(patch: Patch, p: Port, l: Link, e: Edge) {
    patch.dsp(l.dst) && e == EdgeFor(patch, p, l)
  }

  /** The ways from an outlet of `obj` to a connection that is edge `e`. */
  ghost function WalksTo(patch: Patch, obj: nat, e: Edge): (ws: set<Walk>)
    requires NetValid(patch.net)
  {
    EndingAs(patch, Port(obj, e.outlet), Walks(patch.net, {obj}, Port(obj, e.outlet), 0), e)
  }

  ghost function EndingAs(patch: Patch, p: Port, ws: seq<Walk>, e: Edge): set<Walk> {
    set w | w in ws && IsEdge(patch, p, w.link, e)
  }

  lemma WalksToAre(patch: Patch, obj: nat, e: Edge, w: Walk)
    requires NetValid(patch.net) && obj < patch.net.size
    ensures w in WalksTo(patch, obj, e) <==>
            Admitted(patch.net, {obj}, Port(obj, e.outlet), w) && IsEdge(patch, Port(obj, e.outlet), w.link, e)
  {
    hide Walks, Yields, Admitted, NetValid;
    YieldsAreWalks(patch.net, Port(obj, e.outlet));
  }

  lemma {:induction false} ToEdgesCount(patch: Patch, p: Port, ws: seq<Walk>, e: Edge)
    requires Distinct(ws)
    ensures multiset(ToEdges(patch, p, Links(ws)))[e] == |EndingAs(patch, p, ws, e)|
  {
    hide ToEdges, IsEdge;
    if ws == [] {
      NoEdges(patch, p);
      assert Links(ws) == [] && EndingAs(patch, p, ws, e) == {};
    } else {
      var init, last := ws[..|ws| - 1], ws[|ws| - 1];
      assert ws == init + [last];
      LinksJoin(init, [last]);
      assert Links([last]) == [last.link];
      ToEdgesCount(patch, p, init, e);
      ToEdgesSnoc(patch, p, Links(init), last.link);
      LastEndsToo(patch, p, init, last, e);
    }
  }

  lemma LastEndsToo(patch: Patch, p: Port, init: seq<Walk>, last: Walk, e: Edge)
    requires Distinct(init + [last])
    ensures |EndingAs(patch, p, init + [last], e)| ==
            |EndingAs(patch, p, init, e)| +
            if patch.dsp(last.link.dst) && e == EdgeFor(patch, p, last.link) then 1 else 0
  {
    var ws := init + [last];
    forall w | w in init ensures w != last {
      var i :| 0 <= i < |init| && init[i] == w;
      assert ws[i] == w && ws[|init|] == last;
    }
    assert forall w :: w in ws <==> w in init || w == last;
    var old', more := EndingAs(patch, p, init, e), EndingAs(patch, p, ws, e);
    assert more == if IsEdge(patch, p, last.link, e) then old' + {last} else old';
  }

  lemma BothCount(a: seq<Edge>, b: seq<Edge>, e: Edge)
    ensures multiset(a + b)[e] == multiset(a)[e] + multiset(b)[e]
    ensures (e !in a ==> multiset(a)[e] == 0) && (e !in b ==> multiset(b)[e] == 0)
  {
    assert multiset(a + b) == multiset(a) + multiset(b);
  }

  /** An edge is among those behind the first `n` outlets of an object once for each admitted walk that leads to a
      connection that is this edge. */
  lemma {:induction false} EdgesPerWalk(patch: Patch, obj: nat, n: nat, e: Edge)
    requires NetValid(patch.net) && obj < patch.net.size
    ensures multiset(EdgesBehind(patch, obj, n))[e] == if e.outlet < n then |WalksTo(patch, obj, e)| else 0
    decreases n
  {
    hide Yields, NetValid, WalksTo, ToEdges, Push, EndingAs, EdgesBehind;
    EdgesStep(patch, obj, n);
    if n > 0 {
      EdgesPerWalk(patch, obj, n - 1, e);
      var before := EdgesBehind(patch, obj, n - 1);
      var last := ToEdges(patch, Port(obj, n - 1), Yields(patch.net, Push(patch.net, [], Port(obj, n - 1))));
      BothCount(before, last, e);
      OutletCounts(patch, obj, n - 1, e);
    }
  }

  lemma EdgesStep(patch: Patch, obj: nat, n: nat)
    requires NetValid(patch.net) && obj < patch.net.size
    ensures n > 0 ==> StackValid(patch.net, Push(patch.net, [], Port(obj, n - 1)))
    ensures EdgesBehind(patch, obj, n) ==
            if n == 0 then []
            else EdgesBehind(patch, obj, n - 1)
                 + ToEdges(patch, Port(obj, n - 1), Yields(patch.net, Push(patch.net, [], Port(obj, n - 1))))
  {
    hide Yields, NetValid, ToEdges;
    if n > 0 {
      StartValid(patch.net, Port(obj, n - 1));
    }
  }

  /** The edges behind one outlet. */
  lemma OutletCounts(patch: Patch, obj: nat, o: nat, e: Edge)
    requires NetValid(patch.net) && obj < patch.net.size
    ensures StackValid(patch.net, Push(patch.net, [], Port(obj, o)))
    ensures multiset(ToEdges(patch, Port(obj, o), Yields(patch.net, Push(patch.net, [], Port(obj, o)))))[e] ==
            if e.outlet == o then |WalksTo(patch, obj, e)| else 0
  {
    hide Yields, NetValid, Walks, Admitted, ToEdges, Distinct, EndingAs, Push;
    var p := Port(obj, o);
    YieldsAreWalks(patch.net, p);
    if e.outlet == o {
      ToEdgesCount(patch, p, Walks(patch.net, {obj}, p, 0), e);
    }
  }

  /** `es` are the edges for those of the connections `ls` that lead to DSP objects, in their order; `at` are the
      positions of these. */
  ghost predicate Selects(patch: Patch, p: Port, ls: seq<Link>, at: seq<nat>, es: seq<Edge>) {
    && |at| == |es|
    && (forall i, j :: 0 <= i < j < |at| ==> at[i] < at[j])
    && (forall i :: 0 <= i < |at| ==> at[i] < |ls| && IsEdge(patch, p, ls[at[i]], es[i]))
    && (forall k :: 0 <= k < |ls| && patch.dsp(ls[k].dst) ==> k in at)
  }

  lemma SelectsSnoc(patch: Patch, p: Port, ls: seq<Link>, at: seq<nat>, es: seq<Edge>, l: Link)
    requires Selects(patch, p, ls, at, es)
    ensures if patch.dsp(l.dst) then Selects(patch, p, ls + [l], at + [|ls|], es + [EdgeFor(patch, p, l)])
            else Selects(patch, p, ls + [l], at, es)
  {
    hide EdgeFor;
    var more, at' := ls + [l], at + [|ls|];
    forall k | 0 <= k < |more| && patch.dsp(more[k].dst) ensures if patch.dsp(l.dst) then k in at' else k in at {
      if k == |ls| {
        assert at'[|at|] == k;
      } else {
        assert ls[k] == more[k];
        var i :| 0 <= i < |at| && at[i] == k;
        assert at'[i] == k;
      }
    }
  }

  lemma {:induction false} ToEdgesSelects(patch: Patch, p: Port, ls: seq<Link>) returns (at: seq<nat>)
    ensures Selects(patch, p, ls, at, ToEdges(patch, p, ls))
    decreases |ls|
  {
    hide ToEdges, Selects;
    if ls == [] {
      at := [];
      NoEdges(patch, p);
      SelectsNone(patch, p);
    } else {
      var init, last := ls[..|ls| - 1], ls[|ls| - 1];
      assert ls == init + [last];
      at := ToEdgesSelects(patch, p, init);
      ToEdgesSnoc(patch, p, init, last);
      SelectsSnoc(patch, p, init, at, ToEdges(patch, p, init), last);
      if patch.dsp(last.dst) {
        at := at + [|init|];
      } else {
        assert ToEdges(patch, p, init) + [] == ToEdges(patch, p, init);
      }
    }
  }

  lemma SelectsNone(patch: Patch, p: Port)
    ensures Selects(patch, p, [], [], [])
  {
  }

  /** The edges with outlet `o` come together, and in the order in which the iterator on that outlet meets them. */
  lemma {:induction false} EdgesInOrder(patch: Patch, obj: nat, n: nat, o: nat)
    returns (lo: nat, hi: nat, at: seq<nat>)
    requires NetValid(patch.net) && obj < patch.net.size && o < n
    ensures StackValid(patch.net, Push(patch.net, [], Port(obj, o)))
    ensures var es := EdgesBehind(patch, obj, n);
            && Together(es, o, lo, hi)
            && Selects(patch, Port(obj, o), Yields(patch.net, Push(patch.net, [], Port(obj, o))), at, es[lo..hi])
    decreases n
  {
    hide Yields, NetValid, ToEdges, Selects, Together;
    StartValid(patch.net, Port(obj, o));
    StartValid(patch.net, Port(obj, n - 1));
    var before := EdgesBehind(patch, obj, n - 1);
    var last := ToEdges(patch, Port(obj, n - 1), Yields(patch.net, Push(patch.net, [], Port(obj, n - 1))));
    assert EdgesBehind(patch, obj, n) == before + last;
    if o < n - 1 {
      lo, hi, at := EdgesInOrder(patch, obj, n - 1, o);
      TogetherBefore(before, last, o, lo, hi);
    } else {
      lo, hi := |before|, |before + last|;
      at := ToEdgesSelects(patch, Port(obj, o), Yields(patch.net, Push(patch.net, [], Port(obj, o))));
      TogetherLast(before, last, o);
    }
  }

  /** The edges with outlet `o` are those from `lo` to `hi`. */
  ghost predicate Together(es: seq<Edge>, o: nat, lo: nat, hi: nat) {
    lo <= hi <= |es| && forall k :: 0 <= k < |es| ==> (es[k].outlet == o <==> lo <= k < hi)
  }

  lemma TogetherBefore(a: seq<Edge>, b: seq<Edge>, o: nat, lo: nat, hi: nat)
    requires Together(a, o, lo, hi) && forall e :: e in b ==> e.outlet != o
    ensures Together(a + b, o, lo, hi) && (a + b)[lo..hi] == a[lo..hi]
  {
    assert forall k :: 0 <= k < |b| ==> b[k] in b;
  }

  lemma TogetherLast(a: seq<Edge>, b: seq<Edge>, o: nat)
    requires (forall e :: e in a ==> e.outlet != o) && forall e :: e in b ==> e.outlet == o
    ensures Together(a + b, o, |a|, |a + b|) && (a + b)[|a|..|a + b|] == b
  {
    assert forall k :: 0 <= k < |a| ==> a[k] in a;
    assert forall k :: 0 <= k < |b| ==> b[k] in b;
  }

  /** The traversal of `dsp_graph_succ_realize`: outlet by outlet, one iterator each.  Every pass over the same patch
      meets the same edges in the same order, and the outlets come in ascending order. */
  method SuccessorEdges(patch: Patch, obj: nat, noutputs: nat) returns (es: seq<Edge>)
    requires NetValid(patch.net) && obj < patch.net.size
    ensures es == EdgesBehind(patch, obj, noutputs)
    ensures forall e :: multiset(es)[e] == if e.outlet < noutputs then |WalksTo(patch, obj, e)| else 0
  {
    hide ToEdges, Yields, Push, WalksTo;
    es := [];
    var i := 0;
    while i < noutputs
      invariant i <= noutputs && es == EdgesBehind(patch, obj, i)
    {
      var more := OutletEdges(patch, obj, i);
      es := es + more;
      i := i + 1;
    }
    forall e ensures multiset(es)[e] == if e.outlet < noutputs then |WalksTo(patch, obj, e)| else 0 {
      EdgesPerWalk(patch, obj, noutputs, e);
    }
  }
}
