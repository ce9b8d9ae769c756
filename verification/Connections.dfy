/** Connections between objects, each threaded through a list at its outlet and a list at its inlet. */
module Connections {

  /** A connection from outlet `outlet` of object `src` to inlet `inlet` of object `dst`. */
  datatype Conn = Conn(src: nat, outlet: int, dst: nat, inlet: int, kind: int)

  /** The kinds that matter here: `fts_c_hidden`, `fts_c_null` and `fts_c_anything`. */
  const HIDDEN := -2
  const NULL_KIND := -1
  const ANYTHING := 0

  /** What connecting asks of the objects: which are error objects, and `connection_check`. */
  datatype Objects = Objects(error: nat -> bool, fits: (nat, int, nat, int) -> bool)

  /** `out_conn` and `in_conn` of every object. */
  datatype Wiring = Wiring(outs: seq<seq<seq<Conn>>>, ins: seq<seq<seq<Conn>>>)

  function At(lists: seq<seq<seq<Conn>>>, o: int, k: int): seq<Conn> {
    if 0 <= o < |lists| && 0 <= k < |lists[o]| then lists[o][k] else []
  }

  function Out(w: Wiring, o: int, k: int): seq<Conn> {
    At(w.outs, o, k)
  }

  function In(w: Wiring, o: int, k: int): seq<Conn> {
    At(w.ins, o, k)
  }

  predicate SameEnds(c: Conn, d: Conn) {
    c.src == d.src && c.outlet == d.outlet && c.dst == d.dst && c.inlet == d.inlet
  }

  predicate NoDoubles(cs: seq<Conn>) {
    forall i, j :: 0 <= i < j < |cs| ==> !SameEnds(cs[i], cs[j])
  }

  predicate Has(w: Wiring, c: Conn) {
    c in Out(w, c.src, c.outlet)
  }

  ghost predicate OutsOk(w: Wiring, o: int, k: int) {
    NoDoubles(Out(w, o, k)) && forall c :: c in Out(w, o, k) ==>
      c.src == o && c.outlet == k && c in In(w, c.dst, c.inlet)
  }

  ghost predicate InsOk(w: Wiring, o: int, k: int) {
    NoDoubles(In(w, o, k)) && forall c :: c in In(w, o, k) ==>
      c.dst == o && c.inlet == k && c in Out(w, c.src, c.outlet)
  }

  /** The lists at the outlets and those at the inlets hold the same connections, each exactly once, and no two of them
      have the same ends. */
  ghost predicate Valid(w: Wiring) {
    |w.outs| == |w.ins| && (forall o: int, k: int :: OutsOk(w, o, k)) && forall o: int, k: int :: InsOk(w, o, k)
  }

  /** Both ends of a connection agree that it exists, its ports exist, and its ends determine it. */
  lemma EndsAgree(w: Wiring, c: Conn, d: Conn)
    requires Valid(w)
    ensures Has(w, c) <==> c in In(w, c.dst, c.inlet)
    ensures Has(w, c) ==>
              c.src < |w.outs| && 0 <= c.outlet < |w.outs[c.src]| && c.dst < |w.ins| && 0 <= c.inlet < |w.ins[c.dst]|
    ensures Has(w, c) && Has(w, d) && SameEnds(c, d) ==> c == d
  {
    assert OutsOk(w, c.src, c.outlet) && InsOk(w, c.dst, c.inlet);
    if Has(w, c) && Has(w, d) && SameEnds(c, d) {
      var cs := Out(w, c.src, c.outlet);
      var i, j :| 0 <= i < |cs| && 0 <= j < |cs| && cs[i] == c && cs[j] == d;
    }
  }

  // ---------------------------------------------------------------- one list

  function Replace(lists: seq<seq<seq<Conn>>>, o: int, k: int, cs: seq<Conn>): seq<seq<seq<Conn>>> {
    if 0 <= o < |lists| && 0 <= k < |lists[o]| then lists[o := lists[o][k := cs]] else lists
  }

  lemma ReplaceAt(lists: seq<seq<seq<Conn>>>, o: int, k: int, cs: seq<Conn>)
    requires 0 <= o < |lists| && 0 <= k < |lists[o]|
    ensures |Replace(lists, o, k, cs)| == |lists|
    ensures forall i :: 0 <= i < |lists| ==> |Replace(lists, o, k, cs)[i]| == |lists[i]|
    ensures forall x, y :: At(Replace(lists, o, k, cs), x, y) == if x == o && y == k then cs else At(lists, x, y)
  {
  }

  function Remove(cs: seq<Conn>, c: Conn): (r: seq<Conn>)
    ensures |r| == if c in cs then |cs| - 1 else |cs|
  {
    if cs == [] then [] else if cs[0] == c then cs[1..] else [cs[0]] + Remove(cs[1..], c)
  }

  lemma {:induction false} RemoveIs(cs: seq<Conn>, c: Conn)
    requires NoDoubles(cs)
    ensures forall x :: x in Remove(cs, c) <==> x in cs && x != c
    ensures NoDoubles(Remove(cs, c))
  {
    if cs != [] {
      var rest := cs[1..];
      assert forall i :: 0 <= i < |rest| ==> rest[i] == cs[i + 1];
      RemoveIs(rest, c);
      assert forall x :: x in cs <==> x == cs[0] || x in rest;
      if cs[0] == c {
        assert c !in rest;
      } else {
        var r := Remove(cs, c);
        assert forall i :: 1 <= i < |r| ==> r[i] == Remove(rest, c)[i - 1] && r[i] in rest;
        forall i | 1 <= i < |r| ensures !SameEnds(r[0], r[i]) {
          var j :| 0 <= j < |rest| && rest[j] == r[i];
          assert !SameEnds(cs[0], cs[j + 1]);
        }
      }
    }
  }

  lemma PrependIs(cs: seq<Conn>, c: Conn)
    requires NoDoubles(cs) && forall x :: x in cs ==> !SameEnds(x, c)
    ensures NoDoubles([c] + cs)
    ensures forall x :: x in [c] + cs <==> x == c || x in cs
  {
    forall i, j | 0 <= i < j < |[c] + cs| ensures !SameEnds(([c] + cs)[i], ([c] + cs)[j]) {
      if i == 0 {
        assert cs[j - 1] in cs;
      }
    }
  }

  // ---------------------------------------------------------------- connecting and disconnecting

  function Resized(ports: seq<seq<Conn>>, n: nat): (r: seq<seq<Conn>>)
    ensures |r| == n
  {
    if n <= |ports| then ports[..n] else ports + seq(n - |ports|, _ => [])
  }

  /** An error object gets the ports that are asked of it. */
  function Fit(lists: seq<seq<seq<Conn>>>, o: nat, k: int): (r: seq<seq<seq<Conn>>>)
    requires o < |lists|
    ensures |r| == |lists|
  {
    if |lists[o]| <= k then lists[o := Resized(lists[o], k + 1)] else lists
  }

  lemma FitAt(lists: seq<seq<seq<Conn>>>, o: nat, k: int)
    requires o < |lists|
    ensures forall x, y :: At(Fit(lists, o, k), x, y) == At(lists, x, y)
    ensures |Fit(lists, o, k)[o]| == if |lists[o]| <= k then k + 1 else |lists[o]|
    ensures forall x :: 0 <= x < |lists| && x != o ==> Fit(lists, o, k)[x] == lists[x]
  {
  }

  function Fitted(g: Objects, w: Wiring, c: Conn): (w': Wiring)
    requires c.src < |w.outs| && c.dst < |w.ins|
    ensures |w'.outs| == |w.outs| && |w'.ins| == |w.ins|
  {
    Wiring(if g.error(c.src) then Fit(w.outs, c.src, c.outlet) else w.outs,
           if g.error(c.dst) then Fit(w.ins, c.dst, c.inlet) else w.ins)
  }

  predicate Double(cs: seq<Conn>, c: Conn) {
    exists i :: 0 <= i < |cs| && SameEnds(cs[i], c)
  }

  /** Connections are at least anything between valid objects. */
  function Typed(g: Objects, c: Conn): Conn {
    if !g.error(c.src) && !g.error(c.dst) && c.kind == NULL_KIND then c.(kind := ANYTHING) else c
  }

  function Inserted(w: Wiring, c: Conn): Wiring {
    Wiring(Replace(w.outs, c.src, c.outlet, [c] + Out(w, c.src, c.outlet)),
           Replace(w.ins, c.dst, c.inlet, [c] + In(w, c.dst, c.inlet)))
  }

  /** `fts_connection_new`: the wiring afterwards, and whether the connection was made. */
  function Connect(g: Objects, w: Wiring, c: Conn): (Wiring, bool)
    requires c.src < |w.outs| && c.dst < |w.ins|
  {
    if (g.error(c.src) || g.error(c.dst)) && c.kind <= HIDDEN then (w, false)
    else
      var w1 := Fitted(g, w, c);
      if !(0 <= c.outlet < |w1.outs[c.src]|) || !(0 <= c.inlet < |w1.ins[c.dst]|) then (w1, false)
      else if Double(Out(w1, c.src, c.outlet), c) || Double(In(w1, c.dst, c.inlet), c) then (w1, false)
      else if !g.fits(c.src, c.outlet, c.dst, c.inlet) then (w1, false)
      else (Inserted(w1, Typed(g, c)), true)
  }

  /** When a connection is accepted: its ports exist or belong to error objects, it is not hidden at an error object, it
      fits, and no connection has the same ends yet. */
  ghost predicate Accepts(g: Objects, w: Wiring, c: Conn)
    requires c.src < |w.outs| && c.dst < |w.ins|
  {
    && 0 <= c.outlet && (c.outlet < |w.outs[c.src]| || g.error(c.src))
    && 0 <= c.inlet && (c.inlet < |w.ins[c.dst]| || g.error(c.dst))
    && (c.kind > HIDDEN || (!g.error(c.src) && !g.error(c.dst)))
    && g.fits(c.src, c.outlet, c.dst, c.inlet)
    && !exists x :: Has(w, x) && SameEnds(x, c)
  }

  lemma FittedSame(g: Objects, w: Wiring, c: Conn)
    requires c.src < |w.outs| && c.dst < |w.ins|
    ensures forall o: int, k: int ::
              Out(Fitted(g, w, c), o, k) == Out(w, o, k) && In(Fitted(g, w, c), o, k) == In(w, o, k)
  {
    FitAt(w.outs, c.src, c.outlet);
    FitAt(w.ins, c.dst, c.inlet);
  }

  /** `w'` holds what `w` holds, in the same lists. */
  lemma SameLists(w: Wiring, w': Wiring)
    requires Valid(w) && |w'.outs| == |w'.ins|
    requires forall o: int, k: int :: Out(w', o, k) == Out(w, o, k) && In(w', o, k) == In(w, o, k)
    ensures Valid(w') && forall x :: Has(w', x) <==> Has(w, x)
  {
    hide Out, In;
    forall o: int, k: int ensures OutsOk(w', o, k) && InsOk(w', o, k) {
      assert OutsOk(w, o, k) && InsOk(w, o, k);
    }
  }

  /** At the ports numbered `k` of object `o`, `w'` differs from `w` by connection `c` only, which it has or not. */
  ghost predicate ChangedAt(w: Wiring, w': Wiring, c: Conn, made: bool, o: int, k: int) {
    && NoDoubles(Out(w', o, k)) && NoDoubles(In(w', o, k))
    && (forall x :: x in Out(w', o, k) <==> if x == c then made && o == c.src && k == c.outlet else x in Out(w, o, k))
    && (forall x :: x in In(w', o, k) <==> if x == c then made && o == c.dst && k == c.inlet else x in In(w, o, k))
  }

  lemma Changed(w: Wiring, w': Wiring, c: Conn, made: bool)
    requires Valid(w) && |w'.outs| == |w'.ins| && forall o: int, k: int :: ChangedAt(w, w', c, made, o, k)
    ensures Valid(w') && forall x :: Has(w', x) <==> if x == c then made else Has(w, x)
  {
    hide At, NoDoubles;
    forall o: int, k: int ensures OutsOk(w', o, k) {
      assert ChangedAt(w, w', c, made, o, k) && OutsOk(w, o, k);
      forall x | x in Out(w', o, k) ensures x.src == o && x.outlet == k && x in In(w', x.dst, x.inlet) {
        assert ChangedAt(w, w', c, made, x.dst, x.inlet);
      }
    }
    forall o: int, k: int ensures InsOk(w', o, k) {
      assert ChangedAt(w, w', c, made, o, k) && InsOk(w, o, k);
      forall x | x in In(w', o, k) ensures x.dst == o && x.inlet == k && x in Out(w', x.src, x.outlet) {
        assert ChangedAt(w, w', c, made, x.src, x.outlet);
      }
    }
    forall x ensures Has(w', x) <==> if x == c then made else Has(w, x) {
      assert ChangedAt(w, w', c, made, x.src, x.outlet);
    }
  }

  /** Inserting a connection whose ends no other has. */
  lemma InsertedIs(w: Wiring, c: Conn)
    requires Valid(w) && c.src < |w.outs| && 0 <= c.outlet < |w.outs[c.src]|
    requires c.dst < |w.ins| && 0 <= c.inlet < |w.ins[c.dst]|
    requires forall x :: Has(w, x) ==> !SameEnds(x, c)
    ensures Valid(Inserted(w, c)) && forall x :: Has(Inserted(w, c), x) <==> Has(w, x) || x == c
  {
    hide At, Replace, NoDoubles, Valid;
    var w' := Inserted(w, c);
    var a, b := Out(w, c.src, c.outlet), In(w, c.dst, c.inlet);
    ReplaceAt(w.outs, c.src, c.outlet, [c] + a);
    ReplaceAt(w.ins, c.dst, c.inlet, [c] + b);
    ListsValid(w);
    assert OutsOk(w, c.src, c.outlet) && InsOk(w, c.dst, c.inlet);
    assert forall x :: x in a || x in b ==> Has(w, x);
    PrependIs(a, c);
    PrependIs(b, c);
    forall o: int, k: int ensures ChangedAt(w, w', c, true, o, k) {
      assert OutsOk(w, o, k) && InsOk(w, o, k);
      InsertedAt(w, w', c, o, k);
    }
    Changed(w, w', c, true);
  }

  lemma InsertedAt(w: Wiring, w': Wiring, c: Conn, o: int, k: int)
    requires OutsOk(w, o, k) && InsOk(w, o, k)
    requires var a := Out(w, c.src, c.outlet);
             && NoDoubles([c] + a) && (forall x :: x in [c] + a <==> x == c || x in a)
             && Out(w', o, k) == if o == c.src && k == c.outlet then [c] + a else Out(w, o, k)
    requires var b := In(w, c.dst, c.inlet);
             && NoDoubles([c] + b) && (forall x :: x in [c] + b <==> x == c || x in b)
             && In(w', o, k) == if o == c.dst && k == c.inlet then [c] + b else In(w, o, k)
    ensures ChangedAt(w, w', c, true, o, k)
  {
    hide At, NoDoubles;
  }

  lemma ListsValid(w: Wiring)
    requires Valid(w)
    ensures |w.outs| == |w.ins| && forall o: int, k: int :: OutsOk(w, o, k) && InsOk(w, o, k)
  {
  }

  lemma DoubleIs(w: Wiring, c: Conn)
    requires Valid(w)
    ensures Double(Out(w, c.src, c.outlet), c) <==> exists x :: Has(w, x) && SameEnds(x, c)
    ensures Double(In(w, c.dst, c.inlet), c) <==> exists x :: Has(w, x) && SameEnds(x, c)
  {
    var a, b := Out(w, c.src, c.outlet), In(w, c.dst, c.inlet);
    assert OutsOk(w, c.src, c.outlet) && InsOk(w, c.dst, c.inlet);
    if Double(a, c) {
      var i :| 0 <= i < |a| && SameEnds(a[i], c);
      assert Has(w, a[i]);
    }
    if Double(b, c) {
      var i :| 0 <= i < |b| && SameEnds(b[i], c);
      assert b[i] in b && Has(w, b[i]);
    }
    if x :| Has(w, x) && SameEnds(x, c) {
      EndsAgree(w, x, x);
      assert x in a && x in b;
    }
  }

  /** A connection is made exactly when it is accepted, and then it is all that changes. */
  lemma ConnectIff(g: Objects, w: Wiring, c: Conn)
    requires Valid(w) && c.src < |w.outs| && c.dst < |w.ins|
    ensures Connect(g, w, c).1 <==> Accepts(g, w, c)
    ensures Valid(Connect(g, w, c).0)
    ensures forall x :: Has(Connect(g, w, c).0, x) <==> Has(w, x) || (Accepts(g, w, c) && x == Typed(g, c))
  {
    var w1 := Fitted(g, w, c);
    FitAt(w.outs, c.src, c.outlet);
    FitAt(w.ins, c.dst, c.inlet);
    FittedSame(g, w, c);
    SameLists(w, w1);
    DoubleIs(w1, c);
    hide Valid, Has, Double, Inserted, Fit;
    if Connect(g, w, c).1 {
      forall x | Has(w1, x) ensures !SameEnds(x, Typed(g, c)) {
        assert Has(w, x) && !SameEnds(x, c);
      }
      InsertedIs(w1, Typed(g, c));
    }
  }

  function Deleted(w: Wiring, c: Conn): Wiring {
    Wiring(Replace(w.outs, c.src, c.outlet, Remove(Out(w, c.src, c.outlet), c)),
           Replace(w.ins, c.dst, c.inlet, Remove(In(w, c.dst, c.inlet), c)))
  }

  /** Deleting takes a connection out of both its lists, and nothing else. */
  lemma DeletedIs(w: Wiring, c: Conn)
    requires Valid(w) && Has(w, c)
    ensures Valid(Deleted(w, c)) && forall x :: Has(Deleted(w, c), x) <==> Has(w, x) && x != c
    ensures forall o :: 0 <= o < |w.outs| ==> |Deleted(w, c).outs| == |w.outs| && |Deleted(w, c).outs[o]| == |w.outs[o]|
    ensures forall o :: 0 <= o < |w.ins| ==> |Deleted(w, c).ins| == |w.ins| && |Deleted(w, c).ins[o]| == |w.ins[o]|
    ensures |Out(Deleted(w, c), c.src, c.outlet)| < |Out(w, c.src, c.outlet)|
    ensures |In(Deleted(w, c), c.dst, c.inlet)| < |In(w, c.dst, c.inlet)|
  {
    hide At, Replace, NoDoubles, Remove, Valid;
    var w' := Deleted(w, c);
    var a, b := Out(w, c.src, c.outlet), In(w, c.dst, c.inlet);
    EndsAgree(w, c, c);
    ReplaceAt(w.outs, c.src, c.outlet, Remove(a, c));
    ReplaceAt(w.ins, c.dst, c.inlet, Remove(b, c));
    ListsValid(w);
    assert OutsOk(w, c.src, c.outlet) && InsOk(w, c.dst, c.inlet);
    RemoveIs(a, c);
    RemoveIs(b, c);
    forall o: int, k: int ensures ChangedAt(w, w', c, false, o, k) {
      assert OutsOk(w, o, k) && InsOk(w, o, k);
      assert Out(w', o, k) == if o == c.src && k == c.outlet then Remove(a, c) else Out(w, o, k);
      assert In(w', o, k) == if o == c.dst && k == c.inlet then Remove(b, c) else In(w, o, k);
    }
    Changed(w, w', c, false);
  }

  /** A new connection is put first in the list of its outlet and in that of its inlet; its kind is changed only from
      -1, which is no kind, to 0, which is anything, and only between valid objects.  The lists are otherwise
      unchanged. */
  lemma ConnectPrepends(g: Objects, w: Wiring, c: Conn)
    requires Valid(w) && c.src < |w.outs| && c.dst < |w.ins|
    ensures var w' := Connect(g, w, c).0;
            var d := c.(kind := if c.kind == -1 && !g.error(c.src) && !g.error(c.dst) then 0 else c.kind);
            forall o: int, k: int ::
              && Out(w', o, k) == (if Accepts(g, w, c) && o == c.src && k == c.outlet then [d] else []) + Out(w, o, k)
              && In(w', o, k) == (if Accepts(g, w, c) && o == c.dst && k == c.inlet then [d] else []) + In(w, o, k)
  {
    hide Valid, Accepts, Fitted, At;
    ConnectIff(g, w, c);
    FittedSame(g, w, c);
    var w1, d := Fitted(g, w, c), Typed(g, c);
    if Connect(g, w, c).1 {
      ReplaceAt(w1.outs, c.src, c.outlet, [d] + Out(w1, c.src, c.outlet));
      ReplaceAt(w1.ins, c.dst, c.inlet, [d] + In(w1, c.dst, c.inlet));
    }
  }

  /** An error object grows the port asked of it, unless the connection is hidden; no other number of ports changes. */
  lemma ConnectPorts(g: Objects, w: Wiring, c: Conn)
    requires c.src < |w.outs| && c.dst < |w.ins|
    ensures var w' := Connect(g, w, c).0;
            var hidden := c.kind <= -2 && (g.error(c.src) || g.error(c.dst));
            && |w'.outs| == |w.outs| && |w'.ins| == |w.ins|
            && (forall o :: 0 <= o < |w.outs| ==>
                  var n := |w.outs[o]|;
                  |w'.outs[o]| == if o == c.src && g.error(o) && !hidden && c.outlet >= n then c.outlet + 1 else n)
            && (forall o :: 0 <= o < |w.ins| ==>
                  var n := |w.ins[o]|;
                  |w'.ins[o]| == if o == c.dst && g.error(o) && !hidden && c.inlet >= n then c.inlet + 1 else n)
  {
  }

  /** Deleting a connection leaves the others of its two lists in their order, and all other lists as they are. */
  lemma DeletedKeepsOrder(w: Wiring, c: Conn)
    requires Valid(w) && Has(w, c)
    ensures exists i, j ::
              && 0 <= i < |Out(w, c.src, c.outlet)| && 0 <= j < |In(w, c.dst, c.inlet)|
              && Out(w, c.src, c.outlet)[i] == c && In(w, c.dst, c.inlet)[j] == c
              && Out(Deleted(w, c), c.src, c.outlet) == Out(w, c.src, c.outlet)[..i] + Out(w, c.src, c.outlet)[i + 1..]
              && In(Deleted(w, c), c.dst, c.inlet) == In(w, c.dst, c.inlet)[..j] + In(w, c.dst, c.inlet)[j + 1..]
    ensures forall o: int, k: int ::
              && (o != c.src || k != c.outlet ==> Out(Deleted(w, c), o, k) == Out(w, o, k))
              && (o != c.dst || k != c.inlet ==> In(Deleted(w, c), o, k) == In(w, o, k))
  {
    hide At, Valid, Remove;
    EndsAgree(w, c, c);
    var a, b := Out(w, c.src, c.outlet), In(w, c.dst, c.inlet);
    ReplaceAt(w.outs, c.src, c.outlet, Remove(a, c));
    ReplaceAt(w.ins, c.dst, c.inlet, Remove(b, c));
    var i := RemoveAt(a, c);
    var j := RemoveAt(b, c);
  }

  lemma {:induction false} RemoveAt(cs: seq<Conn>, c: Conn) returns (i: nat)
    requires c in cs
    ensures i < |cs| && cs[i] == c && Remove(cs, c) == cs[..i] + cs[i + 1..]
  {
    if cs[0] == c {
      i := 0;
    } else {
      i := RemoveAt(cs[1..], c);
      i := i + 1;
    }
  }

  // ---------------------------------------------------------------- ports

  /** The objects have the same numbers of ports. */
  predicate SameShape(w: Wiring, w': Wiring) {
    && |w'.outs| == |w.outs| && |w'.ins| == |w.ins|
    && (forall o :: 0 <= o < |w.outs| ==> |w'.outs[o]| == |w.outs[o]|)
    && (forall o :: 0 <= o < |w.ins| ==> |w'.ins[o]| == |w.ins[o]|)
  }

  lemma DeletedShape(w: Wiring, c: Conn)
    requires Valid(w) && Has(w, c)
    ensures SameShape(w, Deleted(w, c))
  {
    hide Valid, Has;
    DeletedIs(w, c);
  }

  lemma ConnectShape(g: Objects, w: Wiring, c: Conn)
    requires Valid(w) && c.src < |w.outs| && c.dst < |w.ins| && c.outlet < |w.outs[c.src]| && c.inlet < |w.ins[c.dst]|
    ensures SameShape(w, Connect(g, w, c).0)
  {
    if Connect(g, w, c).1 {
      ReplaceAt(w.outs, c.src, c.outlet, [Typed(g, c)] + Out(w, c.src, c.outlet));
      ReplaceAt(w.ins, c.dst, c.inlet, [Typed(g, c)] + In(w, c.dst, c.inlet));
    }
  }

  /** Dropping ports without connections, or adding ports, changes no connection. */
  lemma ResizeSame(lists: seq<seq<seq<Conn>>>, o: nat, n: nat)
    requires o < |lists| && forall k :: n <= k < |lists[o]| ==> lists[o][k] == []
    ensures forall x, y :: At(lists[o := Resized(lists[o], n)], x, y) == At(lists, x, y)
  {
  }

  // ---------------------------------------------------------------- redefinition

  /** A connection from the old object can be taken over by object `b`. */
  predicate OutOkay(g: Objects, w: Wiring, c: Conn, b: nat)
    requires b < |w.outs|
  {
    c.kind > HIDDEN && c.outlet < |w.outs[b]| && g.fits(b, c.outlet, c.dst, c.inlet)
  }

  predicate InOkay(g: Objects, w: Wiring, c: Conn, b: nat)
    requires b < |w.ins|
  {
    c.kind > HIDDEN && c.inlet < |w.ins[b]| && g.fits(c.src, c.outlet, b, c.inlet)
  }

  function OutImage(g: Objects, c: Conn, b: nat): Conn {
    Typed(g, c.(src := b))
  }

  function InImage(g: Objects, c: Conn, b: nat): Conn {
    Typed(g, c.(dst := b))
  }

  ghost predicate OutFrom(g: Objects, w0: Wiring, w: Wiring, a: nat, b: nat, y: Conn, x: Conn)
    requires b < |w0.outs|
  {
    Has(w0, y) && y.src == a && !Has(w, y) && OutOkay(g, w0, y, b) && x == OutImage(g, y, b)
  }

  ghost predicate InFrom(g: Objects, w0: Wiring, w: Wiring, a: nat, b: nat, y: Conn, x: Conn)
    requires b < |w0.ins|
  {
    Has(w0, y) && y.dst == a && !Has(w, y) && InOkay(g, w0, y, b) && x == InImage(g, y, b)
  }

  ghost predicate FromOut(g: Objects, w0: Wiring, w: Wiring, a: nat, b: nat, x: Conn)
    requires b < |w0.outs|
  {
    exists y :: OutFrom(g, w0, w, a, b, y, x)
  }

  ghost predicate FromIn(g: Objects, w0: Wiring, w: Wiring, a: nat, b: nat, x: Conn)
    requires b < |w0.ins|
  {
    exists y :: InFrom(g, w0, w, a, b, y, x)
  }

  /** While the outlets of `a` are moved to `b`: what has left `a` is at `b` if `b` can take it. */
  ghost predicate MovingOut(g: Objects, w0: Wiring, w: Wiring, a: nat, b: nat) {
    && Valid(w0) && Valid(w) && SameShape(w0, w) && a < |w0.outs| && b < |w0.outs| && a != b
    && (forall x: Conn :: Has(w0, x) ==> x.src != b)
    && (forall x: Conn :: Has(w, x) && x.src == a ==> Has(w0, x))
    && (forall x: Conn :: x.src != a && x.src != b ==> (Has(w, x) <==> Has(w0, x)))
    && (forall x: Conn :: x.src == b ==> (Has(w, x) <==> FromOut(g, w0, w, a, b, x)))
  }

  ghost predicate MovingIn(g: Objects, w0: Wiring, w: Wiring, a: nat, b: nat) {
    && Valid(w0) && Valid(w) && SameShape(w0, w) && a < |w0.ins| && b < |w0.ins| && a != b
    && (forall x: Conn :: Has(w0, x) ==> x.dst != b)
    && (forall x: Conn :: Has(w, x) && x.dst == a ==> Has(w0, x))
    && (forall x: Conn :: x.dst != a && x.dst != b ==> (Has(w, x) <==> Has(w0, x)))
    && (forall x: Conn :: x.dst == b ==> (Has(w, x) <==> FromIn(g, w0, w, a, b, x)))
  }

  /** One connection moved: offered to `b`, then deleted. */
  function MoveOut(g: Objects, w: Wiring, b: nat, c: Conn): Wiring
    requires b < |w.outs| && c.dst < |w.ins|
  {
    Deleted(if c.outlet < |w.outs[b]| && c.kind > HIDDEN then Connect(g, w, c.(src := b)).0 else w, c)
  }

  function MoveIn(g: Objects, w: Wiring, b: nat, c: Conn): Wiring
    requires b < |w.ins| && c.src < |w.outs|
  {
    Deleted(if c.inlet < |w.ins[b]| && c.kind > HIDDEN then Connect(g, w, c.(dst := b)).0 else w, c)
  }

  lemma MoveOutIs(g: Objects, w0: Wiring, w: Wiring, a: nat, b: nat, c: Conn)
    requires MovingOut(g, w0, w, a, b) && Has(w, c) && c.src == a
    ensures c.dst < |w.ins| && Valid(MoveOut(g, w, b, c)) && SameShape(w, MoveOut(g, w, b, c))
    ensures |Out(MoveOut(g, w, b, c), a, c.outlet)| < |Out(w, a, c.outlet)|
    ensures forall x :: Has(MoveOut(g, w, b, c), x) <==>
              x != c && (Has(w, x) || (OutOkay(g, w0, c, b) && x == OutImage(g, c, b)))
  {
    EndsAgree(w, c, c);
    var d := c.(src := b);
    hide Valid, Has, Typed, Connect, Deleted;
    var taken := c.outlet < |w.outs[b]| && c.kind > HIDDEN;
    var w1 := if taken then Connect(g, w, d).0 else w;
    if taken {
      ConnectIff(g, w, d);
      ConnectShape(g, w, d);
      forall x | Has(w, x) && SameEnds(x, d) ensures false {
        assert FromOut(g, w0, w, a, b, x);
        var y :| OutFrom(g, w0, w, a, b, y, x);
        TypedEnds(g, y.(src := b));
        EndsAgree(w0, y, c);
      }
      assert Accepts(g, w, d) <==> OutOkay(g, w0, c, b);
    }
    TypedEnds(g, d);
    DeletedIs(w1, c);
    DeletedShape(w1, c);
    SameOutList(g, w, d, c, taken);
  }

  lemma TypedEnds(g: Objects, c: Conn)
    ensures SameEnds(Typed(g, c), c)
  {
  }

  /** Connecting at one outlet leaves the list of another alone. */
  lemma SameOutList(g: Objects, w: Wiring, d: Conn, c: Conn, taken: bool)
    requires Valid(w) && d.src < |w.outs| && d.dst < |w.ins| && c.src != d.src
    requires taken ==> d.outlet < |w.outs[d.src]| && d.inlet < |w.ins[d.dst]|
    ensures var w1 := if taken then Connect(g, w, d).0 else w; Out(w1, c.src, c.outlet) == Out(w, c.src, c.outlet)
  {
  }

  lemma SameInList(g: Objects, w: Wiring, d: Conn, c: Conn, taken: bool)
    requires Valid(w) && d.src < |w.outs| && d.dst < |w.ins| && c.dst != d.dst
    requires taken ==> d.outlet < |w.outs[d.src]| && d.inlet < |w.ins[d.dst]|
    ensures var w1 := if taken then Connect(g, w, d).0 else w; In(w1, c.dst, c.inlet) == In(w, c.dst, c.inlet)
  {
  }

  lemma MoveInIs(g: Objects, w0: Wiring, w: Wiring, a: nat, b: nat, c: Conn)
    requires MovingIn(g, w0, w, a, b) && Has(w, c) && c.dst == a
    ensures c.src < |w.outs| && Valid(MoveIn(g, w, b, c)) && SameShape(w, MoveIn(g, w, b, c))
    ensures |In(MoveIn(g, w, b, c), a, c.inlet)| < |In(w, a, c.inlet)|
    ensures forall x :: Has(MoveIn(g, w, b, c), x) <==>
              x != c && (Has(w, x) || (InOkay(g, w0, c, b) && x == InImage(g, c, b)))
  {
    EndsAgree(w, c, c);
    var d := c.(dst := b);
    hide Valid, Has, Typed, Connect, Deleted;
    var taken := c.inlet < |w.ins[b]| && c.kind > HIDDEN;
    var w1 := if taken then Connect(g, w, d).0 else w;
    if taken {
      ConnectIff(g, w, d);
      ConnectShape(g, w, d);
      forall x | Has(w, x) && SameEnds(x, d) ensures false {
        assert FromIn(g, w0, w, a, b, x);
        var y :| InFrom(g, w0, w, a, b, y, x);
        TypedEnds(g, y.(dst := b));
        EndsAgree(w0, y, c);
      }
      assert Accepts(g, w, d) <==> InOkay(g, w0, c, b);
    }
    TypedEnds(g, d);
    DeletedIs(w1, c);
    DeletedShape(w1, c);
    SameInList(g, w, d, c, taken);
  }

  /** Each connection of the old object's outlets that is moved keeps the account straight. */
  lemma OutStep(g: Objects, w0: Wiring, w: Wiring, a: nat, b: nat, c: Conn)
    requires MovingOut(g, w0, w, a, b) && Has(w, c) && c.src == a
    ensures c.dst < |w.ins| && MovingOut(g, w0, MoveOut(g, w, b, c), a, b)
  {
    hide Valid, Has, MoveOut, OutOkay, Typed;
    MoveOutIs(g, w0, w, a, b, c);
    var w' := MoveOut(g, w, b, c);
    TypedEnds(g, c.(src := b));
    forall x: Conn | x.src == b ensures Has(w', x) <==> FromOut(g, w0, w', a, b, x) {
      assert Has(w, x) <==> FromOut(g, w0, w, a, b, x);
      if FromOut(g, w0, w, a, b, x) {
        var y :| OutFrom(g, w0, w, a, b, y, x);
        assert OutFrom(g, w0, w', a, b, y, x);
      }
      if OutOkay(g, w0, c, b) && x == OutImage(g, c, b) {
        assert OutFrom(g, w0, w', a, b, c, x);
      }
      if FromOut(g, w0, w', a, b, x) {
        var y :| OutFrom(g, w0, w', a, b, y, x);
        assert y != c ==> OutFrom(g, w0, w, a, b, y, x);
      }
    }
  }

  lemma InStep(g: Objects, w0: Wiring, w: Wiring, a: nat, b: nat, c: Conn)
    requires MovingIn(g, w0, w, a, b) && Has(w, c) && c.dst == a
    ensures c.src < |w.outs| && MovingIn(g, w0, MoveIn(g, w, b, c), a, b)
  {
    hide Valid, Has, MoveIn, InOkay, Typed;
    MoveInIs(g, w0, w, a, b, c);
    var w' := MoveIn(g, w, b, c);
    TypedEnds(g, c.(dst := b));
    forall x: Conn | x.dst == b ensures Has(w', x) <==> FromIn(g, w0, w', a, b, x) {
      assert Has(w, x) <==> FromIn(g, w0, w, a, b, x);
      if FromIn(g, w0, w, a, b, x) {
        var y :| InFrom(g, w0, w, a, b, y, x);
        assert InFrom(g, w0, w', a, b, y, x);
      }
      if InOkay(g, w0, c, b) && x == InImage(g, c, b) {
        assert InFrom(g, w0, w', a, b, c, x);
      }
      if FromIn(g, w0, w', a, b, x) {
        var y :| InFrom(g, w0, w', a, b, y, x);
        assert y != c ==> InFrom(g, w0, w, a, b, y, x);
      }
    }
  }

  /** What becomes of connection `y` when object `a` is redefined as `b`: `x`.  A connection from `a` to itself has
      to be accepted twice, first from `b` to `a` and then from `b` to itself. */
  ghost predicate Renamed(g: Objects, w: Wiring, a: nat, b: nat, y: Conn, x: Conn)
    requires b < |w.outs| && b < |w.ins|
  {
    Has(w, y) &&
    if y.src == a && y.dst == a then
      OutOkay(g, w, y, b) && InOkay(g, w, OutImage(g, y, b), b) && x == InImage(g, OutImage(g, y, b), b)
    else if y.src == a then OutOkay(g, w, y, b) && x == OutImage(g, y, b)
    else y.dst == a && InOkay(g, w, y, b) && x == InImage(g, y, b)
  }

  /** The connections after a redefinition: those of other objects, and the ones taken over. */
  ghost predicate Redefined(g: Objects, w: Wiring, w': Wiring, a: nat, b: nat, x: Conn)
    requires b < |w.outs| && b < |w.ins|
  {
    Has(w', x) <==> (Has(w, x) && x.src != a && x.dst != a) || exists y :: Renamed(g, w, a, b, y, x)
  }

  lemma StartsOut(g: Objects, w: Wiring, a: nat, b: nat)
    requires Valid(w) && a < |w.outs| && b < |w.outs| && a != b && forall x :: Has(w, x) ==> x.src != b && x.dst != b
    ensures MovingOut(g, w, w, a, b)
  {
    hide Valid, Has, OutOkay;
  }

  /** Between the two halves of a redefinition, the old object has no outgoing connection and the new one no
      incoming. */
  lemma StartsIn(g: Objects, w0: Wiring, w: Wiring, a: nat, b: nat)
    requires MovingOut(g, w0, w, a, b) && (forall x :: Has(w, x) ==> x.src != a)
    requires forall x :: Has(w0, x) ==> x.dst != b
    ensures MovingIn(g, w, w, a, b)
  {
    hide Valid, Has, OutOkay, InOkay, Typed;
    ListsValid(w0);
    forall x | Has(w, x) ensures x.dst != b {
      if x.src == b {
        assert FromOut(g, w0, w, a, b, x);
        var y :| OutFrom(g, w0, w, a, b, y, x);
        TypedEnds(g, y.(src := b));
      } else {
        assert Has(w0, x);
      }
    }
  }

  lemma EndsIn(g: Objects, w0: Wiring, w1: Wiring, w: Wiring, a: nat, b: nat, x: Conn)
    requires MovingOut(g, w0, w1, a, b) && (forall x :: Has(w1, x) ==> x.src != a)
    requires MovingIn(g, w1, w, a, b) && (forall x :: Has(w, x) ==> x.dst != a)
    requires forall x :: Has(w0, x) ==> x.src != b && x.dst != b
    ensures b < |w0.outs| && b < |w0.ins| && Redefined(g, w0, w, a, b, x)
  {
    hide Valid, Has, Typed;
    ListsValid(w0);
    if x.dst == b {
      assert Has(w, x) <==> FromIn(g, w1, w, a, b, x);
      if FromIn(g, w1, w, a, b, x) {
        var y :| InFrom(g, w1, w, a, b, y, x);
        if y.src == b {
          assert FromOut(g, w0, w1, a, b, y);
          var z :| OutFrom(g, w0, w1, a, b, z, y);
          TypedEnds(g, z.(src := b));
          assert Renamed(g, w0, a, b, z, x);
        } else {
          assert Renamed(g, w0, a, b, y, x);
        }
      }
      if z :| Renamed(g, w0, a, b, z, x) {
        TypedEnds(g, z.(src := b));
        TypedEnds(g, z.(dst := b));
        var y := if z.src == a then OutImage(g, z, b) else z;
        if z.src == a {
          assert z.dst == a;
          assert OutFrom(g, w0, w1, a, b, z, y);
          assert FromOut(g, w0, w1, a, b, y);
        }
        assert InFrom(g, w1, w, a, b, y, x);
      }
    } else if x.dst != a {
      assert Has(w, x) <==> Has(w1, x);
      if x.src == b {
        assert Has(w1, x) <==> FromOut(g, w0, w1, a, b, x);
        if FromOut(g, w0, w1, a, b, x) {
          var z :| OutFrom(g, w0, w1, a, b, z, x);
          TypedEnds(g, z.(src := b));
          assert Renamed(g, w0, a, b, z, x);
        }
        if z :| Renamed(g, w0, a, b, z, x) {
          TypedEnds(g, z.(src := b));
          TypedEnds(g, z.(dst := b));
          TypedEnds(g, OutImage(g, z, b).(dst := b));
          assert OutFrom(g, w0, w1, a, b, z, x);
        }
      } else {
        if z :| Renamed(g, w0, a, b, z, x) {
          TypedEnds(g, z.(src := b));
          TypedEnds(g, z.(dst := b));
          TypedEnds(g, OutImage(g, z, b).(dst := b));
        }
      }
    } else {
      if z :| Renamed(g, w0, a, b, z, x) {
        TypedEnds(g, z.(src := b));
        TypedEnds(g, z.(dst := b));
        TypedEnds(g, OutImage(g, z, b).(dst := b));
      }
    }
  }

  // ---------------------------------------------------------------- the order a redefinition leaves

  function AtOutlet(cs: seq<Conn>, o: int, k: int): seq<Conn> {
    if cs == [] then [] else (if cs[0].src == o && cs[0].outlet == k then [cs[0]] else []) + AtOutlet(cs[1..], o, k)
  }

  function AtInlet(cs: seq<Conn>, o: int, k: int): seq<Conn> {
    if cs == [] then [] else (if cs[0].dst == o && cs[0].inlet == k then [cs[0]] else []) + AtInlet(cs[1..], o, k)
  }

  function Keep(cs: seq<Conn>, gone: set<Conn>): seq<Conn> {
    if cs == [] then [] else (if cs[0] in gone then [] else [cs[0]]) + Keep(cs[1..], gone)
  }

  /** In every list of `w'` the connections `landed` that belong there come first, and then those of `w` that are not
      gone, each in order. */
  ghost predicate Reordered(w: Wiring, w': Wiring, landed: seq<Conn>, gone: set<Conn>) {
    forall o: int, k: int ::
      && Out(w', o, k) == AtOutlet(landed, o, k) + Keep(Out(w, o, k), gone)
      && In(w', o, k) == AtInlet(landed, o, k) + Keep(In(w, o, k), gone)
  }

  /** All lists of an object, one after the other. */
  function Joined(lists: seq<seq<Conn>>): seq<Conn> {
    if lists == [] then [] else Joined(lists[..|lists| - 1]) + lists[|lists| - 1]
  }

  /** What `b` takes over of the connections `cs`, the last one first. */
  function TakenOut(g: Objects, w: Wiring, b: nat, cs: seq<Conn>): seq<Conn>
    requires b < |w.outs|
  {
    if cs == [] then []
    else
      var c := cs[|cs| - 1];
      (if OutOkay(g, w, c, b) then [OutImage(g, c, b)] else []) + TakenOut(g, w, b, cs[..|cs| - 1])
  }

  function TakenIn(g: Objects, w: Wiring, b: nat, cs: seq<Conn>): seq<Conn>
    requires b < |w.ins|
  {
    if cs == [] then []
    else
      var c := cs[|cs| - 1];
      (if InOkay(g, w, c, b) then [InImage(g, c, b)] else []) + TakenIn(g, w, b, cs[..|cs| - 1])
  }

  function Elements(cs: seq<Conn>): set<Conn> {
    set c | c in cs
  }

  /** The outlets of `a` are moved to `b`, from the first outlet to the last and from the first connection to the last:
      so each one taken over comes before those taken over earlier. */
  ghost predicate OutletsMoved(g: Objects, w: Wiring, w': Wiring, a: nat, b: nat) {
    && a < |w.outs| && b < |w.outs|
    && Reordered(w, w', TakenOut(g, w, b, Joined(w.outs[a])), Elements(Joined(w.outs[a])))
  }

  ghost predicate InletsMoved(g: Objects, w: Wiring, w': Wiring, a: nat, b: nat) {
    && a < |w.ins| && b < |w.ins|
    && Reordered(w, w', TakenIn(g, w, b, Joined(w.ins[a])), Elements(Joined(w.ins[a])))
  }

  lemma {:induction false} KeepAll(cs: seq<Conn>)
    ensures Keep(cs, {}) == cs
  {
    if cs != [] {
      KeepAll(cs[1..]);
    }
  }

  lemma {:induction false} KeepIn(cs: seq<Conn>, gone: set<Conn>)
    ensures forall c :: c in Keep(cs, gone) <==> c in cs && c !in gone
  {
    if cs != [] {
      KeepIn(cs[1..], gone);
    }
  }

  lemma {:induction false} RemoveNone(cs: seq<Conn>, p: Conn)
    requires p !in cs
    ensures Remove(cs, p) == cs
  {
    if cs != [] {
      RemoveNone(cs[1..], p);
    }
  }

  lemma RemoveFirst(c: Conn, cs: seq<Conn>, p: Conn)
    ensures Remove([c] + cs, p) == if c == p then cs else [c] + Remove(cs, p)
  {
    assert ([c] + cs)[0] == c && ([c] + cs)[1..] == cs;
  }

  lemma {:induction false} KeepLess(cs: seq<Conn>, gone: set<Conn>, p: Conn)
    requires NoDoubles(cs)
    ensures Keep(cs, gone + {p}) == Remove(Keep(cs, gone), p)
  {
    hide Remove;
    if cs == [] {
      RemoveNone([], p);
    } else {
      var rest, k := cs[1..], Keep(cs[1..], gone);
      assert forall i :: 0 <= i < |rest| ==> rest[i] == cs[i + 1];
      KeepLess(rest, gone, p);
      RemoveFirst(cs[0], k, p);
      if cs[0] == p {
        assert p !in rest;
        KeepIn(rest, gone);
        RemoveNone(k, p);
        assert [] + k == k;
      } else {
        assert [] + k == k && [] + Remove(k, p) == Remove(k, p);
      }
    }
  }

  lemma {:induction false} RemoveBehind(a: seq<Conn>, b: seq<Conn>, p: Conn)
    requires p !in a
    ensures Remove(a + b, p) == a + Remove(b, p)
  {
    hide Remove;
    if a == [] {
      assert a + b == b;
    } else {
      RemoveBehind(a[1..], b, p);
      RemoveFirst(a[0], a[1..] + b, p);
      assert a + b == [a[0]] + (a[1..] + b);
      assert [a[0]] + (a[1..] + Remove(b, p)) == a + Remove(b, p);
    }
  }

  lemma {:induction false} AtPortsIn(cs: seq<Conn>, o: int, k: int)
    ensures forall c :: c in AtOutlet(cs, o, k) || c in AtInlet(cs, o, k) ==> c in cs
  {
    if cs != [] {
      AtPortsIn(cs[1..], o, k);
    }
  }

  lemma ReorderedStart(w: Wiring)
    ensures Reordered(w, w, [], {})
  {
    hide At, Keep;
    forall o: int, k: int ensures Keep(Out(w, o, k), {}) == Out(w, o, k) && Keep(In(w, o, k), {}) == In(w, o, k) {
      KeepAll(Out(w, o, k));
      KeepAll(In(w, o, k));
    }
  }

  /** `w'` is `w` with `d`, if it is made, in front and without `p`. */
  ghost predicate Exchanged(w: Wiring, w': Wiring, made: bool, d: Conn, p: Conn) {
    forall o: int, k: int ::
      && Out(w', o, k) == Remove((if made && o == d.src && k == d.outlet then [d] else []) + Out(w, o, k), p)
      && In(w', o, k) == Remove((if made && o == d.dst && k == d.inlet then [d] else []) + In(w, o, k), p)
  }

  lemma ReorderedStep(w0: Wiring, w: Wiring, w': Wiring, landed: seq<Conn>, gone: set<Conn>, made: bool, d: Conn,
                      p: Conn)
    requires Valid(w0) && Reordered(w0, w, landed, gone) && Exchanged(w, w', made, d, p) && p != d && p !in landed
    ensures Reordered(w0, w', if made then [d] + landed else landed, gone + {p})
  {
    hide At, Keep, Remove, Valid, NoDoubles;
    ListsValid(w0);
    var more := if made then [d] + landed else landed;
    assert made ==> more[0] == d && more[1..] == landed;
    forall o: int, k: int
      ensures Out(w', o, k) == AtOutlet(more, o, k) + Keep(Out(w0, o, k), gone + {p})
      ensures In(w', o, k) == AtInlet(more, o, k) + Keep(In(w0, o, k), gone + {p})
    {
      assert OutsOk(w0, o, k) && InsOk(w0, o, k);
      AtPortsIn(landed, o, k);
      KeepLess(Out(w0, o, k), gone, p);
      KeepLess(In(w0, o, k), gone, p);
      var x, y := Keep(Out(w0, o, k), gone), Keep(In(w0, o, k), gone);
      var a := (if made && o == d.src && k == d.outlet then [d] else []) + AtOutlet(landed, o, k);
      var b := (if made && o == d.dst && k == d.inlet then [d] else []) + AtInlet(landed, o, k);
      RemoveBehind(a, x, p);
      RemoveBehind(b, y, p);
      Regroup(if made && o == d.src && k == d.outlet then [d] else [], AtOutlet(landed, o, k), x);
      Regroup(if made && o == d.dst && k == d.inlet then [d] else [], AtInlet(landed, o, k), y);
      assert a == AtOutlet(more, o, k) && b == AtInlet(more, o, k);
    }
  }

  lemma Regroup(a: seq<Conn>, b: seq<Conn>, c: seq<Conn>)
    ensures (a + b) + c == a + (b + c)
  {
  }

  /** Deleting is removing from every list, as it is in no other. */
  lemma DeletedRemoves(w: Wiring, c: Conn)
    requires Valid(w) && Has(w, c)
    ensures forall o: int, k: int ::
              Out(Deleted(w, c), o, k) == Remove(Out(w, o, k), c) && In(Deleted(w, c), o, k) == Remove(In(w, o, k), c)
  {
    hide At, Valid, Remove, NoDoubles;
    EndsAgree(w, c, c);
    var a, b := Out(w, c.src, c.outlet), In(w, c.dst, c.inlet);
    ReplaceAt(w.outs, c.src, c.outlet, Remove(a, c));
    ReplaceAt(w.ins, c.dst, c.inlet, Remove(b, c));
    ListsValid(w);
    forall o: int, k: int
      ensures Out(Deleted(w, c), o, k) == Remove(Out(w, o, k), c) && In(Deleted(w, c), o, k) == Remove(In(w, o, k), c)
    {
      assert OutsOk(w, o, k) && InsOk(w, o, k);
      if o != c.src || k != c.outlet { RemoveNone(Out(w, o, k), c); }
      if o != c.dst || k != c.inlet { RemoveNone(In(w, o, k), c); }
    }
  }

  /** `w'` has `d` in front, if it is made. */
  ghost predicate Prepended(w: Wiring, w': Wiring, made: bool, d: Conn) {
    forall o: int, k: int ::
      && Out(w', o, k) == (if made && o == d.src && k == d.outlet then [d] else []) + Out(w, o, k)
      && In(w', o, k) == (if made && o == d.dst && k == d.inlet then [d] else []) + In(w, o, k)
  }

  lemma PrependedNone(w: Wiring, d: Conn)
    ensures Prepended(w, w, false, d)
  {
    hide At;
    assert forall o: int, k: int :: [] + Out(w, o, k) == Out(w, o, k) && [] + In(w, o, k) == In(w, o, k);
  }

  lemma ConnectPrepended(g: Objects, w: Wiring, c: Conn)
    requires Valid(w) && c.src < |w.outs| && c.dst < |w.ins|
    ensures Prepended(w, Connect(g, w, c).0, Accepts(g, w, c), Typed(g, c))
  {
    hide Valid, Accepts, Connect, At;
    ConnectPrepends(g, w, c);
  }

  lemma ThenDeleted(w: Wiring, w1: Wiring, made: bool, d: Conn, c: Conn)
    requires Valid(w1) && Has(w1, c) && Prepended(w, w1, made, d)
    ensures Exchanged(w, Deleted(w1, c), made, d, c)
  {
    hide Valid, Has, Deleted, At, Remove;
    DeletedRemoves(w1, c);
  }

  lemma MoveOutExchanges(g: Objects, w0: Wiring, w: Wiring, a: nat, b: nat, c: Conn)
    requires MovingOut(g, w0, w, a, b) && Has(w, c) && c.src == a
    ensures c.dst < |w.ins|
    ensures Exchanged(w, MoveOut(g, w, b, c), OutOkay(g, w0, c, b), OutImage(g, c, b), c)
  {
    hide Valid, Has, Typed, Connect, Deleted, Prepended, Exchanged, Accepts, MovingOut;
    OutShape(g, w0, w, a, b);
    EndsAgree(w, c, c);
    var d := c.(src := b);
    var taken := c.outlet < |w.outs[b]| && c.kind > HIDDEN;
    var w1 := if taken then Connect(g, w, d).0 else w;
    if taken {
      ConnectIff(g, w, d);
      ConnectPrepended(g, w, d);
      AcceptsOut(g, w0, w, a, b, c);
    } else {
      PrependedNone(w, OutImage(g, c, b));
    }
    ThenDeleted(w, w1, OutOkay(g, w0, c, b), OutImage(g, c, b), c);
  }

  lemma AcceptsOut(g: Objects, w0: Wiring, w: Wiring, a: nat, b: nat, c: Conn)
    requires MovingOut(g, w0, w, a, b) && Has(w, c) && c.src == a && c.outlet < |w.outs[b]| && c.kind > HIDDEN
    ensures c.dst < |w.ins| && (Accepts(g, w, c.(src := b)) <==> OutOkay(g, w0, c, b))
  {
    EndsAgree(w, c, c);
    var d := c.(src := b);
    hide Valid, Has, Typed;
    forall x | Has(w, x) && SameEnds(x, d) ensures false {
      assert FromOut(g, w0, w, a, b, x);
      var y :| OutFrom(g, w0, w, a, b, y, x);
      TypedEnds(g, y.(src := b));
      EndsAgree(w0, y, c);
    }
  }

  lemma MoveInExchanges(g: Objects, w0: Wiring, w: Wiring, a: nat, b: nat, c: Conn)
    requires MovingIn(g, w0, w, a, b) && Has(w, c) && c.dst == a
    ensures c.src < |w.outs|
    ensures Exchanged(w, MoveIn(g, w, b, c), InOkay(g, w0, c, b), InImage(g, c, b), c)
  {
    hide Valid, Has, Typed, Connect, Deleted, Prepended, Exchanged, Accepts, MovingIn;
    InShape(g, w0, w, a, b);
    EndsAgree(w, c, c);
    var d := c.(dst := b);
    var taken := c.inlet < |w.ins[b]| && c.kind > HIDDEN;
    var w1 := if taken then Connect(g, w, d).0 else w;
    if taken {
      ConnectIff(g, w, d);
      ConnectPrepended(g, w, d);
      AcceptsIn(g, w0, w, a, b, c);
    } else {
      PrependedNone(w, InImage(g, c, b));
    }
    ThenDeleted(w, w1, InOkay(g, w0, c, b), InImage(g, c, b), c);
  }

  lemma AcceptsIn(g: Objects, w0: Wiring, w: Wiring, a: nat, b: nat, c: Conn)
    requires MovingIn(g, w0, w, a, b) && Has(w, c) && c.dst == a && c.inlet < |w.ins[b]| && c.kind > HIDDEN
    ensures c.src < |w.outs| && (Accepts(g, w, c.(dst := b)) <==> InOkay(g, w0, c, b))
  {
    EndsAgree(w, c, c);
    var d := c.(dst := b);
    hide Valid, Has, Typed;
    forall x | Has(w, x) && SameEnds(x, d) ensures false {
      assert FromIn(g, w0, w, a, b, x);
      var y :| InFrom(g, w0, w, a, b, y, x);
      TypedEnds(g, y.(dst := b));
      EndsAgree(w0, y, c);
    }
  }

  /** While the outlets of `a` are moved to `b`: `done` are the connections moved, and the lists from outlet `i` on are
      untouched. */
  ghost predicate OutAt(g: Objects, w0: Wiring, w: Wiring, a: nat, b: nat, done: seq<Conn>, i: nat) {
    && a < |w0.outs| && b < |w0.outs|
    && Reordered(w0, w, TakenOut(g, w0, b, done), Elements(done))
    && forall k: int :: k >= i ==> Out(w, a, k) == Out(w0, a, k)
  }

  lemma {:induction false} TakenOutIs(g: Objects, w: Wiring, b: nat, cs: seq<Conn>)
    requires b < |w.outs|
    ensures forall c :: c in TakenOut(g, w, b, cs) ==> c.src == b
  {
    if cs != [] {
      TakenOutIs(g, w, b, cs[..|cs| - 1]);
    }
  }

  lemma OutAtStep(g: Objects, w0: Wiring, w: Wiring, a: nat, b: nat, done: seq<Conn>, i: nat, p: Conn)
    requires MovingOut(g, w0, w, a, b) && OutAt(g, w0, w, a, b, done, i + 1) && Has(w, p) && p.src == a && p.outlet == i
    ensures p.dst < |w.ins| && OutAt(g, w0, MoveOut(g, w, b, p), a, b, done + [p], i + 1)
    ensures Out(MoveOut(g, w, b, p), a, i) == Remove(Out(w, a, i), p)
  {
    hide Valid, MovingOut, MoveOut, Reordered, Remove, Typed, At, OutOkay;
    OutShape(g, w0, w, a, b);
    MoveOutExchanges(g, w0, w, a, b, p);
    TakenOutIs(g, w0, b, done);
    TypedEnds(g, p.(src := b));
    MovingValidOut(g, w0, w, a, b);
    var w', okay, image := MoveOut(g, w, b, p), OutOkay(g, w0, p, b), OutImage(g, p, b);
    ReorderedStep(w0, w, w', TakenOut(g, w0, b, done), Elements(done), okay, image, p);
    assert (done + [p])[..|done|] == done;
    assert [] + TakenOut(g, w0, b, done) == TakenOut(g, w0, b, done);
    assert Elements(done + [p]) == Elements(done) + {p};
    ListsValid(w);
    forall k: int | k >= i ensures Out(w', a, k) == Remove(Out(w, a, k), p) {
      assert [] + Out(w, a, k) == Out(w, a, k);
    }
    forall k: int | k >= i + 1 ensures Out(w', a, k) == Out(w0, a, k) {
      assert OutsOk(w, a, k);
      RemoveNone(Out(w, a, k), p);
    }
  }

  lemma MovingValidOut(g: Objects, w0: Wiring, w: Wiring, a: nat, b: nat)
    requires MovingOut(g, w0, w, a, b)
    ensures Valid(w0)
  {
  }

  lemma NoneMovedOut(g: Objects, w: Wiring, a: nat, b: nat)
    requires a < |w.outs| && b < |w.outs|
    ensures OutAt(g, w, w, a, b, [], 0)
  {
    hide Reordered;
    ReorderedStart(w);
    assert Elements([]) == {};
  }

  /** While the inlets of `a` are moved to `b`: `done` are the connections moved, and the lists from inlet `i` on are
      untouched. */
  ghost predicate InAt(g: Objects, w0: Wiring, w: Wiring, a: nat, b: nat, done: seq<Conn>, i: nat) {
    && a < |w0.ins| && b < |w0.ins|
    && Reordered(w0, w, TakenIn(g, w0, b, done), Elements(done))
    && forall k: int :: k >= i ==> In(w, a, k) == In(w0, a, k)
  }

  lemma {:induction false} TakenInIs(g: Objects, w: Wiring, b: nat, cs: seq<Conn>)
    requires b < |w.ins|
    ensures forall c :: c in TakenIn(g, w, b, cs) ==> c.dst == b
  {
    if cs != [] {
      TakenInIs(g, w, b, cs[..|cs| - 1]);
    }
  }

  lemma InAtStep(g: Objects, w0: Wiring, w: Wiring, a: nat, b: nat, done: seq<Conn>, i: nat, p: Conn)
    requires MovingIn(g, w0, w, a, b) && InAt(g, w0, w, a, b, done, i + 1) && Has(w, p) && p.dst == a && p.inlet == i
    ensures p.src < |w.outs| && InAt(g, w0, MoveIn(g, w, b, p), a, b, done + [p], i + 1)
    ensures In(MoveIn(g, w, b, p), a, i) == Remove(In(w, a, i), p)
  {
    hide Valid, MovingIn, MoveIn, Reordered, Remove, Typed, At, InOkay;
    InShape(g, w0, w, a, b);
    MoveInExchanges(g, w0, w, a, b, p);
    TakenInIs(g, w0, b, done);
    TypedEnds(g, p.(dst := b));
    MovingValidIn(g, w0, w, a, b);
    var w', okay, image := MoveIn(g, w, b, p), InOkay(g, w0, p, b), InImage(g, p, b);
    ReorderedStep(w0, w, w', TakenIn(g, w0, b, done), Elements(done), okay, image, p);
    assert (done + [p])[..|done|] == done;
    assert [] + TakenIn(g, w0, b, done) == TakenIn(g, w0, b, done);
    assert Elements(done + [p]) == Elements(done) + {p};
    ListsValid(w);
    forall k: int | k >= i ensures In(w', a, k) == Remove(In(w, a, k), p) {
      assert [] + In(w, a, k) == In(w, a, k);
    }
    forall k: int | k >= i + 1 ensures In(w', a, k) == In(w0, a, k) {
      assert InsOk(w, a, k);
      RemoveNone(In(w, a, k), p);
    }
  }

  lemma MovingValidIn(g: Objects, w0: Wiring, w: Wiring, a: nat, b: nat)
    requires MovingIn(g, w0, w, a, b)
    ensures Valid(w0)
  {
  }

  lemma NoneMovedIn(g: Objects, w: Wiring, a: nat, b: nat)
    requires a < |w.ins| && b < |w.ins|
    ensures InAt(g, w, w, a, b, [], 0)
  {
    hide Reordered;
    ReorderedStart(w);
    assert Elements([]) == {};
  }

  // ---------------------------------------------------------------- the lists themselves

  datatype Option<T> = None | Some(value: T)

  class Network {
    const g: Objects
    var outs: seq<seq<seq<Conn>>>
    var ins: seq<seq<seq<Conn>>>

    ghost function W(): Wiring
      reads this
    {
      Wiring(outs, ins)
    }

    /** An empty patch of objects with the given numbers of ports. */
    constructor (g: Objects, nout: seq<nat>, nin: seq<nat>)
      requires |nout| == |nin|
      ensures this.g == g && Valid(W()) && forall x :: !Has(W(), x)
    {
      this.g := g;
      outs := seq(|nout|, o requires 0 <= o < |nout| => seq(nout[o], _ => []));
      ins := seq(|nin|, o requires 0 <= o < |nin| => seq(nin[o], _ => []));
      new;
      NothingConnected(W());
    }

    /** `fts_connection_new` */
    method New(c: Conn) returns (made: bool)
      requires c.src < |outs| && c.dst < |ins|
      modifies this
      ensures (W(), made) == Connect(g, old(W()), c)
    {
      var valid := true;
      if g.error(c.src) {
        if c.kind <= HIDDEN {
          return false;
        }
        FitOutlet(c.src, c.outlet);
        valid := false;
      }
      if g.error(c.dst) {
        if c.kind <= HIDDEN {
          return false;
        }
        FitInlet(c.dst, c.inlet);
        valid := false;
      }
      if c.outlet >= |outs[c.src]| || c.outlet < 0 {
        return false;
      }
      if c.inlet >= |ins[c.dst]| || c.inlet < 0 {
        return false;
      }
      var double := HasDouble(outs[c.src][c.outlet], c);
      if double {
        return false;
      }
      double := HasDouble(ins[c.dst][c.inlet], c);
      if double {
        return false;
      }
      var kind := if valid && c.kind == NULL_KIND then ANYTHING else c.kind;
      if !g.fits(c.src, c.outlet, c.dst, c.inlet) {
        return false;
      }
      var conn := c.(kind := kind);
      outs := outs[c.src := outs[c.src][c.outlet := [conn] + outs[c.src][c.outlet]]];
      ins := ins[c.dst := ins[c.dst][c.inlet := [conn] + ins[c.dst][c.inlet]]];
      made := true;
    }

    method FitOutlet(o: nat, k: int)
      requires o < |outs|
      modifies this`outs
      ensures outs == Fit(old(outs), o, k)
    {
      if |outs[o]| <= k {
        outs := outs[o := Resized(outs[o], k + 1)];
      }
    }

    method FitInlet(o: nat, k: int)
      requires o < |ins|
      modifies this`ins
      ensures ins == Fit(old(ins), o, k)
    {
      if |ins[o]| <= k {
        ins := ins[o := Resized(ins[o], k + 1)];
      }
    }

    /** The search for a connection with the same ends. */
    static method HasDouble(cs: seq<Conn>, c: Conn) returns (double: bool)
      ensures double <==> Double(cs, c)
    {
      var i := 0;
      while i < |cs|
        invariant i <= |cs| && forall j :: 0 <= j < i ==> !SameEnds(cs[j], c)
      {
        if SameEnds(cs[i], c) {
          return true;
        }
        i := i + 1;
      }
      double := false;
    }

    /** `fts_connection_get` */
    method Get(src: nat, outlet: int, dst: nat, inlet: int) returns (r: Option<Conn>)
      requires Valid(W()) && src < |outs| && 0 <= outlet < |outs[src]|
      ensures r.Some? ==> Has(W(), r.value) && SameEnds(r.value, Conn(src, outlet, dst, inlet, 0))
      ensures r.None? <==> forall x :: Has(W(), x) ==> !SameEnds(x, Conn(src, outlet, dst, inlet, 0))
    {
      var cs := outs[src][outlet];
      assert OutsOk(W(), src, outlet) && cs == Out(W(), src, outlet);
      var i := 0;
      while i < |cs|
        invariant i <= |cs| && forall j :: 0 <= j < i ==> cs[j].dst != dst || cs[j].inlet != inlet
      {
        if cs[i].dst == dst && cs[i].inlet == inlet {
          assert Has(W(), cs[i]);
          return Some(cs[i]);
        }
        i := i + 1;
      }
      r := None;
    }

    /** Takes a connection out of a list by walking along it. */
    static method Unlink(cs: seq<Conn>, c: Conn) returns (r: seq<Conn>)
      ensures r == Remove(cs, c)
    {
      var i := 0;
      while i < |cs|
        invariant i <= |cs| && Remove(cs, c) == cs[..i] + Remove(cs[i..], c)
      {
        assert cs[i..][1..] == cs[i + 1..];
        if cs[i] == c {
          return cs[..i] + cs[i + 1..];
        }
        assert cs[..i + 1] == cs[..i] + [cs[i]];
        i := i + 1;
      }
      r := cs;
    }

    /** `fts_connection_delete` */
    method Delete(c: Conn)
      requires Valid(W()) && Has(W(), c)
      modifies this
      ensures W() == Deleted(old(W()), c)
    {
      EndsAgree(W(), c, c);
      var list := Unlink(outs[c.src][c.outlet], c);
      outs := outs[c.src := outs[c.src][c.outlet := list]];
      list := Unlink(ins[c.dst][c.inlet], c);
      ins := ins[c.dst := ins[c.dst][c.inlet := list]];
    }

    /** Deletes the connections of an outlet, first to last. */
    method DrainOutlet(o: nat, k: nat)
      requires Valid(W()) && o < |outs| && k < |outs[o]|
      modifies this
      ensures Valid(W()) && SameShape(old(W()), W()) && outs[o][k] == []
      ensures forall x :: Has(W(), x) <==> Has(old(W()), x) && !(x.src == o && x.outlet == k)
    {
      hide Valid, Has, Deleted;
      ListsValid(W());
      while outs[o][k] != []
        invariant Valid(W()) && SameShape(old(W()), W())
        invariant forall x :: Has(W(), x) ==> Has(old(W()), x)
        invariant forall x :: Has(old(W()), x) && !(x.src == o && x.outlet == k) ==> Has(W(), x)
        decreases |Out(W(), o, k)|
      {
        var c := outs[o][k][0];
        FirstIs(W(), o, k);
        DeletedIs(W(), c);
        DeletedShape(W(), c);
        Delete(c);
      }
      EmptyOutlet(W(), o, k);
    }

    method DrainInlet(o: nat, k: nat)
      requires Valid(W()) && o < |ins| && k < |ins[o]|
      modifies this
      ensures Valid(W()) && SameShape(old(W()), W()) && ins[o][k] == []
      ensures forall x :: Has(W(), x) <==> Has(old(W()), x) && !(x.dst == o && x.inlet == k)
    {
      hide Valid, Has, Deleted;
      ListsValid(W());
      while ins[o][k] != []
        invariant Valid(W()) && SameShape(old(W()), W())
        invariant forall x :: Has(W(), x) ==> Has(old(W()), x)
        invariant forall x :: Has(old(W()), x) && !(x.dst == o && x.inlet == k) ==> Has(W(), x)
        decreases |In(W(), o, k)|
      {
        var c := ins[o][k][0];
        FirstIn(W(), o, k);
        DeletedIs(W(), c);
        DeletedShape(W(), c);
        Delete(c);
      }
      EmptyInlet(W(), o, k);
    }

    /** `fts_object_trim_inlets_connections` */
    method TrimInlets(o: nat, n: nat)
      requires Valid(W()) && o < |ins|
      modifies this
      ensures Valid(W()) && SameShape(old(W()), W())
      ensures forall x :: Has(W(), x) <==> Has(old(W()), x) && !(x.dst == o && x.inlet >= n)
    {
      hide Valid, Has;
      var i := n;
      while i < |ins[o]|
        invariant n <= i && Valid(W()) && SameShape(old(W()), W())
        invariant forall x :: Has(W(), x) <==> Has(old(W()), x) && !(x.dst == o && n <= x.inlet < i)
      {
        DrainInlet(o, i);
        i := i + 1;
      }
      InletsBelow(W(), o);
      InletsBelow(old(W()), o);
    }

    /** `fts_object_trim_outlets_connections` */
    method TrimOutlets(o: nat, n: nat)
      requires Valid(W()) && o < |outs|
      modifies this
      ensures Valid(W()) && SameShape(old(W()), W())
      ensures forall x :: Has(W(), x) <==> Has(old(W()), x) && !(x.src == o && x.outlet >= n)
    {
      hide Valid, Has;
      var i := n;
      while i < |outs[o]|
        invariant n <= i && Valid(W()) && SameShape(old(W()), W())
        invariant forall x :: Has(W(), x) <==> Has(old(W()), x) && !(x.src == o && n <= x.outlet < i)
      {
        DrainOutlet(o, i);
        i := i + 1;
      }
      OutletsBelow(W(), o);
      OutletsBelow(old(W()), o);
    }

    /** `fts_object_set_inlets_number`: the connections to inlets that go are deleted, all others stay. */
    method SetInlets(o: nat, n: nat)
      requires Valid(W()) && o < |ins|
      modifies this
      ensures Valid(W()) && |ins| == |old(ins)| && |ins[o]| == n && |outs| == |old(outs)|
      ensures forall p :: 0 <= p < |outs| ==> |outs[p]| == |old(outs)[p]|
      ensures forall p :: 0 <= p < |ins| && p != o ==> |ins[p]| == |old(ins)[p]|
      ensures forall x :: Has(W(), x) <==> Has(old(W()), x) && !(x.dst == o && x.inlet >= n)
    {
      hide Valid, Has;
      if |ins[o]| != n {
        TrimInlets(o, n);
        ghost var w := W();
        NoInletsLeft(w, o, n);
        ResizeSame(ins, o, n);
        ins := ins[o := Resized(ins[o], n)];
        ListsValid(w);
        SameLists(w, W());
      } else {
        InletsBelow(W(), o);
      }
    }

    method SetOutlets(o: nat, n: nat)
      requires Valid(W()) && o < |outs|
      modifies this
      ensures Valid(W()) && |outs| == |old(outs)| && |outs[o]| == n && |ins| == |old(ins)|
      ensures forall p :: 0 <= p < |ins| ==> |ins[p]| == |old(ins)[p]|
      ensures forall p :: 0 <= p < |outs| && p != o ==> |outs[p]| == |old(outs)[p]|
      ensures forall x :: Has(W(), x) <==> Has(old(W()), x) && !(x.src == o && x.outlet >= n)
    {
      hide Valid, Has;
      if |outs[o]| != n {
        TrimOutlets(o, n);
        ghost var w := W();
        NoOutletsLeft(w, o, n);
        ResizeSame(outs, o, n);
        outs := outs[o := Resized(outs[o], n)];
        ListsValid(w);
        SameLists(w, W());
      } else {
        OutletsBelow(W(), o);
      }
    }

    /** `patcher_data_remove_connections` */
    method RemoveConnections(o: nat)
      requires Valid(W()) && o < |outs|
      modifies this
      ensures Valid(W()) && SameShape(old(W()), W())
      ensures forall x :: Has(W(), x) <==> Has(old(W()), x) && x.src != o && x.dst != o
    {
      hide Valid, Has;
      ListsValid(W());
      PortsNatural(W());
      TrimOutlets(o, 0);
      PortsNatural(W());
      TrimInlets(o, 0);
    }

    /** The first half of `fts_object_move_connections`. */
    method MoveOutlets(a: nat, b: nat)
      requires Valid(W()) && a < |outs| && b < |outs| && a != b
      requires forall x :: Has(W(), x) ==> x.src != b && x.dst != b
      modifies this
      ensures MovingOut(g, old(W()), W(), a, b) && forall x :: Has(W(), x) ==> x.src != a
      ensures OutletsMoved(g, old(W()), W(), a, b)
    {
      hide Valid, Has, MovingOut, MoveOut, Reordered, TakenOut, Joined, Elements;
      ghost var w0 := W();
      StartsOut(g, w0, a, b);
      OutShape(g, w0, W(), a, b);
      PortsNatural(w0);
      ghost var done: seq<Conn> := [];
      NoneMovedOut(g, w0, a, b);
      JoinedNone(w0.outs[a]);
      var i := 0;
      while i < |outs[a]|
        invariant a < |outs| && i <= |outs[a]| && MovingOut(g, w0, W(), a, b) && SameShape(w0, W())
        invariant forall x :: Has(W(), x) && x.src == a ==> x.outlet >= i
        invariant OutAt(g, w0, W(), a, b, done, i) && done == Joined(w0.outs[a][..i])
      {
        ghost var j := 0;
        JoinedNext(w0.outs[a], i);
        assert Out(W(), a, i) == Out(w0, a, i);
        while outs[a][i] != []
          invariant MovingOut(g, w0, W(), a, b) && SameShape(w0, W())
          invariant forall x :: Has(W(), x) && x.src == a ==> x.outlet >= i
          invariant j <= |w0.outs[a][i]| && outs[a][i] == w0.outs[a][i][j..]
          invariant OutAt(g, w0, W(), a, b, done, i + 1) && done == Joined(w0.outs[a][..i]) + w0.outs[a][i][..j]
          decreases |Out(W(), a, i)|
        {
          var p := outs[a][i][0];
          OutShape(g, w0, W(), a, b);
          FirstIs(W(), a, i);
          MoveOutIs(g, w0, W(), a, b, p);
          OutStep(g, w0, W(), a, b, p);
          OutAtStep(g, w0, W(), a, b, done, i, p);
          done := done + [p];
          j := j + 1;
          OfferOut(b, p);
          OutShape(g, w0, W(), a, b);
        }
        OutShape(g, w0, W(), a, b);
        EmptyOutlet(W(), a, i);
        i := i + 1;
      }
      OutShape(g, w0, W(), a, b);
      assert w0.outs[a][..i] == w0.outs[a];
      OutletsBelow(W(), a);
    }

    /** Offers a connection to `b` and deletes it. */
    method OfferOut(b: nat, p: Conn)
      requires Valid(W()) && Has(W(), p) && b < |outs| && p.dst < |ins| && p.src != b
      modifies this
      ensures W() == MoveOut(g, old(W()), b, p)
    {
      hide Valid, Has, Connect, Deleted;
      if p.outlet < |outs[b]| && p.kind > HIDDEN {
        ConnectIff(g, W(), p.(src := b));
        var made := New(p.(src := b));
      }
      Delete(p);
    }

    method MoveInlets(a: nat, b: nat)
      requires MovingIn(g, W(), W(), a, b)
      modifies this
      ensures MovingIn(g, old(W()), W(), a, b) && forall x :: Has(W(), x) ==> x.dst != a
      ensures InletsMoved(g, old(W()), W(), a, b)
    {
      hide Valid, Has, MovingIn, MoveIn, Reordered, TakenIn, Joined, Elements;
      ghost var w0 := W();
      InShape(g, w0, W(), a, b);
      PortsNatural(w0);
      ghost var done: seq<Conn> := [];
      NoneMovedIn(g, w0, a, b);
      JoinedNone(w0.ins[a]);
      var i := 0;
      while i < |ins[a]|
        invariant a < |ins| && i <= |ins[a]| && MovingIn(g, w0, W(), a, b) && SameShape(w0, W())
        invariant forall x :: Has(W(), x) && x.dst == a ==> x.inlet >= i
        invariant InAt(g, w0, W(), a, b, done, i) && done == Joined(w0.ins[a][..i])
      {
        ghost var j := 0;
        JoinedNext(w0.ins[a], i);
        assert In(W(), a, i) == In(w0, a, i);
        while ins[a][i] != []
          invariant MovingIn(g, w0, W(), a, b) && SameShape(w0, W())
          invariant forall x :: Has(W(), x) && x.dst == a ==> x.inlet >= i
          invariant j <= |w0.ins[a][i]| && ins[a][i] == w0.ins[a][i][j..]
          invariant InAt(g, w0, W(), a, b, done, i + 1) && done == Joined(w0.ins[a][..i]) + w0.ins[a][i][..j]
          decreases |In(W(), a, i)|
        {
          var p := ins[a][i][0];
          InShape(g, w0, W(), a, b);
          FirstIn(W(), a, i);
          MoveInIs(g, w0, W(), a, b, p);
          InStep(g, w0, W(), a, b, p);
          InAtStep(g, w0, W(), a, b, done, i, p);
          done := done + [p];
          j := j + 1;
          OfferIn(b, p);
          InShape(g, w0, W(), a, b);
        }
        InShape(g, w0, W(), a, b);
        EmptyInlet(W(), a, i);
        i := i + 1;
      }
      InShape(g, w0, W(), a, b);
      assert w0.ins[a][..i] == w0.ins[a];
      InletsBelow(W(), a);
    }

    method OfferIn(b: nat, p: Conn)
      requires Valid(W()) && Has(W(), p) && b < |ins| && p.src < |outs| && p.dst != b
      modifies this
      ensures W() == MoveIn(g, old(W()), b, p)
    {
      hide Valid, Has, Connect, Deleted;
      if p.inlet < |ins[b]| && p.kind > HIDDEN {
        ConnectIff(g, W(), p.(dst := b));
        var made := New(p.(dst := b));
      }
      Delete(p);
    }

    /** `fts_object_move_connections`: the new object `b` takes over the visible connections of `a` that its ports
        exist for and that fit it; `a` is left with none. */
    method MoveConnections(a: nat, b: nat)
      requires Valid(W()) && a < |outs| && b < |outs| && a != b
      requires forall x :: Has(W(), x) ==> x.src != b && x.dst != b
      modifies this
      ensures Valid(W()) && SameShape(old(W()), W()) && b < |old(ins)|
      ensures forall x :: Redefined(g, old(W()), W(), a, b, x)
      ensures exists m: Wiring :: OutletsMoved(g, old(W()), m, a, b) && InletsMoved(g, m, W(), a, b)
      ensures forall x :: Has(W(), x) ==> x.src != a && x.dst != a
    {
      hide Valid, Has, MovingOut, MovingIn, Redefined, OutletsMoved, InletsMoved;
      ghost var w0 := W();
      MoveOutlets(a, b);
      ghost var w1 := W();
      OutShape(g, w0, w1, a, b);
      StartsIn(g, w0, w1, a, b);
      MoveInlets(a, b);
      InShape(g, w1, W(), a, b);
      forall x ensures Redefined(g, w0, W(), a, b, x) {
        EndsIn(g, w0, w1, W(), a, b, x);
      }
      NoSources(g, w1, W(), a, b);
      ListsValid(w0);
    }
  }

  lemma JoinedNone(lists: seq<seq<Conn>>)
    ensures Joined(lists[..0]) == []
  {
  }

  lemma JoinedNext(lists: seq<seq<Conn>>, i: nat)
    requires i < |lists|
    ensures Joined(lists[..i + 1]) == Joined(lists[..i]) + lists[i]
  {
    assert lists[..i + 1][..i] == lists[..i];
  }

  lemma NothingConnected(w: Wiring)
    requires |w.outs| == |w.ins|
    requires forall o, k :: 0 <= o < |w.outs| && 0 <= k < |w.outs[o]| ==> w.outs[o][k] == []
    requires forall o, k :: 0 <= o < |w.ins| && 0 <= k < |w.ins[o]| ==> w.ins[o][k] == []
    ensures Valid(w) && forall x :: !Has(w, x)
  {
  }

  lemma FirstIs(w: Wiring, o: nat, k: nat)
    requires Valid(w) && o < |w.outs| && k < |w.outs[o]| && w.outs[o][k] != []
    ensures Has(w, w.outs[o][k][0]) && w.outs[o][k][0].src == o && w.outs[o][k][0].outlet == k
  {
    assert OutsOk(w, o, k) && w.outs[o][k][0] in Out(w, o, k);
  }

  lemma FirstIn(w: Wiring, o: nat, k: nat)
    requires Valid(w) && o < |w.ins| && k < |w.ins[o]| && w.ins[o][k] != []
    ensures Has(w, w.ins[o][k][0]) && w.ins[o][k][0].dst == o && w.ins[o][k][0].inlet == k
  {
    assert InsOk(w, o, k) && w.ins[o][k][0] in In(w, o, k);
  }

  lemma EmptyOutlet(w: Wiring, o: nat, k: nat)
    requires Valid(w) && o < |w.outs| && k < |w.outs[o]| && w.outs[o][k] == []
    ensures forall x :: Has(w, x) ==> !(x.src == o && x.outlet == k)
  {
  }

  lemma EmptyInlet(w: Wiring, o: nat, k: nat)
    requires Valid(w) && o < |w.ins| && k < |w.ins[o]| && w.ins[o][k] == []
    ensures forall x :: Has(w, x) ==> !(x.dst == o && x.inlet == k)
  {
    forall x | Has(w, x) ensures !(x.dst == o && x.inlet == k) {
      EndsAgree(w, x, x);
    }
  }

  lemma InletsBelow(w: Wiring, o: nat)
    requires Valid(w) && o < |w.ins|
    ensures forall x :: Has(w, x) && x.dst == o ==> 0 <= x.inlet < |w.ins[o]|
  {
    forall x | Has(w, x) && x.dst == o ensures 0 <= x.inlet < |w.ins[o]| {
      EndsAgree(w, x, x);
    }
  }

  lemma OutletsBelow(w: Wiring, o: nat)
    requires Valid(w) && o < |w.outs|
    ensures forall x :: Has(w, x) && x.src == o ==> 0 <= x.outlet < |w.outs[o]|
  {
    forall x | Has(w, x) && x.src == o ensures 0 <= x.outlet < |w.outs[o]| {
      EndsAgree(w, x, x);
    }
  }

  lemma PortsNatural(w: Wiring)
    requires Valid(w)
    ensures forall x :: Has(w, x) ==> x.outlet >= 0 && x.inlet >= 0
  {
    forall x | Has(w, x) ensures x.outlet >= 0 && x.inlet >= 0 {
      EndsAgree(w, x, x);
    }
  }

  lemma NoInletsLeft(w: Wiring, o: nat, n: nat)
    requires Valid(w) && o < |w.ins| && forall x :: Has(w, x) ==> !(x.dst == o && x.inlet >= n)
    ensures forall k :: n <= k < |w.ins[o]| ==> w.ins[o][k] == []
  {
    forall k: nat | n <= k < |w.ins[o]| ensures w.ins[o][k] == [] {
      if w.ins[o][k] != [] {
        FirstIn(w, o, k);
      }
    }
  }

  lemma NoOutletsLeft(w: Wiring, o: nat, n: nat)
    requires Valid(w) && o < |w.outs| && forall x :: Has(w, x) ==> !(x.src == o && x.outlet >= n)
    ensures forall k :: n <= k < |w.outs[o]| ==> w.outs[o][k] == []
  {
    forall k: nat | n <= k < |w.outs[o]| ensures w.outs[o][k] == [] {
      if w.outs[o][k] != [] {
        FirstIs(w, o, k);
      }
    }
  }

  lemma OutShape(g: Objects, w0: Wiring, w: Wiring, a: nat, b: nat)
    requires MovingOut(g, w0, w, a, b)
    ensures Valid(w) && SameShape(w0, w) && a < |w.outs| && b < |w.outs| && |w.ins| == |w.outs| && a != b
  {
    hide Has, OutsOk, InsOk;
  }

  lemma InShape(g: Objects, w0: Wiring, w: Wiring, a: nat, b: nat)
    requires MovingIn(g, w0, w, a, b)
    ensures Valid(w) && SameShape(w0, w) && a < |w.ins| && b < |w.ins| && |w.ins| == |w.outs| && a != b
  {
    hide Has, OutsOk, InsOk;
  }

  lemma NoSources(g: Objects, w1: Wiring, w: Wiring, a: nat, b: nat)
    requires MovingIn(g, w1, w, a, b) && (forall x :: Has(w1, x) ==> x.src != a) && forall x :: Has(w, x) ==> x.dst != a
    ensures forall x :: Has(w, x) ==> x.src != a
  {
    hide Valid, Has, InOkay, Typed;
    forall x | Has(w, x) ensures x.src != a {
      if x.dst == b {
        assert FromIn(g, w1, w, a, b, x);
        var y :| InFrom(g, w1, w, a, b, y, x);
        TypedEnds(g, y.(dst := b));
      }
    }
  }
}
