/** The fifo between two threads: one writer and one reader share a buffer and two indices, without locks. */
module Fifo {

  // ---------------------------------------------------------------- levels and indices

  /** `fts_fifo_read_level` */
  function ReadLevel(size: int, readIndex: int, writeIndex: int): int {
    if writeIndex - readIndex < 0 then writeIndex - readIndex + size else writeIndex - readIndex
  }

  /** `fts_fifo_write_level` */
  function WriteLevel(size: int, readIndex: int, writeIndex: int): int {
    if readIndex - writeIndex - 1 < 0 then readIndex - writeIndex - 1 + size else readIndex - writeIndex - 1
  }

  function Advance(size: int, index: int, incr: int): int {
    if index + incr >= size then index + incr - size else index + incr
  }

  class FifoObject {
    var readIndex: int
    var writeIndex: int
    const size: int

    predicate Valid()
      reads this
    {
      0 <= readIndex < size && 0 <= writeIndex < size
    }

    constructor (size: int)
      requires size > 0
      ensures Valid() && this.size == size && readIndex == writeIndex == 0
    {
      this.size, readIndex, writeIndex := size, 0, 0;
    }

    method GetReadLevel() returns (n: int)
      requires Valid()
      ensures n == ReadLevel(size, readIndex, writeIndex) && 0 <= n < size
    {
      n := writeIndex - readIndex;
      if n < 0 {
        n := n + size;
      }
    }

    method GetWriteLevel() returns (n: int)
      requires Valid()
      ensures n == WriteLevel(size, readIndex, writeIndex) && 0 <= n < size
      ensures n + ReadLevel(size, readIndex, writeIndex) == size - 1
    {
      n := readIndex - writeIndex - 1;
      if n < 0 {
        n := n + size;
      }
    }

    method IncrRead(incr: int)
      requires Valid() && 0 <= incr <= ReadLevel(size, readIndex, writeIndex)
      modifies this`readIndex
      ensures Valid() && readIndex == Advance(size, old(readIndex), incr)
      ensures ReadLevel(size, readIndex, writeIndex) == ReadLevel(size, old(readIndex), writeIndex) - incr
    {
      var index := readIndex + incr;
      if index >= size {
        index := index - size;
      }
      readIndex := index;
    }

    method IncrWrite(incr: int)
      requires Valid() && 0 <= incr <= WriteLevel(size, readIndex, writeIndex)
      modifies this`writeIndex
      ensures Valid() && writeIndex == Advance(size, old(writeIndex), incr)
      ensures ReadLevel(size, readIndex, writeIndex) == ReadLevel(size, readIndex, old(writeIndex)) + incr
    {
      var index := writeIndex + incr;
      if index >= size {
        index := index - size;
      }
      writeIndex := index;
    }
  }

  // ---------------------------------------------------------------- the two threads

  /** The number of entries and the bytes of one; the buffer has `entries * cell` bytes. */
  datatype Layout = Layout(entries: nat, cell: nat)

  predicate LayoutOk(l: Layout) {
    l.entries > 0 && l.cell > 0
  }

  /** Where a thread is between its steps: it has not checked the level, it has found room or an entry, or it has filled
      or consumed the entry and not moved its index yet. */
  datatype Writer<E> = WIdle | WChecked | WFilled(e: E)
  datatype Reader<E> = RIdle | RChecked | RConsumed(e: E)

  /** The shared memory and both threads.  `written` are the entries published and `got` those consumed, in order. */
  datatype State<E> = State(slots: seq<E>, readIndex: int, writeIndex: int, writer: Writer<E>, reader: Reader<E>,
                            written: seq<E>, got: seq<E>)

  datatype Step<E> = CheckRoom | Fill(e: E) | Publish | CheckEntry | Consume(blank: E) | Release

  function Slot(l: Layout, index: int): int
    requires LayoutOk(l)
  {
    index / l.cell
  }

  /** One step of one thread; a step that is not next in its thread changes nothing.  The reader leaves a new event in
      the entry it consumes. */
  function Next<E>(l: Layout, s: State<E>, step: Step<E>): State<E>
    requires LayoutOk(l)
  {
    var size := l.entries * l.cell;
    match step
    case CheckRoom =>
      if s.writer == WIdle && WriteLevel(size, s.readIndex, s.writeIndex) >= l.cell then s.(writer := WChecked) else s
    case Fill(e) =>
      if s.writer != WIdle && 0 <= Slot(l, s.writeIndex) < |s.slots| then
        s.(slots := s.slots[Slot(l, s.writeIndex) := e], writer := WFilled(e))
      else s
    case Publish =>
      if s.writer.WFilled? then
        s.(writeIndex := Advance(size, s.writeIndex, l.cell), writer := WIdle, written := s.written + [s.writer.e])
      else s
    case CheckEntry =>
      if s.reader == RIdle && ReadLevel(size, s.readIndex, s.writeIndex) >= l.cell then s.(reader := RChecked) else s
    case Consume(blank) =>
      if s.reader == RChecked && 0 <= Slot(l, s.readIndex) < |s.slots| then
        s.(slots := s.slots[Slot(l, s.readIndex) := blank], reader := RConsumed(s.slots[Slot(l, s.readIndex)]))
      else s
    case Release =>
      if s.reader.RConsumed? then
        s.(readIndex := Advance(size, s.readIndex, l.cell), reader := RIdle, got := s.got + [s.reader.e])
      else s
  }

  /** The first entry still in its slot: the one being consumed has been taken out already. */
  function Unread<E>(s: State<E>): nat {
    |s.got| + if s.reader.RConsumed? then 1 else 0
  }

  /** Every entry published and not consumed is still in its slot, in order; the writer's slot is none of theirs. */
  ghost predicate Inv<E(!new)>(l: Layout, s: State<E>) {
    && LayoutOk(l) && |s.slots| == l.entries
    && s.readIndex == |s.got| % l.entries * l.cell && s.writeIndex == |s.written| % l.entries * l.cell
    && |s.got| <= |s.written| <= |s.got| + l.entries - 1
    && s.got == s.written[..|s.got|]
    && (s.reader != RIdle ==> |s.got| < |s.written|)
    && (s.reader.RConsumed? ==> s.reader.e == s.written[|s.got|])
    && (s.writer != WIdle ==> |s.written| <= |s.got| + l.entries - 2)
    && (s.writer.WFilled? ==> s.slots[|s.written| % l.entries] == s.writer.e)
    && (forall k :: Unread(s) <= k < |s.written| ==> s.slots[k % l.entries] == s.written[k])
  }

  lemma SlotIs(l: Layout, k: nat)
    requires LayoutOk(l)
    ensures 0 <= k % l.entries < l.entries && Slot(l, k % l.entries * l.cell) == k % l.entries
  {
    var i, c := k % l.entries, l.cell;
    DivUnique(i * c, c, i, 0);
  }

  lemma DivUnique(x: nat, d: nat, q: nat, r: nat)
    requires d > 0 && x == q * d + r && r < d
    ensures x / d == q
  {
    var q', r' := x / d, x % d;
    assert x == q' * d + r';
    assert (q' - q) * d == q' * d - q * d && (q - q') * d == q * d - q' * d;
    if q' > q {
      MulStep(q' - q, d);
    } else if q' < q {
      MulStep(q - q', d);
    }
  }

  lemma MulStep(x: nat, d: nat)
    requires x >= 1
    ensures x * d >= d
  {
    assert x * d == (x - 1) * d + d;
  }

  lemma ModStep(k: nat, n: nat)
    requires n > 0
    ensures (k + 1) % n == if k % n + 1 == n then 0 else k % n + 1
  {
    var q, r := k / n, k % n;
    assert k == q * n + r;
    if r + 1 == n {
      assert k + 1 == (q + 1) * n;
      ModUnique(k + 1, n, q + 1, 0);
    } else {
      ModUnique(k + 1, n, q, r + 1);
    }
  }

  lemma ModUnique(x: nat, d: nat, q: nat, r: nat)
    requires d > 0 && x == q * d + r && r < d
    ensures x % d == r
  {
    DivUnique(x, d, q, r);
  }

  /** An index moved by one entry is the index of the next entry. */
  lemma AdvanceIs(l: Layout, k: nat)
    requires LayoutOk(l)
    ensures Advance(l.entries * l.cell, k % l.entries * l.cell, l.cell) == (k + 1) % l.entries * l.cell
  {
    var n, c, i := l.entries, l.cell, k % l.entries;
    ModStep(k, n);
    assert (i + 1) * c == i * c + c;
    if i + 1 == n {
      assert i * c + c == n * c;
    } else {
      MulStep(n - (i + 1), c);
      assert (n - (i + 1)) * c == n * c - (i + 1) * c;
    }
  }

  /** Entries less than a buffer apart are in different slots. */
  lemma SlotsDiffer(k: nat, j: nat, n: nat)
    requires n > 0 && k < j < k + n
    ensures k % n != j % n
  {
    var a, b := k / n, j / n;
    assert k == a * n + k % n && j == b * n + j % n;
    if k % n == j % n {
      assert j - k == (b - a) * n by { assert (b - a) * n == b * n - a * n; }
      assert (a - b) * n == -((b - a) * n);
      if b - a >= 1 {
        MulStep(b - a, n);
      } else if b - a <= -1 {
        MulStep(a - b, n);
      }
    }
  }

  /** How far apart the indices are, in bytes, tells how many entries are between them. */
  lemma LevelsCount(l: Layout, r: nat, w: nat)
    requires LayoutOk(l) && r <= w <= r + l.entries - 1
    ensures ReadLevel(l.entries * l.cell, r % l.entries * l.cell, w % l.entries * l.cell) == (w - r) * l.cell
    ensures WriteLevel(l.entries * l.cell, r % l.entries * l.cell, w % l.entries * l.cell) ==
            (l.entries - (w - r)) * l.cell - 1
  {
    var n, c := l.entries, l.cell;
    var i, j, d := r % n, w % n, w - r;
    assert j - i == d || j - i == d - n by { SlotDistance(r, w, n); }
    assert (n - d) * c == n * c - d * c;
    if j - i == d {
      assert j * c - i * c == d * c by { assert (j - i) * c == j * c - i * c; }
      assert d * c >= 0;
    } else {
      assert j * c - i * c == d * c - n * c by { assert (j - i) * c == j * c - i * c && (d - n) * c == d * c - n * c; }
      MulStep(n - d, c);
    }
  }

  lemma SlotDistance(r: nat, w: nat, n: nat)
    requires n > 0 && r <= w <= r + n - 1
    ensures w % n - r % n == w - r || w % n - r % n == w - r - n
  {
    var a, b := r / n, w / n;
    assert r == a * n + r % n && w == b * n + w % n;
    assert w - r == (b - a) * n + (w % n - r % n) by { assert (b - a) * n == b * n - a * n; }
    assert (b - a) * n == (b - a - 1) * n + n && (a - b) * n == -((b - a) * n);
    if b - a >= 2 {
      MulStep(b - a - 1, n);
    } else if b - a <= -1 {
      MulStep(a - b, n);
    }
  }

  lemma AtLeastOne(k: int, c: nat)
    requires c > 0
    ensures k * c >= c <==> k >= 1
    ensures k * c - 1 >= c <==> k >= 2
  {
    if k >= 2 {
      MulStep(k - 1, c);
      assert k * c == (k - 1) * c + c;
    } else if k == 1 {
      assert k * c == c;
    } else {
      if k < 0 {
        MulStep(-k, c);
        assert (-k) * c == -(k * c);
      }
      assert k * c <= 0;
    }
  }

  lemma StartInv<E(!new)>(l: Layout, slots: seq<E>)
    requires LayoutOk(l) && |slots| == l.entries
    ensures Inv(l, State(slots, 0, 0, WIdle, RIdle, [], []))
  {
    assert 0 % l.entries == 0 && 0 * l.cell == 0;
  }

  /** Every step of either thread, whatever the other is doing, keeps the unread entries. */
  lemma StepKeeps<E(!new)>(l: Layout, s: State<E>, step: Step<E>)
    requires Inv(l, s)
    ensures Inv(l, Next(l, s, step))
  {
    hide ReadLevel, WriteLevel, Advance, Slot;
    var r, w, n := |s.got|, |s.written|, l.entries;
    SlotIs(l, r);
    SlotIs(l, w);
    match step
    case CheckRoom =>
      LevelsCount(l, r, w);
      AtLeastOne(n - (w - r), l.cell);
    case Fill(e) =>
      if s.writer != WIdle {
        forall k | Unread(s) <= k < w ensures k % n != w % n {
          SlotsDiffer(k, w, n);
        }
      }
    case Publish =>
      AdvanceIs(l, w);
    case CheckEntry =>
      LevelsCount(l, r, w);
      AtLeastOne(w - r, l.cell);
    case Consume(blank) =>
      if s.reader == RChecked {
        if s.writer != WIdle {
          SlotsDiffer(r, w, n);
        }
        forall k | r + 1 <= k < w ensures k % n != r % n {
          SlotsDiffer(r, k, n);
        }
      }
    case Release =>
      AdvanceIs(l, r);
  }

  function Run<E>(l: Layout, s: State<E>, steps: seq<Step<E>>): State<E>
    requires LayoutOk(l)
    decreases |steps|
  {
    if steps == [] then s else Run(l, Next(l, s, steps[0]), steps[1..])
  }

  lemma {:induction false} RunKeeps<E(!new)>(l: Layout, s: State<E>, steps: seq<Step<E>>)
    requires Inv(l, s)
    ensures Inv(l, Run(l, s, steps))
    decreases |steps|
  {
    hide Inv, Next;
    InvLayout(l, s);
    if steps != [] {
      StepKeeps(l, s, steps[0]);
      RunKeeps(l, Next(l, s, steps[0]), steps[1..]);
    }
  }

  lemma InvLayout<E(!new)>(l: Layout, s: State<E>)
    requires Inv(l, s)
    ensures LayoutOk(l)
  {
  }

  /** In every interleaving of the writer's and the reader's steps, the entries read are a prefix, in order, of the
      entries written, and those written and not read yet are all still in the buffer. */
  lemma ReadsWhatWasWritten<E(!new)>(l: Layout, slots: seq<E>, steps: seq<Step<E>>)
    requires LayoutOk(l) && |slots| == l.entries
    ensures var s := Run(l, State(slots, 0, 0, WIdle, RIdle, [], []), steps);
            && s.got <= s.written && |s.slots| == l.entries
            && |s.written| - |s.got| <= l.entries - 1
            && (s.reader.RConsumed? ==> |s.got| < |s.written| && s.reader.e == s.written[|s.got|])
            && (forall k :: Unread(s) <= k < |s.written| ==> s.slots[k % l.entries] == s.written[k])
  {
    StartInv(l, slots);
    RunKeeps(l, State(slots, 0, 0, WIdle, RIdle, [], []), steps);
  }

  /** What the writer has filled in and publishes in the course of a run. */
  function Published<E>(l: Layout, s: State<E>, steps: seq<Step<E>>): seq<E>
    requires LayoutOk(l)
    decreases |steps|
  {
    if steps == [] then []
    else
      (if steps[0].Publish? && s.writer.WFilled? then [s.writer.e] else []) +
      Published(l, Next(l, s, steps[0]), steps[1..])
  }

  /** Whatever is published counts as written, in order, and nothing else does. */
  lemma {:induction false} WrittenIsPublished<E(!new)>(l: Layout, s: State<E>, steps: seq<Step<E>>)
    requires LayoutOk(l)
    ensures Run(l, s, steps).written == s.written + Published(l, s, steps)
    decreases |steps|
  {
    hide ReadLevel, WriteLevel, Advance, Slot;
    if steps == [] {
      assert s.written + [] == s.written;
    } else {
      WrittenIsPublished(l, Next(l, s, steps[0]), steps[1..]);
    }
  }

  /** A full check by the writer finds room exactly when fewer than `entries - 1` entries are waiting, and one by the
      reader finds an entry exactly when one is waiting. */
  lemma ChecksAreExact<E(!new)>(l: Layout, s: State<E>)
    requires Inv(l, s)
    ensures s.writer == WIdle ==> (Next(l, s, CheckRoom).writer == WChecked <==> |s.written| - |s.got| <= l.entries - 2)
    ensures s.reader == RIdle ==> (Next(l, s, CheckEntry).reader == RChecked <==> |s.written| > |s.got|)
  {
    hide ReadLevel, WriteLevel;
    var d := |s.written| - |s.got|;
    LevelsCount(l, |s.got|, |s.written|);
    AtLeastOne(l.entries - d, l.cell);
    AtLeastOne(d, l.cell);
  }

  // ---------------------------------------------------------------- nothing is lost

  predicate OfWriter<E>(step: Step<E>) {
    step.CheckRoom? || step.Fill? || step.Publish?
  }

  ghost predicate AllOfWriter<E(!new)>(steps: seq<Step<E>>) {
    forall i :: 0 <= i < |steps| ==> OfWriter(steps[i])
  }

  ghost predicate NoneOfWriter<E(!new)>(steps: seq<Step<E>>) {
    forall i :: 0 <= i < |steps| ==> !OfWriter(steps[i])
  }

  lemma {:induction false} RunAppend<E(!new)>(l: Layout, s: State<E>, a: seq<Step<E>>, b: seq<Step<E>>)
    requires LayoutOk(l)
    ensures Run(l, s, a + b) == Run(l, Run(l, s, a), b)
    decreases |a|
  {
    hide Next;
    if a == [] {
      assert a + b == b;
    } else {
      assert (a + b)[0] == a[0] && (a + b)[1..] == a[1..] + b;
      RunAppend(l, Next(l, s, a[0]), a[1..], b);
    }
  }

  lemma RunOne<E(!new)>(l: Layout, s: State<E>, step: Step<E>)
    requires LayoutOk(l)
    ensures Run(l, s, [step]) == Next(l, s, step)
  {
    hide Next;
    assert [step][1..] == [];
  }

  /** The writer does not disturb the reader. */
  lemma {:induction false} WriterOnly<E(!new)>(l: Layout, s: State<E>, steps: seq<Step<E>>)
    requires LayoutOk(l) && AllOfWriter(steps)
    ensures var s' := Run(l, s, steps); s'.reader == s.reader && s'.got == s.got && s.written <= s'.written
    decreases |steps|
  {
    hide ReadLevel, WriteLevel, Advance, Slot;
    if steps != [] {
      assert OfWriter(steps[0]) && forall i :: 0 <= i < |steps[1..]| ==> steps[1..][i] == steps[i + 1];
      WriterOnly(l, Next(l, s, steps[0]), steps[1..]);
    }
  }

  lemma {:induction false} ReaderOnly<E(!new)>(l: Layout, s: State<E>, steps: seq<Step<E>>)
    requires LayoutOk(l) && NoneOfWriter(steps)
    ensures var s' := Run(l, s, steps); s'.writer == s.writer && s'.written == s.written
    decreases |steps|
  {
    hide ReadLevel, WriteLevel, Advance, Slot;
    if steps != [] {
      assert !OfWriter(steps[0]) && forall i :: 0 <= i < |steps[1..]| ==> steps[1..][i] == steps[i + 1];
      ReaderOnly(l, Next(l, s, steps[0]), steps[1..]);
    }
  }

  /** When an entry waits, the reader's next check, consumption and release read the oldest, whatever the writer does in
      between. */
  lemma OldestIsRead<E(!new)>(l: Layout, s: State<E>, blank: E, ws: seq<Step<E>>, ws': seq<Step<E>>)
    requires Inv(l, s) && s.reader == RIdle && |s.got| < |s.written| && AllOfWriter(ws) && AllOfWriter(ws')
    ensures LayoutOk(l) && Run(l, s, [CheckEntry] + ws + [Consume(blank)] + ws' + [Release]).got ==
                           s.got + [s.written[|s.got|]]
  {
    hide Inv, Next, Run;
    InvLayout(l, s);
    var steps1 := [CheckEntry] + ws;
    var steps2 := steps1 + [Consume(blank)];
    var steps3 := steps2 + ws';
    RunOne(l, s, CheckEntry);
    RunAppend(l, s, [CheckEntry], ws);
    RunAppend(l, s, steps1, [Consume(blank)]);
    RunAppend(l, s, steps2, ws');
    RunAppend(l, s, steps3, [Release]);
    var s1, s2 := Next(l, s, CheckEntry), Run(l, s, steps1);
    CheckFinds(l, s);
    StepKeeps(l, s, CheckEntry);
    WriterOnly(l, s1, ws);
    RunKeeps(l, s1, ws);
    RunOne(l, s2, Consume(blank));
    ConsumeTakes(l, s2, blank);
    var s3, s4 := Next(l, s2, Consume(blank)), Run(l, s, steps3);
    WriterOnly(l, s3, ws');
    RunOne(l, s4, Release);
    ReleaseGives(l, s4);
  }

  lemma CheckFinds<E(!new)>(l: Layout, s: State<E>)
    requires Inv(l, s) && s.reader == RIdle && |s.got| < |s.written|
    ensures Next(l, s, CheckEntry) == s.(reader := RChecked)
  {
    hide ReadLevel, WriteLevel;
    ChecksAreExact(l, s);
  }

  lemma ConsumeTakes<E(!new)>(l: Layout, s: State<E>, blank: E)
    requires Inv(l, s) && s.reader == RChecked
    ensures |s.got| < |s.written|
    ensures var s' := Next(l, s, Consume(blank)); s'.reader == RConsumed(s.written[|s.got|]) && s'.got == s.got
  {
    hide ReadLevel, WriteLevel, Advance, Slot;
    SlotIs(l, |s.got|);
  }

  lemma ReleaseGives<E(!new)>(l: Layout, s: State<E>)
    requires LayoutOk(l) && s.reader.RConsumed?
    ensures Next(l, s, Release).got == s.got + [s.reader.e]
  {
  }

  /** When there is room, what the writer fills in after its next check and publishes is written, whatever the reader
      does in between. */
  lemma FilledIsWritten<E(!new)>(l: Layout, s: State<E>, e: E, rs: seq<Step<E>>, rs': seq<Step<E>>)
    requires Inv(l, s) && s.writer == WIdle && |s.written| - |s.got| <= l.entries - 2
    requires NoneOfWriter(rs) && NoneOfWriter(rs')
    ensures LayoutOk(l) && Run(l, s, [CheckRoom] + rs + [Fill(e)] + rs' + [Publish]).written == s.written + [e]
  {
    hide Inv, Next, Run;
    InvLayout(l, s);
    var steps1 := [CheckRoom] + rs;
    var steps2 := steps1 + [Fill(e)];
    var steps3 := steps2 + rs';
    RunOne(l, s, CheckRoom);
    RunAppend(l, s, [CheckRoom], rs);
    RunAppend(l, s, steps1, [Fill(e)]);
    RunAppend(l, s, steps2, rs');
    RunAppend(l, s, steps3, [Publish]);
    var s1, s2 := Next(l, s, CheckRoom), Run(l, s, steps1);
    RoomFound(l, s);
    StepKeeps(l, s, CheckRoom);
    ReaderOnly(l, s1, rs);
    RunKeeps(l, s1, rs);
    RunOne(l, s2, Fill(e));
    FillPuts(l, s2, e);
    var s3, s4 := Next(l, s2, Fill(e)), Run(l, s, steps3);
    ReaderOnly(l, s3, rs');
    RunOne(l, s4, Publish);
    PublishAdds(l, s4);
  }

  lemma RoomFound<E(!new)>(l: Layout, s: State<E>)
    requires Inv(l, s) && s.writer == WIdle && |s.written| - |s.got| <= l.entries - 2
    ensures Next(l, s, CheckRoom) == s.(writer := WChecked)
  {
    hide ReadLevel, WriteLevel;
    ChecksAreExact(l, s);
  }

  lemma FillPuts<E(!new)>(l: Layout, s: State<E>, e: E)
    requires Inv(l, s) && s.writer != WIdle
    ensures var s' := Next(l, s, Fill(e)); s'.writer == WFilled(e) && s'.written == s.written
  {
    hide ReadLevel, WriteLevel, Advance, Slot;
    SlotIs(l, |s.written|);
  }

  lemma PublishAdds<E(!new)>(l: Layout, s: State<E>)
    requires LayoutOk(l) && s.writer.WFilled?
    ensures Next(l, s, Publish).written == s.written + [s.writer.e]
  {
  }
}
