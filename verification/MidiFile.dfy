/** Tracks of Standard MIDI Files: variable-length quantities, block-buffered writing and reading, and channel messages
    with delta times. */
module MidiFile {
  import opened Bytes

  const BLOCK_SIZE := 1024
  const EMPTY_BYTE := -1
  const EOF := -1

  const NOTE_OFF := 0x80
  const NOTE_ON := 0x90
  const POLY_PRESSURE := 0xa0
  const CONTROL_CHANGE := 0xb0
  const PROGRAM_CHANGE := 0xc0
  const CHANNEL_PRESSURE := 0xd0
  const PITCH_BEND := 0xe0
  const SYSTEM_EXCLUSIVE := 0xf0
  const SYSTEM_EXCLUSIVE_CONTINUE := 0xf7
  const META_EVENT := 0xff
  const END_OF_TRACK := 0x2f

  /** The message types, as they are numbered. */
  const NOTE := 0
  const POLY := 1
  const CONTROL := 2
  const PROGRAM := 3
  const PRESSURE := 4
  const BEND := 5

  /** A channel message at an absolute time. */
  datatype Event = Event(ticks: int, kind: int, channel: int, byte1: int, byte2: int)

  // ---------------------------------------------------------------- variable-length quantities

  const TWO32 := 0x1_0000_0000

  /** The first loop of `writevarlen`: groups of seven bits are shifted into a 32-bit buffer, the last group lowest. */
  function Pack(buffer: nat, value: nat): nat
    decreases value
  {
    if value == 0 then buffer else Pack((buffer * 256) % TWO32 + 128 + value % 128, value / 128)
  }

  /** The second loop: bytes leave the buffer while the continuation bit is set. */
  function Unpack(buffer: nat): (bs: seq<byte>)
    ensures |bs| > 0
  {
    if (buffer / 128) % 2 == 1 then [buffer % 256] + Unpack(buffer / 256) else [buffer % 256]
  }

  function VarLen(value: nat): (bs: seq<byte>)
    ensures |bs| > 0
  {
    Unpack(Pack(value % 128, value / 128))
  }

  // ---------------------------------------------------------------- reading

  /** What is left of the file and of the chunk, the time, the running status, and the messages delivered. */
  datatype Reader = Reader(rest: seq<byte>, bytes: int, ticks: int, status: int, channel: int, sysex: bool, error: bool,
                           out: seq<Event>)

  function Take(r: Reader): (x: (int, Reader))
    ensures x.0 == EOF || (0 <= x.0 < 256 && |x.1.rest| < |r.rest|)
    ensures |x.1.rest| <= |r.rest|
  {
    if r.rest == [] then (EOF, r) else (r.rest[0] as int, r.(rest := r.rest[1..], bytes := r.bytes - 1))
  }

  /** `readvarinum` */
  function VarNum(r: Reader): (x: (int, Reader))
    ensures |x.1.rest| <= |r.rest|
  {
    var (c, r1) := Take(r);
    if c == EOF then (0, r1) else VarMore(r1, c % 128, c >= 128)
  }

  function VarMore(r: Reader, value: int, more: bool): (x: (int, Reader))
    ensures |x.1.rest| <= |r.rest|
    decreases |r.rest|
  {
    if !more then (value, r)
    else
      var (c, r1) := Take(r);
      if c == EOF then (0, r1) else VarMore(r1, value * 128 + c % 128, c >= 128)
  }

  /** Reads `n` bytes whose contents do not matter here; gives the last one. */
  function Skip(r: Reader, n: int, last: int): (x: (int, Reader))
    ensures |x.1.rest| <= |r.rest|
    decreases n
  {
    if n <= 0 then (last, r)
    else
      var (c, r1) := Take(r);
      Skip(r1, n - 1, c)
  }

  /** `midifile_channel_message_call`; `selected` is 0 for all channels. */
  function Deliver(r: Reader, selected: int, kind: int, byte1: int, byte2: int): Reader {
    if selected == 0 || r.channel == selected then r.(out := r.out + [Event(r.ticks, kind, r.channel, byte1, byte2)])
    else r
  }

  /** How many bytes a meta event is taken to have: some kinds have a fixed size whatever the file says. */
  function MetaSize(meta: int, n: int): int {
    if meta == 0x00 then 2
    else if meta == END_OF_TRACK then 0
    else if meta == 0x51 then 3
    else if meta == 0x54 then 5
    else if meta == 0x58 then 4
    else if meta == 0x59 then 2
    else n
  }

  function TwoBytes(r: Reader, selected: int, kind: int, byte1: int): Reader {
    var (byte2, r1) := Take(r);
    Deliver(r1, selected, kind, byte1, byte2)
  }

  /** The event behind a status byte, whose first data byte is read already if it is a channel message. */
  function ReadMessage(r: Reader, selected: int, byte1: int, data1: int): (r': Reader)
    ensures |r'.rest| <= |r.rest|
  {
    if r.status == NOTE_OFF then
      var (_, r1) := Take(r);
      Deliver(r1, selected, NOTE, data1, 0)
    else if r.status == NOTE_ON then TwoBytes(r, selected, NOTE, data1)
    else if r.status == POLY_PRESSURE then TwoBytes(r, selected, POLY, data1)
    else if r.status == CONTROL_CHANGE then TwoBytes(r, selected, CONTROL, data1)
    else if r.status == PROGRAM_CHANGE then Deliver(r, selected, PROGRAM, data1, EMPTY_BYTE)
    else if r.status == CHANNEL_PRESSURE then Deliver(r, selected, PRESSURE, data1, EMPTY_BYTE)
    else if r.status == PITCH_BEND then TwoBytes(r, selected, BEND, data1)
    else if r.status == SYSTEM_EXCLUSIVE then
      var (n, r1) := VarNum(r);
      var (last, r2) := Skip(r1, n, byte1);
      if last == SYSTEM_EXCLUSIVE_CONTINUE then r2 else r2.(sysex := true)
    else if r.status == SYSTEM_EXCLUSIVE_CONTINUE then
      var (n, r1) := VarNum(r);
      var (last, r2) := Skip(r1, n, byte1);
      if r.sysex && last == SYSTEM_EXCLUSIVE_CONTINUE then r2.(sysex := false) else r2
    else if r.status == META_EVENT then
      var (meta, r1) := Take(r);
      var (n, r2) := VarNum(r1);
      Skip(r2, MetaSize(meta, n), meta).1
    else r.(error := true)
  }

  /** One round of the loop of `midifile_read_track`; the track is over when the file ends. */
  function ReadEvent(r: Reader, selected: int): (x: (bool, Reader))
    ensures |x.1.rest| <= |r.rest| && (!x.0 ==> |x.1.rest| < |r.rest|)
  {
    var (delta, r1) := VarNum(r);
    var (byte1, r2) := Take(r1);
    if byte1 == EOF then (true, r2)
    else
      var r3 := r2.(ticks := r2.ticks + delta);
      if r3.sysex && byte1 != SYSTEM_EXCLUSIVE_CONTINUE then (true, r3.(error := true))
      else if byte1 < 128 then
        if r3.status < 128 then (true, r3.(error := true)) else (false, ReadMessage(r3, selected, byte1, byte1))
      else if byte1 < SYSTEM_EXCLUSIVE then
        var r4 := r3.(status := byte1 / 16 * 16, channel := byte1 % 16 + 1);
        var (data1, r5) := Take(r4);
        (false, ReadMessage(r5, selected, byte1, data1))
      else (false, ReadMessage(r3.(status := byte1), selected, byte1, 0))
  }

  function ReadEvents(r: Reader, selected: int): Reader
    decreases |r.rest|
  {
    if r.error || r.bytes <= 0 then r
    else
      var (over, r1) := ReadEvent(r, selected);
      if over then r1 else ReadEvents(r1, selected)
  }

  const MTRK: seq<byte> := [0x4d, 0x54, 0x72, 0x6b]

  /** `midifile_read_track` on what is left of a file. */
  function ReadTrack(file: seq<byte>, selected: int): Reader {
    if |file| < 8 || file[..4] != MTRK then Reader(file, 0, 0, 0, 0, false, true, [])
    else ReadEvents(Reader(file[8..], GetL(file[4..]), 0, 0, 0, false, false, []), selected)
  }

  // ---------------------------------------------------------------- writing

  /** The time that has passed for the file; it never runs backwards. */
  function Delta(ticks: int, e: Event): nat {
    if e.ticks - ticks < 0 then 0 else e.ticks - ticks
  }

  function StatusByte(e: Event): byte {
    (144 + e.kind % 16 * 16 + (e.channel - 1) % 16) % 256
  }

  /** `fts_midifile_write_channel_message` */
  function EventBytes(ticks: int, e: Event): seq<byte> {
    VarLen(Delta(ticks, e)) + ([StatusByte(e), (e.byte1 % 128) as byte] +
      if e.byte2 != EMPTY_BYTE then [(e.byte2 % 128) as byte] else [])
  }

  function EventsBytes(ticks: int, es: seq<Event>): seq<byte>
    decreases |es|
  {
    if es == [] then [] else EventBytes(ticks, es[0]) + EventsBytes(es[0].ticks, es[1..])
  }

  const TRACK_END: seq<byte> := [0, META_EVENT, END_OF_TRACK, 0]

  function TrackBytes(es: seq<Event>): seq<byte> {
    EventsBytes(0, es) + TRACK_END
  }

  /** The whole chunk of a track. */
  function Chunk(es: seq<Event>): seq<byte> {
    MTRK + WriteL(|TrackBytes(es)|) + TrackBytes(es)
  }

  // ---------------------------------------------------------------- the quantities round trip

  lemma TakeOne(r: Reader, c: byte, rest: seq<byte>)
    requires r.rest == [c] + rest
    ensures Take(r) == (c as int, r.(rest := rest, bytes := r.bytes - 1))
  {
    assert r.rest[1..] == rest;
  }

  /** What reading back a written quantity gives. */
  function ReadBack(value: nat): nat {
    if value < 0x1000_0000 then value else value - value % 128
  }

  /** The number whose groups of seven bits, highest first, are `gs`. */
  function Groups(gs: seq<nat>): nat {
    if gs == [] then 0 else Groups(gs[..|gs| - 1]) * 128 + gs[|gs| - 1]
  }

  /** Groups as they are written: all but the last one carry the continuation bit. */
  function Flagged(gs: seq<nat>): seq<byte>
    requires forall i :: 0 <= i < |gs| ==> gs[i] < 128
  {
    seq(|gs|, i requires 0 <= i < |gs| => if i < |gs| - 1 then gs[i] + 128 else gs[i])
  }

  /** `gs` are at most four groups of seven bits of `value`, or five of which the last one is lost and counts as 0. */
  ghost predicate GroupsOf(gs: seq<nat>, value: nat) {
    && |gs| > 0 && (forall i :: 0 <= i < |gs| ==> gs[i] < 128)
    && VarLen(value) == Flagged(gs) && Groups(gs) == ReadBack(value)
  }

  lemma Split(value: nat) returns (high: nat, low: nat)
    ensures high == value / 128 && low == value % 128 && value == 128 * high + low && low < 128
  {
    high, low := value / 128, value % 128;
  }

  lemma Groups5(a: nat, b: nat, c: nat, d: nat, e: nat)
    ensures Groups([e]) == e && Groups([d, e]) == d * 128 + e && Groups([c, d, e]) == (c * 128 + d) * 128 + e
    ensures Groups([b, c, d, e]) == ((b * 128 + c) * 128 + d) * 128 + e
    ensures Groups([a, b, c, d, e]) == (((a * 128 + b) * 128 + c) * 128 + d) * 128 + e
  {
    hide Groups;
    GroupsNone();
    GroupsSnoc([], e);
    GroupsSnoc([], d);
    GroupsSnoc([d], e);
    GroupsSnoc([], c);
    GroupsSnoc([c], d);
    GroupsSnoc([c, d], e);
    GroupsSnoc([], b);
    GroupsSnoc([b], c);
    GroupsSnoc([b, c], d);
    GroupsSnoc([b, c, d], e);
    GroupsSnoc([], a);
    GroupsSnoc([a], b);
    GroupsSnoc([a, b], c);
    GroupsSnoc([a, b, c], d);
    GroupsSnoc([a, b, c, d], e);
    assert [] + [a] == [a] && [] + [b] == [b] && [] + [c] == [c] && [] + [d] == [d] && [] + [e] == [e];
    assert [d] + [e] == [d, e] && [c] + [d] == [c, d] && [b] + [c] == [b, c] && [a] + [b] == [a, b];
    assert [c, d] + [e] == [c, d, e] && [b, c] + [d] == [b, c, d] && [a, b] + [c] == [a, b, c];
    assert [b, c, d] + [e] == [b, c, d, e] && [a, b, c] + [d] == [a, b, c, d] && [a, b, c, d] + [e] == [a, b, c, d, e];
  }

  lemma GroupsSnoc(gs: seq<nat>, g: nat)
    ensures Groups(gs + [g]) == Groups(gs) * 128 + g
  {
    assert (gs + [g])[..|gs + [g]| - 1] == gs;
  }

  /** A quantity is written as its groups, highest first; from 2^28 on the buffer has lost the lowest one. */
  lemma VarLenIs(value: nat) returns (gs: seq<nat>)
    requires value < 0x8000_0000
    ensures GroupsOf(gs, value)
  {
    hide Pack, Unpack, Groups;
    var v1, g0 := Split(value);
    var v2, g1 := Split(v1);
    var v3, g2 := Split(v2);
    var v4, g3 := Split(v3);
    Groups5(v4, g3, g2, g1, g0);
    Groups5(v4, g3, g2, g1, 0);
    PackDone(g0);
    if value < 128 {
      gs := [g0];
      Unpacks0(g0);
    } else if value < 0x4000 {
      gs := [v1, g0];
      TwoGroups(v1, g0);
    } else if value < 0x20_0000 {
      gs := [v2, g1, g0];
      ThreeGroups(v2, g1, g0);
    } else if value < 0x1000_0000 {
      gs := [v3, g2, g1, g0];
      FourGroups(v3, g2, g1, g0);
    } else {
      gs := [v4, g3, g2, g1, 0];
      FiveGroups(v4, g3, g2, g1, g0);
    }
  }

  lemma PackDone(buffer: nat)
    ensures Pack(buffer, 0) == buffer
  {
  }

  lemma Low7(high: nat, low: nat)
    requires low < 128
    ensures (128 * high + low) / 128 == high && (128 * high + low) % 128 == low
  {
  }

  lemma TwoGroups(a: nat, b: nat)
    requires 0 < a < 128 && b < 128
    ensures Unpack(Pack(b, a)) == [a + 128, b]
  {
    hide Pack, Unpack;
    Packs(b, a, 0);
    PackDone(b * 256 + 128 + a);
    Unpacks1(a, b);
  }

  lemma ThreeGroups(a: nat, b: nat, c: nat)
    requires 0 < a < 128 && b < 128 && c < 128
    ensures Unpack(Pack(c, 128 * a + b)) == [a + 128, b + 128, c]
  {
    hide Pack, Unpack;
    Low7(a, b);
    Packs(c, 128 * a + b, a);
    Packs(c * 256 + 128 + b, a, 0);
    PackDone((c * 256 + 128 + b) * 256 + 128 + a);
    Unpacks2(a, b, c);
  }

  lemma FourGroups(a: nat, b: nat, c: nat, d: nat)
    requires 0 < a < 128 && b < 128 && c < 128 && d < 128
    ensures Unpack(Pack(d, 128 * (128 * a + b) + c)) == [a + 128, b + 128, c + 128, d]
  {
    hide Pack, Unpack;
    Low7(128 * a + b, c);
    Low7(a, b);
    var x := d * 256 + 128 + c;
    var y := x * 256 + 128 + b;
    Packs(d, 128 * (128 * a + b) + c, 128 * a + b);
    Packs(x, 128 * a + b, a);
    Packs(y, a, 0);
    PackDone(y * 256 + 128 + a);
    Unpacks3(a, b, c, d);
  }

  lemma FiveGroups(a: nat, b: nat, c: nat, d: nat, e: nat)
    requires 0 < a < 128 && b < 128 && c < 128 && d < 128 && e < 128
    ensures Unpack(Pack(e, 128 * (128 * (128 * a + b) + c) + d)) == [a + 128, b + 128, c + 128, d + 128, 0]
  {
    hide Pack, Unpack;
    Low7(128 * (128 * a + b) + c, d);
    Low7(128 * a + b, c);
    Low7(a, b);
    var x := e * 256 + 128 + d;
    var y := x * 256 + 128 + c;
    Packs(e, 128 * (128 * (128 * a + b) + c) + d, 128 * (128 * a + b) + c);
    Packs(x, 128 * (128 * a + b) + c, 128 * a + b);
    Packs(y, 128 * a + b, a);
    Overflows(e, d, c, b, a);
    Unpacks4(a, b, c, d);
  }

  lemma Packs(buffer: nat, value: nat, next: nat)
    requires value > 0 && next == value / 128 && buffer < 0x100_0000
    ensures Pack(buffer, value) == Pack(buffer * 256 + 128 + value % 128, next)
  {
  }

  /** The fifth group pushes the first one out of the buffer. */
  lemma Overflows(g0: nat, g1: nat, g2: nat, g3: nat, v4: nat)
    requires g0 < 128 && g1 < 128 && g2 < 128 && g3 < 128 && 0 < v4 < 128
    ensures Pack(((g0 * 256 + 128 + g1) * 256 + 128 + g2) * 256 + 128 + g3, v4) ==
            (((128 + g1) * 256 + 128 + g2) * 256 + 128 + g3) * 256 + 128 + v4
  {
    var low := ((128 + g1) * 256 + 128 + g2) * 256 + 128 + g3;
    var buffer := ((g0 * 256 + 128 + g1) * 256 + 128 + g2) * 256 + 128 + g3;
    assert buffer * 256 == g0 * TWO32 + low * 256;
    assert (buffer * 256) % TWO32 == low * 256;
    assert v4 % 128 == v4 && v4 / 128 == 0;
    assert Pack(low * 256 + 128 + v4, 0) == low * 256 + 128 + v4;
  }

  lemma Unpacks0(g: nat)
    requires g < 128
    ensures Unpack(g) == [g]
  {
  }

  lemma UnpackStep(buffer: nat, b: nat)
    requires b < 128
    ensures Unpack(buffer * 256 + 128 + b) == [128 + b] + Unpack(buffer)
  {
    var x := buffer * 256 + 128 + b;
    assert x == 256 * buffer + (128 + b) && x / 256 == buffer && x % 256 == 128 + b;
    assert x / 128 == 2 * buffer + 1;
  }

  lemma Unpacks1(a: nat, b: nat)
    requires a < 128 && b < 128
    ensures Unpack(b * 256 + 128 + a) == [128 + a, b]
  {
    UnpackStep(b, a);
    Unpacks0(b);
  }

  lemma Unpacks2(a: nat, b: nat, c: nat)
    requires a < 128 && b < 128 && c < 128
    ensures Unpack((c * 256 + 128 + b) * 256 + 128 + a) == [128 + a, 128 + b, c]
  {
    UnpackStep(c * 256 + 128 + b, a);
    Unpacks1(b, c);
  }

  lemma Unpacks3(a: nat, b: nat, c: nat, d: nat)
    requires a < 128 && b < 128 && c < 128 && d < 128
    ensures Unpack(((d * 256 + 128 + c) * 256 + 128 + b) * 256 + 128 + a) == [128 + a, 128 + b, 128 + c, d]
  {
    UnpackStep((d * 256 + 128 + c) * 256 + 128 + b, a);
    Unpacks2(b, c, d);
  }

  lemma Unpacks4(a: nat, b: nat, c: nat, d: nat)
    requires a < 128 && b < 128 && c < 128 && d < 128
    ensures Unpack((((128 + d) * 256 + 128 + c) * 256 + 128 + b) * 256 + 128 + a) ==
            [128 + a, 128 + b, 128 + c, 128 + d, 0]
  {
    UnpackStep(((128 + d) * 256 + 128 + c) * 256 + 128 + b, a);
    UnpackStep((128 + d) * 256 + 128 + c, b);
    UnpackStep(128 + d, c);
    UnpackStep(0, d);
    assert 0 * 256 + 128 + d == 128 + d;
    Unpacks0(0);
  }

  lemma {:induction false} ReadsMore(r: Reader, gs: seq<nat>, value: int, rest: seq<byte>)
    requires |gs| > 0 && (forall i :: 0 <= i < |gs| ==> gs[i] < 128) && r.rest == Flagged(gs) + rest
    ensures VarMore(r, value, true) == (Append(value, gs), r.(rest := rest, bytes := r.bytes - |gs|))
    decreases |gs|
  {
    var more := gs[1..];
    var c := Flagged(gs)[0];
    var tail := (if more == [] then [] else Flagged(more)) + rest;
    assert r.rest == [c] + tail;
    TakeOne(r, c, tail);
    if more == [] {
      assert tail == rest;
    } else {
      Low7(1, gs[0]);
      ReadsMore(r.(rest := tail, bytes := r.bytes - 1), more, value * 128 + gs[0], rest);
    }
  }

  /** `value` followed by the groups `gs`. */
  function Append(value: int, gs: seq<nat>): int
    decreases |gs|
  {
    if gs == [] then value else Append(value * 128 + gs[0], gs[1..])
  }

  lemma {:induction false} AppendIs(value: nat, gs: seq<nat>, more: seq<nat>)
    requires value == Groups(gs)
    ensures Append(value, more) == Groups(gs + more)
    decreases |more|
  {
    if more == [] {
      assert gs + more == gs;
    } else {
      var gs' := gs + [more[0]];
      assert gs'[..|gs'| - 1] == gs && gs' + more[1..] == gs + more;
      AppendIs(value * 128 + more[0], gs', more[1..]);
    }
  }

  /** A quantity below 2^28 is read back as it was written; a larger one loses its last seven bits. */
  lemma QuantityReadBack(r: Reader, value: nat, rest: seq<byte>)
    requires value < 0x8000_0000 && r.rest == VarLen(value) + rest
    ensures VarNum(r) == (ReadBack(value), r.(rest := rest, bytes := r.bytes - |VarLen(value)|))
  {
    hide VarLen, Groups, Append;
    var gs := VarLenIs(value);
    VarNumIsMore(r);
    ReadsMore(r, gs, 0, rest);
    GroupsNone();
    AppendIs(0, [], gs);
    assert [] + gs == gs;
  }

  lemma GroupsNone()
    ensures Groups([]) == 0
  {
  }

  lemma VarNumIsMore(r: Reader)
    ensures VarNum(r) == VarMore(r, 0, true)
  {
  }

  /** A delta time makes the round trip exactly when it is below 2^28 or a multiple of 128. */
  lemma QuantityRoundTripIff(value: nat, rest: seq<byte>)
    requires value < 0x8000_0000
    ensures VarNum(Reader(VarLen(value) + rest, 0, 0, 0, 0, false, false, [])).0 == value <==>
            value < 0x1000_0000 || value % 128 == 0
  {
    QuantityReadBack(Reader(VarLen(value) + rest, 0, 0, 0, 0, false, false, []), value, rest);
  }

  // ---------------------------------------------------------------- messages round trip

  /** A channel message with the data bytes its kind has. */
  predicate WellFormed(e: Event) {
    && 0 <= e.ticks < 0x8000_0000 && NOTE <= e.kind <= BEND && 1 <= e.channel <= 16 && 0 <= e.byte1 < 128
    && if e.kind == PROGRAM || e.kind == PRESSURE then e.byte2 == EMPTY_BYTE else 0 <= e.byte2 < 128
  }

  lemma StatusIs(e: Event)
    requires WellFormed(e)
    ensures StatusByte(e) == 144 + e.kind * 16 + (e.channel - 1)
    ensures StatusByte(e) as int / 16 * 16 == 144 + e.kind * 16 && StatusByte(e) as int % 16 + 1 == e.channel
    ensures 144 <= StatusByte(e) < SYSTEM_EXCLUSIVE
  {
    var high, low := 9 + e.kind, e.channel - 1;
    assert e.kind % 16 == e.kind && low % 16 == low;
    Nibbles(high, low);
  }

  lemma Nibbles(high: nat, low: nat)
    requires low < 16 && high < 16
    ensures (16 * high + low) / 16 == high && (16 * high + low) % 16 == low
            && (16 * high + low) % 256 == 16 * high + low
  {
  }

  /** The reader after a message at `now` from channel `channel`. */
  function Heard(r: Reader, selected: int, e: Event, now: int, rest: seq<byte>, used: nat): Reader {
    var r1 := Reader(rest, r.bytes - used, now, 144 + e.kind * 16, e.channel, false, false, r.out);
    Deliver(r1, selected, e.kind, e.byte1, e.byte2)
  }

  lemma MessageReadBack(r: Reader, selected: int, e: Event, rest: seq<byte>)
    requires WellFormed(e) && r.status == 144 + e.kind * 16
    requires r.rest == (if e.byte2 != EMPTY_BYTE then [(e.byte2 % 128) as byte] else []) + rest
    ensures ReadMessage(r, selected, 0, e.byte1) ==
            Deliver(if e.byte2 != EMPTY_BYTE then r.(rest := rest, bytes := r.bytes - 1) else r.(rest := rest),
                    selected, e.kind, e.byte1, e.byte2)
    ensures forall byte1 :: ReadMessage(r, selected, byte1, e.byte1) == ReadMessage(r, selected, 0, e.byte1)
  {
    if e.byte2 != EMPTY_BYTE {
      TakeOne(r, e.byte2 as byte, rest);
    } else {
      assert r.rest == rest;
    }
  }

  lemma EventParts(ticks: int, e: Event, rest: seq<byte>)
    requires WellFormed(e)
    ensures var second := if e.byte2 != EMPTY_BYTE then [(e.byte2 % 128) as byte] else [];
            && EventBytes(ticks, e) + rest ==
                 VarLen(Delta(ticks, e)) + ([StatusByte(e)] + ([e.byte1 as byte] + (second + rest)))
            && |EventBytes(ticks, e)| == |VarLen(Delta(ticks, e))| + 2 + |second|
  {
    hide VarLen, StatusByte;
  }

  lemma EventReadBack(r: Reader, selected: int, ticks: int, e: Event, rest: seq<byte>)
    requires WellFormed(e) && 0 <= ticks < 0x8000_0000 && !r.sysex && !r.error && r.rest == EventBytes(ticks, e) + rest
    ensures ReadEvent(r, selected) ==
            (false, Heard(r, selected, e, r.ticks + ReadBack(Delta(ticks, e)), rest, |EventBytes(ticks, e)|))
  {
    hide VarLen, VarNum, ReadBack, ReadMessage, StatusByte, EventBytes;
    var delta := Delta(ticks, e);
    var second := if e.byte2 != EMPTY_BYTE then [(e.byte2 % 128) as byte] else [];
    var status := StatusByte(e);
    var tail := [e.byte1 as byte] + (second + rest);
    EventParts(ticks, e, rest);
    QuantityReadBack(r, delta, [status] + tail);
    var r1 := r.(rest := [status] + tail, bytes := r.bytes - |VarLen(delta)|);
    TakeOne(r1, status, tail);
    var r2 := r1.(rest := tail, bytes := r1.bytes - 1);
    StatusIs(e);
    var r4 := r2.(ticks := r2.ticks + ReadBack(delta), status := 144 + e.kind * 16, channel := e.channel);
    TakeOne(r4, e.byte1 as byte, second + rest);
    var r5 := r4.(rest := second + rest, bytes := r4.bytes - 1);
    MessageReadBack(r5, selected, e, rest);
  }

  /** The messages read back: at the times the reader adds up, on the selected channels. */
  function ReadBackAll(now: int, ticks: int, es: seq<Event>, selected: int): seq<Event>
    decreases |es|
  {
    if es == [] then []
    else
      var now' := now + ReadBack(Delta(ticks, es[0]));
      (if selected == 0 || es[0].channel == selected then [es[0].(ticks := now')] else []) +
      ReadBackAll(now', es[0].ticks, es[1..], selected)
  }

  lemma {:induction false} EventsReadBack(r: Reader, selected: int, ticks: int, es: seq<Event>, rest: seq<byte>)
    requires (forall i :: 0 <= i < |es| ==> WellFormed(es[i])) && 0 <= ticks < 0x8000_0000
    requires !r.sysex && !r.error && r.rest == EventsBytes(ticks, es) + (TRACK_END + rest)
    requires r.bytes == |EventsBytes(ticks, es)| + |TRACK_END|
    ensures var r' := ReadEvents(r, selected);
            !r'.error && r'.bytes == 0 && r'.rest == rest && r'.out == r.out + ReadBackAll(r.ticks, ticks, es, selected)
    decreases |es|
  {
    hide EventBytes, ReadEvent, ReadBack;
    if es == [] {
      assert r.rest == TRACK_END + rest;
      EndReadBack(r, selected, rest);
      assert r.out + [] == r.out;
    } else {
      var e, more := es[0], EventsBytes(es[0].ticks, es[1..]) + (TRACK_END + rest);
      assert r.rest == EventBytes(ticks, e) + more;
      EventReadBack(r, selected, ticks, e, more);
      var now := r.ticks + ReadBack(Delta(ticks, e));
      var r1 := Heard(r, selected, e, now, more, |EventBytes(ticks, e)|);
      EventsReadBack(r1, selected, e.ticks, es[1..], rest);
    }
  }

  lemma EndReadBack(r: Reader, selected: int, rest: seq<byte>)
    requires !r.sysex && !r.error && r.rest == TRACK_END + rest && r.bytes == |TRACK_END|
    ensures var r' := ReadEvents(r, selected); !r'.error && r'.bytes == 0 && r'.rest == rest && r'.out == r.out
  {
    var r1 := r.(rest := TRACK_END[1..] + rest, bytes := 3);
    TakeOne(r, 0, TRACK_END[1..] + rest);
    assert VarNum(r) == (0, r1);
    var r2 := r1.(rest := TRACK_END[2..] + rest, bytes := 2);
    TakeOne(r1, META_EVENT, TRACK_END[2..] + rest);
    var r3 := r2.(status := META_EVENT);
    var r4 := r3.(rest := [0] + rest, bytes := 1);
    TakeOne(r3, END_OF_TRACK, [0] + rest);
    var r5 := r4.(rest := rest, bytes := 0);
    TakeOne(r4, 0, rest);
    assert VarNum(r4) == (0, r5);
    assert ReadMessage(r3, selected, META_EVENT, 0) == r5;
    assert r2.(ticks := r2.ticks + 0) == r2;
    assert ReadEvent(r, selected) == (false, r5);
  }

  /** A written track is read back, whatever follows it in the file, as the same messages at the times the reader adds
      up, with no error. */
  lemma TrackReadBack(es: seq<Event>, more: seq<byte>, selected: int)
    requires (forall i :: 0 <= i < |es| ==> WellFormed(es[i])) && |TrackBytes(es)| < 0x8000_0000
    ensures var r := ReadTrack(Chunk(es) + more, selected);
            !r.error && r.rest == more && r.out == ReadBackAll(0, 0, es, selected)
  {
    hide EventsBytes, ReadEvents, GetL, WriteL;
    var body := TrackBytes(es);
    var file := Chunk(es) + more;
    ChunkParts(es, more);
    GetWriteL(|body|, body + more);
    assert body + more == EventsBytes(0, es) + (TRACK_END + more);
    EventsReadBack(Reader(body + more, |body|, 0, 0, 0, false, false, []), selected, 0, es, more);
    assert [] + ReadBackAll(0, 0, es, selected) == ReadBackAll(0, 0, es, selected);
  }

  lemma ChunkParts(es: seq<Event>, more: seq<byte>)
    ensures var file := Chunk(es) + more;
            && |file| >= 8 && file[..4] == MTRK && file[4..] == WriteL(|TrackBytes(es)|) + (TrackBytes(es) + more)
            && file[8..] == TrackBytes(es) + more
  {
    hide WriteL, TrackBytes;
  }

  /** Times that never run backwards, in steps the quantities can hold. */
  predicate Steady(ticks: int, es: seq<Event>)
    decreases |es|
  {
    es == [] ||
    (es[0].ticks >= ticks && (es[0].ticks - ticks < 0x1000_0000 || (es[0].ticks - ticks) % 128 == 0) &&
     Steady(es[0].ticks, es[1..]))
  }

  lemma {:induction false} SteadyIff(ticks: int, es: seq<Event>)
    ensures ReadBackAll(ticks, ticks, es, 0) == es <==> Steady(ticks, es)
    decreases |es|
  {
    if es != [] {
      var now := ticks + ReadBack(Delta(ticks, es[0]));
      var rest := ReadBackAll(now, es[0].ticks, es[1..], 0);
      assert ReadBackAll(ticks, ticks, es, 0) == [es[0].(ticks := now)] + rest;
      assert es == [es[0]] + es[1..];
      if now == es[0].ticks {
        SteadyIff(now, es[1..]);
        assert ([es[0].(ticks := now)] + rest)[1..] == rest;
      } else {
        assert ([es[0].(ticks := now)] + rest)[0] != es[0];
      }
    }
  }

  /** A track makes the round trip, messages and times, exactly when its times are steady. */
  lemma TrackRoundTripIff(es: seq<Event>, more: seq<byte>)
    requires (forall i :: 0 <= i < |es| ==> WellFormed(es[i])) && |TrackBytes(es)| < 0x8000_0000
    ensures ReadTrack(Chunk(es) + more, 0).out == es <==> Steady(0, es)
  {
    TrackReadBack(es, more, 0);
    SteadyIff(0, es);
  }

  /** A chunk is "MTrk", the number of bytes that follow, the messages, and the end of the track. */
  lemma ChunkLayout(es: seq<Event>)
    ensures Chunk(es)[..4] == [0x4d, 0x54, 0x72, 0x6b] && Chunk(es)[4..8] == WriteL(|Chunk(es)| - 8)
    ensures Chunk(es)[8..] == EventsBytes(0, es) + [0x00, 0xff, 0x2f, 0x00]
  {
    hide WriteL, EventsBytes;
    ChunkParts(es, []);
    assert Chunk(es) + [] == Chunk(es);
    var body := TrackBytes(es);
    assert body + [] == body;
  }

  // ---------------------------------------------------------------- what is read, byte by byte

  /** Channel messages have two data bytes, but for program changes and channel pressure. */
  predicate HasTwo(status: int) {
    status < 0xc0 || status >= 0xe0
  }

  /** What status `status` and its data bytes say: a note-off is a note of velocity 0, whatever its own velocity. */
  predicate IsMessage(e: Event, ticks: int, status: int, a: int, b: int) {
    && e.ticks == ticks && e.channel == status % 16 + 1 && e.byte1 == a
    && e.kind == (if status < 0xa0 then NOTE else if status < 0xb0 then POLY else if status < 0xc0 then CONTROL
                  else if status < 0xd0 then PROGRAM else if status < 0xe0 then PRESSURE else BEND)
    && e.byte2 == (if status < 0x90 then 0 else if HasTwo(status) then b else EMPTY_BYTE)
  }

  /** `r'` is `r` after `used` bytes that let `delta` ticks pass. */
  predicate Passed(r: Reader, r': Reader, delta: int, used: int, rest: seq<byte>) {
    r'.rest == rest && r'.bytes == r.bytes - used && r'.ticks == r.ticks + delta && r'.error == r.error
  }

  /** The message has been delivered, if its channel is selected, and nothing else. */
  predicate HasDelivered(r: Reader, r': Reader, selected: int, status: int, a: int, b: int) {
    if selected == 0 || selected == status % 16 + 1 then
      |r'.out| == |r.out| + 1 && r'.out[..|r.out|] == r.out && IsMessage(r'.out[|r.out|], r'.ticks, status, a, b)
    else r'.out == r.out
  }

  /** The reader takes a delta time and is at what comes behind it. */
  lemma DeltaRead(r: Reader, delta: nat, c: byte, more: seq<byte>)
    requires delta < 0x1000_0000 && r.rest == VarLen(delta) + ([c] + more)
    ensures VarNum(r) == (delta, r.(rest := [c] + more, bytes := r.bytes - |VarLen(delta)|))
    ensures Take(VarNum(r).1) == (c as int, r.(rest := more, bytes := r.bytes - |VarLen(delta)| - 1))
  {
    hide VarLen, VarNum, Take;
    QuantityReadBack(r, delta, [c] + more);
    TakeOne(VarNum(r).1, c, more);
  }

  /** What follows the first data byte. */
  lemma StatusRead(r: Reader, selected: int, byte1: int, a: int, b: byte, rest: seq<byte>)
    requires 0x80 <= r.status < 0xf0 && r.status % 16 == 0 && 1 <= r.channel <= 16
    requires r.rest == (if HasTwo(r.status) then [b] else []) + rest
    ensures var r', used := ReadMessage(r, selected, byte1, a), if HasTwo(r.status) then 1 else 0;
            && Passed(r, r', 0, used, rest) && r'.status == r.status && r'.channel == r.channel && r'.sysex == r.sysex
            && HasDelivered(r, r', selected, r.status + (r.channel - 1), a, b)
  {
    var high, low := r.status / 16, r.channel - 1;
    assert r.status == 16 * high && 8 <= high < 15;
    Nibbles(high, low);
    if HasTwo(r.status) {
      TakeOne(r, b, rest);
    } else {
      assert r.rest == rest;
    }
  }

  /** A channel message that comes with its status byte. */
  lemma ChannelMessageRead(r: Reader, selected: int, delta: nat, status: byte, a: byte, b: byte, rest: seq<byte>)
    requires delta < 0x1000_0000 && !r.sysex && 0x80 <= status < 0xf0
    requires r.rest == VarLen(delta) + ([status] + ([a] + ((if HasTwo(status) then [b] else []) + rest)))
    ensures var (over, r') := ReadEvent(r, selected);
            && !over && Passed(r, r', delta, |VarLen(delta)| + (if HasTwo(status) then 3 else 2), rest) && !r'.sysex
            && r'.status == status - status % 16 && r'.channel == status % 16 + 1
            && HasDelivered(r, r', selected, status, a, b)
  {
    hide VarLen, VarNum, Take, ReadMessage, Passed, HasDelivered;
    var second := if HasTwo(status) then [b] else [];
    DeltaRead(r, delta, status, [a] + (second + rest));
    var r4 := Take(VarNum(r).1).1.(ticks := r.ticks + delta, status := status / 16 * 16, channel := status % 16 + 1);
    TakeOne(r4, a, second + rest);
    var r5 := r4.(rest := second + rest, bytes := r4.bytes - 1);
    assert status / 16 * 16 + status % 16 == status;
    TwoOfStatus(status);
    StatusRead(r5, selected, status, a, b, rest);
    ThenPassed(r, r5, ReadMessage(r5, selected, status, a), selected, status, a, b, delta,
               |VarLen(delta)| + 2, if HasTwo(status) then 1 else 0, rest);
  }

  lemma TwoOfStatus(status: int)
    requires 0x80 <= status < 0xf0
    ensures 0x80 <= status / 16 * 16 < 0xf0 && status / 16 * 16 % 16 == 0
    ensures HasTwo(status / 16 * 16) == HasTwo(status)
  {
    var high := status / 16;
    assert (16 * high) % 16 == 0;
  }

  lemma ThenPassed(r: Reader, r1: Reader, r': Reader, selected: int, status: int, a: int, b: int, delta: int,
                   used: int, more: int, rest: seq<byte>)
    requires r1.bytes == r.bytes - used && r1.ticks == r.ticks + delta && r1.error == r.error && r1.out == r.out
    requires Passed(r1, r', 0, more, rest) && HasDelivered(r1, r', selected, status, a, b)
    ensures Passed(r, r', delta, used + more, rest) && HasDelivered(r, r', selected, status, a, b)
  {
  }

  /** A data byte in place of a status byte repeats the last channel status with that byte as its first data byte. */
  lemma RunningStatusRead(r: Reader, selected: int, delta: nat, a: byte, b: byte, rest: seq<byte>)
    requires delta < 0x1000_0000 && !r.sysex && a < 128
    requires 0x80 <= r.status < 0xf0 && r.status % 16 == 0 && 1 <= r.channel <= 16
    requires r.rest == VarLen(delta) + ([a] + ((if HasTwo(r.status) then [b] else []) + rest))
    ensures var (over, r') := ReadEvent(r, selected);
            && !over && Passed(r, r', delta, |VarLen(delta)| + (if HasTwo(r.status) then 2 else 1), rest) && !r'.sysex
            && r'.status == r.status && r'.channel == r.channel
            && HasDelivered(r, r', selected, r.status + (r.channel - 1), a, b)
  {
    hide VarLen, VarNum, Take, ReadMessage, Passed, HasDelivered;
    var second := if HasTwo(r.status) then [b] else [];
    DeltaRead(r, delta, a, second + rest);
    var r3 := Take(VarNum(r).1).1.(ticks := r.ticks + delta);
    StatusRead(r3, selected, a, a, b, rest);
    ThenPassed(r, r3, ReadMessage(r3, selected, a, a), selected, r.status + (r.channel - 1), a, b, delta,
               |VarLen(delta)| + 1, if HasTwo(r.status) then 1 else 0, rest);
  }

  /** Without a status before it, it ends the track in error. */
  lemma NoStatusYet(r: Reader, selected: int, delta: nat, a: byte, more: seq<byte>)
    requires delta < 0x1000_0000 && a < 128 && r.status < 128 && r.rest == VarLen(delta) + ([a] + more)
    ensures var (over, r') := ReadEvent(r, selected); over && r'.error && r'.out == r.out
  {
    hide VarLen, VarNum, Take;
    DeltaRead(r, delta, a, more);
  }

  lemma {:induction false} SkipIs(r: Reader, body: seq<byte>, rest: seq<byte>, last: int)
    requires r.rest == body + rest
    ensures Skip(r, |body|, last) ==
            (if body == [] then last else body[|body| - 1] as int, r.(rest := rest, bytes := r.bytes - |body|))
    decreases |body|
  {
    if body == [] {
      assert r.rest == rest;
    } else {
      assert r.rest == [body[0]] + (body[1..] + rest);
      TakeOne(r, body[0], body[1..] + rest);
      SkipIs(r.(rest := body[1..] + rest, bytes := r.bytes - 1), body[1..], rest, body[0]);
    }
  }

  /** A quantity and as many bytes as are skipped behind it. */
  lemma BodyRead(r: Reader, n: nat, size: nat, body: seq<byte>, rest: seq<byte>, last: int)
    requires n < 0x1000_0000 && r.rest == VarLen(n) + (body + rest) && |body| == size
    ensures VarNum(r).0 == n && Skip(VarNum(r).1, size, last) ==
            (if body == [] then last else body[size - 1] as int,
             r.(rest := rest, bytes := r.bytes - |VarLen(n)| - size))
  {
    hide VarLen, VarNum, Skip;
    QuantityReadBack(r, n, body + rest);
    SkipIs(VarNum(r).1, body, rest, last);
  }

  /** A meta event takes its kind, its length and its bytes, which are as many as the length says but for the kinds of
      fixed size, and delivers no channel message. */
  lemma MetaRead(r: Reader, selected: int, delta: nat, meta: byte, n: nat, body: seq<byte>, rest: seq<byte>)
    requires delta < 0x1000_0000 && n < 0x1000_0000 && !r.sysex
    requires |body| == if meta == 0x00 || meta == 0x59 then 2 else if meta == 0x2f then 0 else if meta == 0x51 then 3
                       else if meta == 0x54 then 5 else if meta == 0x58 then 4 else n
    requires r.rest == VarLen(delta) + ([0xff] + ([meta] + (VarLen(n) + (body + rest))))
    ensures var (over, r') := ReadEvent(r, selected);
            && !over && Passed(r, r', delta, |VarLen(delta)| + 2 + |VarLen(n)| + |body|, rest) && !r'.sysex
            && r'.out == r.out && r'.channel == r.channel
  {
    hide VarLen, VarNum, Take, Skip;
    DeltaRead(r, delta, 0xff, [meta] + (VarLen(n) + (body + rest)));
    var r3 := Take(VarNum(r).1).1.(ticks := r.ticks + delta, status := 0xff);
    TakeOne(r3, meta, VarLen(n) + (body + rest));
    BodyRead(Take(r3).1, n, |body|, body, rest, meta);
    assert MetaSize(meta, n) == |body|;
  }

  /** A system exclusive message takes its length and its bytes and delivers no channel message.  If its last byte is
      not 0xf7 it is to be continued. */
  lemma SysexRead(r: Reader, selected: int, delta: nat, body: seq<byte>, rest: seq<byte>)
    requires delta < 0x1000_0000 && |body| < 0x1000_0000 && !r.sysex
    requires r.rest == VarLen(delta) + ([0xf0] + (VarLen(|body|) + (body + rest)))
    ensures var (over, r') := ReadEvent(r, selected);
            && !over && Passed(r, r', delta, |VarLen(delta)| + 1 + |VarLen(|body|)| + |body|, rest)
            && r'.out == r.out && r'.channel == r.channel
            && (r'.sysex <==> body == [] || body[|body| - 1] != 0xf7)
  {
    hide VarLen, VarNum, Take, Skip;
    DeltaRead(r, delta, 0xf0, VarLen(|body|) + (body + rest));
    var r3 := Take(VarNum(r).1).1.(ticks := r.ticks + delta, status := 0xf0);
    BodyRead(r3, |body|, |body|, body, rest, 0xf0);
  }

  /** A continuation ends the message it continues when its last byte is 0xf7; without one it is a message by itself. */
  lemma ContinuationRead(r: Reader, selected: int, delta: nat, body: seq<byte>, rest: seq<byte>)
    requires delta < 0x1000_0000 && |body| < 0x1000_0000
    requires r.rest == VarLen(delta) + ([0xf7] + (VarLen(|body|) + (body + rest)))
    ensures var (over, r') := ReadEvent(r, selected);
            && !over && Passed(r, r', delta, |VarLen(delta)| + 1 + |VarLen(|body|)| + |body|, rest)
            && r'.out == r.out && r'.channel == r.channel
            && (r'.sysex <==> r.sysex && body != [] && body[|body| - 1] != 0xf7)
  {
    hide VarLen, VarNum, Take, Skip;
    DeltaRead(r, delta, 0xf7, VarLen(|body|) + (body + rest));
    var r3 := Take(VarNum(r).1).1.(ticks := r.ticks + delta, status := 0xf7);
    BodyRead(r3, |body|, |body|, body, rest, 0xf7);
  }

  /** While a message is to be continued anything but a continuation is an error, and so are the other status bytes
      above 0xf0. */
  lemma UnexpectedRead(r: Reader, selected: int, delta: nat, c: byte, more: seq<byte>)
    requires delta < 0x1000_0000 && r.rest == VarLen(delta) + ([c] + more)
    requires (r.sysex && c != 0xf7) || (c > 0xf0 && c != 0xf7 && c != 0xff)
    ensures var (_, r') := ReadEvent(r, selected); r'.error && r'.out == r.out
  {
    hide VarLen, VarNum, Take;
    DeltaRead(r, delta, c, more);
  }

  // ---------------------------------------------------------------- the file

  /** `bs` written at position `pos`. */
  function Overwrite(file: seq<byte>, pos: nat, bs: seq<byte>): seq<byte>
    requires pos <= |file|
  {
    file[..pos] + bs + if pos + |bs| <= |file| then file[pos + |bs|..] else []
  }

  class MidiWriter {
    var file: seq<byte>
    var pos: nat
    var buf: array<byte>
    var bufSize: nat
    /** where the current track starts */
    var bytes: nat
    /** bytes flushed since the track began */
    var size: int
    var ticks: int

    ghost predicate Valid()
      reads this
    {
      bufSize <= BLOCK_SIZE == buf.Length && pos <= |file|
    }

    ghost function Pending(): seq<byte>
      requires Valid()
      reads this, buf
    {
      buf[..bufSize]
    }

    /** Everything written so far, when writing at the end of the file. */
    ghost function Out(): seq<byte>
      requires Valid()
      reads this, buf
    {
      file + Pending()
    }

    constructor (file: seq<byte>)
      ensures Valid() && fresh(buf) && Out() == file && this.file == file && pos == |file| && bufSize == 0
    {
      this.file, pos := file, |file|;
      buf, bufSize, bytes, size, ticks := new byte[BLOCK_SIZE], 0, 0, 0, 0;
    }

    method WriteBlock()
      requires Valid()
      modifies this
      ensures Valid() && buf == old(buf) && bufSize == 0
      ensures file == Overwrite(old(file), old(pos), old(Pending())) && pos == old(pos) + old(bufSize)
      ensures size == old(size) + old(bufSize) && bytes == old(bytes) && ticks == old(ticks)
      ensures old(pos == |file|) ==> file == old(Out()) && pos == |file|
    {
      file := Overwrite(file, pos, buf[..bufSize]);
      pos := pos + bufSize;
      size := size + bufSize;
      bufSize := 0;
    }

    method WriteByte(c: byte)
      requires Valid()
      modifies this, buf
      ensures Valid() && buf == old(buf) && bytes == old(bytes) && ticks == old(ticks)
      ensures size + bufSize == old(size + bufSize) + 1
      ensures old(pos == |file|) ==> pos == |file| && Out() == old(Out()) + [c]
      ensures old(bufSize) < BLOCK_SIZE ==>
                file == old(file) && pos == old(pos) && size == old(size) && Pending() == old(Pending()) + [c]
    {
      if bufSize >= BLOCK_SIZE {
        WriteBlock();
      }
      buf[bufSize] := c;
      bufSize := bufSize + 1;
    }

    /** Appends `bs`, byte by byte. */
    method WriteBytes(bs: seq<byte>)
      requires Valid() && pos == |file|
      modifies this, buf
      ensures Valid() && buf == old(buf) && pos == |file| && Out() == old(Out()) + bs
      ensures size + bufSize == old(size + bufSize) + |bs| && bytes == old(bytes) && ticks == old(ticks)
    {
      var i := 0;
      while i < |bs|
        invariant i <= |bs| && Valid() && buf == old(buf) && pos == |file| && Out() == old(Out()) + bs[..i]
        invariant size + bufSize == old(size + bufSize) + i && bytes == old(bytes) && ticks == old(ticks)
      {
        assert bs[..i + 1] == bs[..i] + [bs[i]];
        WriteByte(bs[i]);
        i := i + 1;
      }
      assert bs[..i] == bs;
    }

    method WriteVarLen(value: nat)
      requires Valid() && pos == |file|
      modifies this, buf
      ensures Valid() && buf == old(buf) && pos == |file| && Out() == old(Out()) + VarLen(value)
      ensures size + bufSize == old(size + bufSize) + |VarLen(value)| && bytes == old(bytes) && ticks == old(ticks)
    {
      hide Unpack, Valid, Pending, Out;
      var buffer: nat, left: nat := value % 128, value / 128;
      while left > 0
        invariant Pack(buffer, left) == Pack(value % 128, value / 128)
      {
        buffer := (buffer * 256) % TWO32 + 128 + left % 128;
        left := left / 128;
      }
      Drain(buffer);
    }

    method Drain(value: nat)
      requires Valid() && pos == |file|
      modifies this, buf
      ensures Valid() && buf == old(buf) && pos == |file| && Out() == old(Out()) + Unpack(value)
      ensures size + bufSize == old(size + bufSize) + |Unpack(value)| && bytes == old(bytes) && ticks == old(ticks)
    {
      hide Valid, Pending, Out;
      var buffer := value;
      ghost var done: seq<byte> := [];
      while (buffer / 128) % 2 == 1
        invariant Unpack(value) == done + Unpack(buffer)
        invariant Valid() && buf == old(buf) && pos == |file| && Out() == old(Out()) + done
        invariant size + bufSize == old(size + bufSize) + |done| && bytes == old(bytes) && ticks == old(ticks)
        decreases buffer
      {
        ghost var tail, last := Unpack(buffer / 256), (buffer % 256) as byte;
        Regroup(done, last, tail);
        WriteByte(buffer % 256);
        done := done + [last];
        buffer := buffer / 256;
      }
      WriteByte(buffer % 256);
    }

    method WriteChannelMessage(e: Event)
      requires Valid() && pos == |file|
      modifies this, buf
      ensures Valid() && buf == old(buf) && pos == |file| && ticks == e.ticks && bytes == old(bytes)
      ensures Out() == old(Out()) + EventBytes(old(ticks), e)
      ensures size + bufSize == old(size + bufSize) + |EventBytes(old(ticks), e)|
    {
      hide VarLen, StatusByte;
      ghost var out, time := Out(), ticks;
      var delta := e.ticks - ticks;
      if delta < 0 {
        delta := 0;
      }
      WriteVarLen(delta);
      ticks := e.ticks;
      WriteByte(StatusByte(e));
      WriteByte(e.byte1 % 128);
      ghost var quantity := VarLen(Delta(time, e));
      ghost var second := if e.byte2 != EMPTY_BYTE then [(e.byte2 % 128) as byte] else [];
      if e.byte2 != EMPTY_BYTE {
        WriteByte(e.byte2 % 128);
      }
      FourParts(out, quantity, StatusByte(e), (e.byte1 % 128) as byte, second);
    }

    /** `fts_midifile_write_track_begin`: the length is written as 0 and corrected later. */
    method WriteTrackBegin()
      requires Valid() && pos == |file|
      modifies this, buf
      ensures Valid() && buf == old(buf) && pos == |file| && bufSize == 0 && size == 0 && ticks == 0
      ensures bytes == |old(Out())| && file == old(Out()) + (MTRK + [0, 0, 0, 0])
    {
      WriteBlock();
      ghost var start := file;
      bytes := pos;
      WriteBytes(MTRK);
      WriteBytes([0, 0, 0, 0]);
      assert start + [] + MTRK + [0, 0, 0, 0] == start + (MTRK + [0, 0, 0, 0]);
      WriteBlock();
      size, ticks := 0, 0;
    }

    /** `fts_midifile_write_track_end`: rewinds and writes the real size at the beginning of the track. */
    method WriteTrackEnd(ghost before: seq<byte>, ghost body: seq<byte>)
      requires Valid() && pos == |file| && bytes == |before| && size + bufSize == |body|
      requires Out() == before + (MTRK + [0, 0, 0, 0]) + body
      modifies this, buf
      ensures Valid() && pos == |file| && bufSize == 0
      ensures file == before + (MTRK + WriteL(|body| + |TRACK_END|) + (body + TRACK_END))
    {
      hide WriteL;
      WriteBytes(TRACK_END);
      WriteBlock();
      var filepos, length := pos, size;
      ghost var all := body + TRACK_END;
      Associate(before + (MTRK + [0, 0, 0, 0]), body, TRACK_END);
      pos := bytes;
      WriteHeader(length);
      ghost var header := MTRK + WriteL(length);
      assert Pending() == header;
      WriteBlock();
      HeaderReplaced(before, [0, 0, 0, 0], WriteL(length), all);
      Associate(before, header, all);
      pos := filepos;
    }

    method WriteHeader(length: int)
      requires Valid() && bufSize == 0
      modifies this, buf
      ensures Valid() && buf == old(buf) && file == old(file) && pos == old(pos) && size == old(size)
              && bytes == old(bytes)
      ensures Pending() == MTRK + WriteL(length)
    {
      hide WriteL;
      var header := MTRK + WriteL(length);
      var i := 0;
      while i < |header|
        invariant i <= |header| == 8 && Valid() && buf == old(buf) && bufSize == i && Pending() == header[..i]
        invariant file == old(file) && pos == old(pos) && size == old(size) && bytes == old(bytes)
      {
        assert header[..i + 1] == header[..i] + [header[i]];
        WriteByte(header[i]);
        i := i + 1;
      }
      assert header[..i] == header;
    }

    /** A whole track. */
    method WriteTrack(es: seq<Event>)
      requires Valid() && pos == |file|
      modifies this, buf
      ensures Valid() && file == old(Out()) + Chunk(es)
    {
      hide WriteL, EventBytes;
      ghost var before := Out();
      WriteTrackBegin();
      ghost var start := Out();
      ghost var body: seq<byte> := [];
      var i := 0;
      while i < |es|
        invariant i <= |es| && Valid() && buf == old(buf) && pos == |file| && bytes == |before|
        invariant Out() == start + body && size + bufSize == |body|
        invariant EventsBytes(0, es) == body + EventsBytes(ticks, es[i..])
      {
        ghost var one := EventBytes(ticks, es[i]);
        assert es[i..][0] == es[i] && es[i..][1..] == es[i + 1..];
        WriteChannelMessage(es[i]);
        body := body + one;
        i := i + 1;
      }
      assert es[i..] == [] && EventsBytes(0, es) == body + [] == body;
      WriteTrackEnd(before, body);
    }
  }

  class MidiReader {
    const file: seq<byte>
    const selected: int
    /** how much of the file has been read into the buffer */
    var filePos: nat
    var buf: seq<byte>
    var bufIdx: nat
    var bytes: int
    var ticks: int
    var status: int
    var channel: int
    var sysex: bool
    var error: bool
    var out: seq<Event>

    ghost predicate Valid()
      reads this
    {
      filePos <= |file| && bufIdx <= |buf| <= BLOCK_SIZE
    }

    ghost function Rest(): seq<byte>
      requires Valid()
      reads this
    {
      buf[bufIdx..] + file[filePos..]
    }

    ghost function R(): Reader
      requires Valid()
      reads this
    {
      Reader(Rest(), bytes, ticks, status, channel, sysex, error, out)
    }

    constructor (file: seq<byte>, selected: int)
      ensures Valid() && this.file == file && this.selected == selected
              && R() == Reader(file, 0, 0, 0, 0, false, false, [])
    {
      this.file, this.selected := file, selected;
      filePos, buf, bufIdx, bytes, ticks, status, channel, sysex, error, out := 0, [], 0, 0, 0, 0, 0, false, false, [];
    }

    /** `readbyte`: reads a block when the buffer is used up. */
    method ReadByte() returns (c: int)
      requires Valid()
      modifies this`filePos, this`buf, this`bufIdx, this`bytes
      ensures Valid() && (c, R()) == Take(old(R()))
    {
      ghost var rest := Rest();
      if bufIdx >= |buf| {
        var size := if |file| - filePos < BLOCK_SIZE then |file| - filePos else BLOCK_SIZE;
        buf := file[filePos..filePos + size];
        filePos := filePos + size;
        bufIdx := 0;
        if |buf| == 0 {
          return EOF;
        }
      }
      assert Rest() == rest;
      c := buf[bufIdx];
      bufIdx := bufIdx + 1;
      bytes := bytes - 1;
      assert Rest() == rest[1..];
    }

    /** `readvarinum` */
    method ReadVarNum() returns (value: int)
      requires Valid()
      modifies this`filePos, this`buf, this`bufIdx, this`bytes
      ensures Valid() && (value, R()) == VarNum(old(R()))
    {
      hide Valid, Rest, Take;
      ghost var r0 := R();
      var c := ReadByte();
      if c == EOF {
        return 0;
      }
      value := c % 128;
      while c >= 128
        invariant Valid() && VarMore(R(), value, c >= 128) == VarNum(r0)
        decreases |R().rest|, c
      {
        c := ReadByte();
        if c == EOF {
          return 0;
        }
        value := value * 128 + c % 128;
      }
    }

    method SkipBytes(n: int, first: int) returns (last: int)
      requires Valid()
      modifies this`filePos, this`buf, this`bufIdx, this`bytes
      ensures Valid() && (last, R()) == Skip(old(R()), n, first)
    {
      hide Valid, Rest, Take;
      last := first;
      var i := 0;
      while i < n
        invariant 0 <= i && (i <= n || i == 0) && Valid() && Skip(R(), n - i, last) == Skip(old(R()), n, first)
      {
        last := ReadByte();
        i := i + 1;
      }
    }

    method Call(kind: int, byte1: int, byte2: int)
      requires Valid()
      modifies this`out
      ensures Valid() && R() == Deliver(old(R()), selected, kind, byte1, byte2)
    {
      if selected == 0 || channel == selected {
        out := out + [Event(ticks, kind, channel, byte1, byte2)];
      }
    }

    method CallTwo(kind: int, byte1: int)
      requires Valid()
      modifies this`filePos, this`buf, this`bufIdx, this`bytes, this`out
      ensures Valid() && R() == TwoBytes(old(R()), selected, kind, byte1)
    {
      hide Rest, Take;
      var byte2 := ReadByte();
      Call(kind, byte1, byte2);
    }

    /** The switch over the status of `midifile_read_track`. */
    method ReadStatus(byte1: int, data1: int)
      requires Valid()
      modifies this
      ensures Valid() && R() == ReadMessage(old(R()), selected, byte1, data1)
    {
      hide Take, Deliver, TwoBytes, VarNum, Skip;
      if status == NOTE_OFF {
        var data2 := ReadByte();
        Call(NOTE, data1, 0);
      } else if status == NOTE_ON {
        CallTwo(NOTE, data1);
      } else if status == POLY_PRESSURE {
        CallTwo(POLY, data1);
      } else if status == CONTROL_CHANGE {
        CallTwo(CONTROL, data1);
      } else if status == PROGRAM_CHANGE {
        Call(PROGRAM, data1, EMPTY_BYTE);
      } else if status == CHANNEL_PRESSURE {
        Call(PRESSURE, data1, EMPTY_BYTE);
      } else if status == PITCH_BEND {
        CallTwo(BEND, data1);
      } else if status == SYSTEM_EXCLUSIVE {
        var n := ReadVarNum();
        var last := SkipBytes(n, byte1);
        if last != SYSTEM_EXCLUSIVE_CONTINUE {
          sysex := true;
        }
      } else if status == SYSTEM_EXCLUSIVE_CONTINUE {
        var n := ReadVarNum();
        var last := SkipBytes(n, byte1);
        if sysex && last == SYSTEM_EXCLUSIVE_CONTINUE {
          sysex := false;
        }
      } else if status == META_EVENT {
        var meta := ReadByte();
        var n := ReadVarNum();
        var _ := SkipBytes(MetaSize(meta, n), meta);
      } else {
        error := true;
      }
    }

    /** One round of the loop. */
    method ReadOne() returns (over: bool)
      requires Valid()
      modifies this
      ensures Valid() && (over, R()) == ReadEvent(old(R()), selected)
    {
      hide Take, VarNum, ReadMessage;
      var delta := ReadVarNum();
      var byte1 := ReadByte();
      if byte1 == EOF {
        return true;
      }
      ticks := ticks + delta;
      if sysex && byte1 != SYSTEM_EXCLUSIVE_CONTINUE {
        error := true;
        return true;
      }
      var data1 := 0;
      if byte1 < 128 {
        if status < 128 {
          error := true;
          return true;
        }
        data1 := byte1;
      } else if byte1 < SYSTEM_EXCLUSIVE {
        status := byte1 / 16 * 16;
        channel := byte1 % 16 + 1;
        data1 := ReadByte();
      } else {
        status := byte1;
      }
      ReadStatus(byte1, data1);
      over := false;
    }

    method ReadAll()
      requires Valid()
      modifies this
      ensures Valid() && R() == ReadEvents(old(R()), selected)
    {
      hide Valid, Rest, ReadEvent;
      while !error && bytes > 0
        invariant Valid() && ReadEvents(R(), selected) == ReadEvents(old(R()), selected)
        decreases |R().rest|
      {
        var over := ReadOne();
        if over {
          return;
        }
      }
    }
  }

  lemma Regroup(a: seq<byte>, x: byte, b: seq<byte>)
    ensures a + ([x] + b) == (a + [x]) + b
  {
  }

  lemma FourParts(a: seq<byte>, b: seq<byte>, x: byte, y: byte, c: seq<byte>)
    ensures a + (b + ([x, y] + c)) == a + b + [x] + [y] + c
    ensures c == [] ==> a + b + [x] + [y] + c == a + b + [x] + [y]
  {
  }

  lemma Associate(a: seq<byte>, b: seq<byte>, c: seq<byte>)
    ensures a + (b + c) == (a + b) + c
  {
  }

  lemma HeaderReplaced(before: seq<byte>, old4: seq<byte>, new4: seq<byte>, all: seq<byte>)
    requires |old4| == |new4| == 4
    ensures Overwrite(before + (MTRK + old4) + all, |before|, MTRK + new4) == before + (MTRK + new4) + all
  {
    var file := before + (MTRK + old4) + all;
    assert file[..|before|] == before && file[|before| + 8..] == all;
  }
}
