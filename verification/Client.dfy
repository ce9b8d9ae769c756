/** The wire protocol between the server and its clients: an encoder with a symbol cache, and a decoder that is a
    byte-wise automaton with a symbol cache of its own. */
module Client {
  import opened Bytes

  const INT := 0x01
  const FLOAT := 0x02
  const SYMBOL_INDEX := 0x03
  const SYMBOL_CACHE := 0x04
  const STRING := 0x05
  const OBJECT := 0x06
  const RAW_STRING := 0x07
  const END_OF_MESSAGE := 0x0F

  const SYMBOL_CACHE_SIZE: nat := 1031

  type Chars = seq<byte>

  datatype Option<T> = None | Some(value: T)

  /** What is sent: doubles are eight bytes, and an object is known by its number. */
  datatype Arg = Int(i: int32) | Float(bits: seq<byte>) | Sym(s: Chars) | Str(s: Chars) | Obj(o: nat)

  datatype Message = Message(target: nat, selector: Chars, args: seq<Arg>)

  /** What is received: `Void` for an unknown object, `Null` for a symbol the cache does not have. */
  datatype Value = VInt(i: int) | VFloat(bits: seq<byte>) | VSym(s: Chars) | VStr(s: Chars) | VObj(o: nat) | Void | Null

  datatype Delivery = Delivery(target: nat, selector: Chars, args: seq<Value>)

  /** What both sides share: where a symbol goes in the cache, the ids of objects and the object table; `tokens` splits
      a raw string, which the encoder never sends. */
  datatype Setting = Setting(hash: Chars -> nat, id: nat -> int32, table: map<int, nat>, tokens: Chars -> seq<Value>)

  function Slot(g: Setting, s: Chars): (k: nat)
    ensures k < SYMBOL_CACHE_SIZE
  {
    g.hash(s) % SYMBOL_CACHE_SIZE
  }

  // ---------------------------------------------------------------- the encoder

  type Cache = seq<Option<Chars>>

  /** Bytes written, and the cache after writing them. */
  datatype Written = Written(bytes: seq<byte>, cache: Cache)

  function EncodeSymbol(g: Setting, cache: Cache, s: Chars): Written
    requires |cache| == SYMBOL_CACHE_SIZE
  {
    var k := Slot(g, s);
    if cache[k] == Some(s) then Written([SYMBOL_INDEX] + WriteL(k), cache)
    else Written([SYMBOL_CACHE] + (WriteL(k) + (s + [0])), cache[k := Some(s)])
  }

  function EncodeArg(g: Setting, cache: Cache, a: Arg): (w: Written)
    requires |cache| == SYMBOL_CACHE_SIZE
    ensures |w.cache| == SYMBOL_CACHE_SIZE
  {
    match a
    case Int(i) => Written([INT] + WriteL(i), cache)
    case Float(bits) => Written([FLOAT] + bits, cache)
    case Sym(s) => EncodeSymbol(g, cache, s)
    case Str(s) => Written([STRING] + (s + [0]), cache)
    case Obj(o) => Written([OBJECT] + WriteL(g.id(o)), cache)
  }

  function EncodeArgs(g: Setting, cache: Cache, args: seq<Arg>): (w: Written)
    requires |cache| == SYMBOL_CACHE_SIZE
    ensures |w.cache| == SYMBOL_CACHE_SIZE
  {
    if args == [] then Written([], cache)
    else
      var first := EncodeArgs(g, cache, args[..|args| - 1]);
      var last := EncodeArg(g, first.cache, args[|args| - 1]);
      Written(first.bytes + last.bytes, last.cache)
  }

  /** The arguments of a message as they go over the wire: the object and the selector come first. */
  function AllArgs(msg: Message): seq<Arg> {
    [Obj(msg.target), Sym(msg.selector)] + msg.args
  }

  function EncodeMessage(g: Setting, cache: Cache, msg: Message): (w: Written)
    requires |cache| == SYMBOL_CACHE_SIZE
    ensures |w.cache| == SYMBOL_CACHE_SIZE
  {
    var w := EncodeArgs(g, cache, AllArgs(msg));
    Written(w.bytes + [END_OF_MESSAGE], w.cache)
  }

  function EncodeAll(g: Setting, cache: Cache, msgs: seq<Message>): (w: Written)
    requires |cache| == SYMBOL_CACHE_SIZE
    ensures |w.cache| == SYMBOL_CACHE_SIZE
  {
    if msgs == [] then Written([], cache)
    else
      var first := EncodeAll(g, cache, msgs[..|msgs| - 1]);
      var last := EncodeMessage(g, first.cache, msgs[|msgs| - 1]);
      Written(first.bytes + last.bytes, last.cache)
  }

  /** The bytes of each kind of argument.  A symbol is sent by its slot alone when the cache has it there, and with its
      characters, filling the slot, when it has not. */
  lemma ArgumentBytes(g: Setting, cache: Cache, a: Arg)
    requires |cache| == SYMBOL_CACHE_SIZE
    ensures var w := EncodeArg(g, cache, a);
            if a.Int? then w == Written([0x01] + WriteL(a.i), cache)
            else if a.Float? then w == Written([0x02] + a.bits, cache)
            else if a.Str? then w == Written([0x05] + a.s + [0x00], cache)
            else if a.Obj? then w == Written([0x06] + WriteL(g.id(a.o)), cache)
            else
              var k := g.hash(a.s) % 1031;
              if cache[k] == Some(a.s) then w == Written([0x03] + WriteL(k), cache)
              else w == Written([0x04] + WriteL(k) + a.s + [0x00], cache[k := Some(a.s)])
  {
    hide WriteL;
    if a.Str? {
      assert [STRING] + (a.s + [0]) == [STRING] + a.s + [0];
    }
    if a.Sym? {
      var k := Slot(g, a.s);
      assert [SYMBOL_CACHE] + (WriteL(k) + (a.s + [0])) == [SYMBOL_CACHE] + WriteL(k) + a.s + [0];
    }
  }

  /** A message is its target, its selector, its arguments and the byte that ends it. */
  lemma MessageBytes(g: Setting, cache: Cache, msg: Message)
    requires |cache| == SYMBOL_CACHE_SIZE
    ensures EncodeMessage(g, cache, msg).bytes ==
            EncodeArgs(g, cache, [Obj(msg.target), Sym(msg.selector)] + msg.args).bytes + [0x0f]
  {
  }

  // ---------------------------------------------------------------- the decoder

  /** States of the automaton; a number counts the bytes of the operand received so far. */
  datatype State =
    | Skipping
    | Initial
    | InInt(n: nat)
    | InFloat(n: nat)
    | InString
    | InObject(n: nat)
    | InSymbolIndex(n: nat)
    | InSymbolCache(n: nat)
    | InRawString

  datatype Decoder = Decoder(state: State, buffer: seq<byte>, args: seq<Value>, cache: Cache, out: seq<Delivery>)

  function IntOf(buffer: seq<byte>): int {
    if |buffer| >= 4 then GetL(buffer) else 0
  }

  /** `symbol_cache_put`: the decoder's cache grows as needed. */
  function CachePut(cache: Cache, s: Chars, k: int): Cache {
    if k < 0 then cache
    else if k < |cache| then cache[k := Some(s)]
    else cache + seq(k - |cache|, _ => None) + [Some(s)]
  }

  function CacheGet(cache: Cache, k: int): Value {
    if 0 <= k < |cache| && cache[k].Some? then VSym(cache[k].value) else Null
  }

  function Shift(d: Decoder, s: State, b: byte): Decoder {
    d.(state := s, buffer := d.buffer + [b])
  }

  function EndArg(d: Decoder, v: Value): Decoder {
    d.(state := Initial, args := d.args + [v])
  }

  function ObjectOf(g: Setting, id: int): Value {
    if id in g.table then VObj(g.table[id]) else Void
  }

  /** A message is delivered when it has a target and a selector; one to an unknown object is dropped. */
  function EndMessage(d: Decoder): Decoder {
    var d' := d.(state := Initial, args := []);
    if |d.args| >= 2 && d.args[0].VObj? && d.args[1].VSym? then
      d'.(out := d.out + [Delivery(d.args[0].o, d.args[1].s, d.args[2..])])
    else d'
  }

  /** The state a type byte leads to. */
  function StateFor(b: byte): State {
    if b == INT then InInt(0)
    else if b == FLOAT then InFloat(0)
    else if b == SYMBOL_INDEX then InSymbolIndex(0)
    else if b == SYMBOL_CACHE then InSymbolCache(0)
    else if b == STRING then InString
    else if b == RAW_STRING then InRawString
    else if b == OBJECT then InObject(0)
    else Skipping
  }

  /** `state_next` */
  function Step(g: Setting, d: Decoder, b: byte): Decoder {
    match d.state
    case Skipping => if b == END_OF_MESSAGE then d.(state := Initial) else d
    case Initial =>
      if b == END_OF_MESSAGE then EndMessage(d)
      else if StateFor(b) == Skipping then d.(state := Skipping)
      else d.(state := StateFor(b), buffer := [])
    case InInt(n) =>
      if n < 3 then Shift(d, InInt(n + 1), b)
      else var d1 := Shift(d, Initial, b); EndArg(d1, VInt(IntOf(d1.buffer)))
    case InFloat(n) =>
      if n < 7 then Shift(d, InFloat(n + 1), b)
      else var d1 := Shift(d, Initial, b); EndArg(d1, VFloat(d1.buffer))
    case InObject(n) =>
      if n < 3 then Shift(d, InObject(n + 1), b)
      else var d1 := Shift(d, Initial, b); EndArg(d1, ObjectOf(g, IntOf(d1.buffer)))
    case InSymbolIndex(n) =>
      if n < 3 then Shift(d, InSymbolIndex(n + 1), b)
      else var d1 := Shift(d, Initial, b); EndArg(d1, CacheGet(d.cache, IntOf(d1.buffer)))
    case InSymbolCache(n) =>
      if n < 4 then Shift(d, InSymbolCache(n + 1), b)
      else if b != 0 then Shift(d, InSymbolCache(n), b)
      else
        var s := if |d.buffer| >= 4 then d.buffer[4..] else [];
        EndArg(d.(cache := CachePut(d.cache, s, IntOf(d.buffer))), VSym(s))
    case InString => if b != 0 then Shift(d, InString, b) else EndArg(d, VStr(d.buffer))
    case InRawString =>
      if b != 0 then Shift(d, InRawString, b)
      else d.(state := Initial, args := d.args + g.tokens(d.buffer))
  }

  function Feed(g: Setting, d: Decoder, bs: seq<byte>): Decoder
    decreases |bs|
  {
    if bs == [] then d else Feed(g, Step(g, d, bs[0]), bs[1..])
  }

  /** How the bytes are cut into chunks makes no difference. */
  lemma {:induction false} FeedAppend(g: Setting, d: Decoder, a: seq<byte>, b: seq<byte>)
    ensures Feed(g, d, a + b) == Feed(g, Feed(g, d, a), b)
    decreases |a|
  {
    hide Step;
    if a == [] {
      assert a + b == b;
    } else {
      assert (a + b)[0] == a[0] && (a + b)[1..] == a[1..] + b;
      FeedAppend(g, Step(g, d, a[0]), a[1..], b);
    }
  }

  function FeedChunks(g: Setting, d: Decoder, chunks: seq<seq<byte>>): Decoder
    decreases |chunks|
  {
    if chunks == [] then d else FeedChunks(g, Feed(g, d, chunks[0]), chunks[1..])
  }

  function Flatten(chunks: seq<seq<byte>>): seq<byte>
    decreases |chunks|
  {
    if chunks == [] then [] else chunks[0] + Flatten(chunks[1..])
  }

  lemma {:induction false} ChunksDoNotMatter(g: Setting, d: Decoder, chunks: seq<seq<byte>>)
    ensures FeedChunks(g, d, chunks) == Feed(g, d, Flatten(chunks))
    decreases |chunks|
  {
    if chunks != [] {
      FeedAppend(g, d, chunks[0], Flatten(chunks[1..]));
      ChunksDoNotMatter(g, Feed(g, d, chunks[0]), chunks[1..]);
    }
  }

  // ---------------------------------------------------------------- what can be sent

  predicate NulFree(s: Chars) {
    forall i :: 0 <= i < |s| ==> s[i] != 0
  }

  /** The object is registered under its id. */
  predicate Registered(g: Setting, o: nat) {
    g.id(o) in g.table && g.table[g.id(o)] == o
  }

  predicate Sendable(g: Setting, a: Arg) {
    match a
    case Int(_) => true
    case Float(bits) => |bits| == 8
    case Sym(s) => NulFree(s)
    case Str(s) => NulFree(s)
    case Obj(o) => Registered(g, o)
  }

  ghost predicate SendableAll(g: Setting, args: seq<Arg>) {
    forall i :: 0 <= i < |args| ==> Sendable(g, args[i])
  }

  function Meaning(a: Arg): Value {
    match a
    case Int(i) => VInt(i)
    case Float(bits) => VFloat(bits)
    case Sym(s) => VSym(s)
    case Str(s) => VStr(s)
    case Obj(o) => VObj(o)
  }

  function Meanings(args: seq<Arg>): (vs: seq<Value>)
    ensures |vs| == |args|
  {
    seq(|args|, i requires 0 <= i < |args| => Meaning(args[i]))
  }

  /** Whatever slot the encoder has filled, the decoder has filled with the same symbol. */
  ghost predicate Coherent(sent: Cache, received: Cache) {
    |sent| == SYMBOL_CACHE_SIZE &&
    forall k :: 0 <= k < |sent| && sent[k].Some? ==> k < |received| && received[k] == sent[k]
  }

  // ---------------------------------------------------------------- one argument

  lemma FeedOne(g: Setting, d: Decoder, b: byte, rest: seq<byte>)
    ensures Feed(g, d, [b] + rest) == Feed(g, Step(g, d, b), rest)
  {
    hide Step;
    assert ([b] + rest)[0] == b && ([b] + rest)[1..] == rest;
  }

  /** Four bytes of an operand. */
  lemma FeedFour(g: Setting, d: Decoder, bs: seq<byte>)
    requires |bs| == 4
    ensures Feed(g, d, bs) == Step(g, Step(g, Step(g, Step(g, d, bs[0]), bs[1]), bs[2]), bs[3])
  {
    hide Step;
    var d1 := Step(g, d, bs[0]);
    var d2 := Step(g, d1, bs[1]);
    var d3 := Step(g, d2, bs[2]);
    var d4 := Step(g, d3, bs[3]);
    assert bs == [bs[0]] + ([bs[1]] + ([bs[2]] + ([bs[3]] + [])));
    FeedOne(g, d, bs[0], [bs[1]] + ([bs[2]] + ([bs[3]] + [])));
    FeedOne(g, d1, bs[1], [bs[2]] + ([bs[3]] + []));
    FeedOne(g, d2, bs[2], [bs[3]] + []);
    FeedOne(g, d3, bs[3], []);
  }

  lemma Four(bs: seq<byte>)
    requires |bs| == 4
    ensures (([] + [bs[0]]) + [bs[1]]) + [bs[2]] + [bs[3]] == bs
  {
  }

  lemma IntReceived(g: Setting, d: Decoder, i: int32)
    requires d.state == InInt(0) && d.buffer == []
    ensures Feed(g, d, WriteL(i)) == EndArg(d.(buffer := WriteL(i)), VInt(i))
  {
    hide WriteL, GetL;
    FeedFour(g, d, WriteL(i));
    Four(WriteL(i));
    GetWriteL(i, []);
    assert WriteL(i) + [] == WriteL(i);
  }

  lemma ObjectReceived(g: Setting, d: Decoder, i: int32)
    requires d.state == InObject(0) && d.buffer == []
    ensures Feed(g, d, WriteL(i)) == EndArg(d.(buffer := WriteL(i)), ObjectOf(g, i))
  {
    hide WriteL, GetL;
    FeedFour(g, d, WriteL(i));
    Four(WriteL(i));
    GetWriteL(i, []);
    assert WriteL(i) + [] == WriteL(i);
  }

  lemma IndexReceived(g: Setting, d: Decoder, i: int32)
    requires d.state == InSymbolIndex(0) && d.buffer == []
    ensures Feed(g, d, WriteL(i)) == EndArg(d.(buffer := WriteL(i)), CacheGet(d.cache, i))
  {
    hide WriteL, GetL;
    FeedFour(g, d, WriteL(i));
    Four(WriteL(i));
    GetWriteL(i, []);
    assert WriteL(i) + [] == WriteL(i);
  }

  lemma CacheIndexReceived(g: Setting, d: Decoder, i: int32)
    requires d.state == InSymbolCache(0) && d.buffer == []
    ensures Feed(g, d, WriteL(i)) == d.(state := InSymbolCache(4), buffer := WriteL(i))
  {
    hide WriteL;
    FeedFour(g, d, WriteL(i));
    Four(WriteL(i));
  }

  /** In a state that shifts every byte but a zero. */
  predicate Shifting(s: State) {
    s == InString || s == InRawString || s == InSymbolCache(4)
  }

  lemma {:induction false} CharsShifted(g: Setting, d: Decoder, s: Chars)
    requires Shifting(d.state) && NulFree(s)
    ensures Feed(g, d, s) == d.(buffer := d.buffer + s)
    decreases |s|
  {
    if s == [] {
      assert d.buffer + s == d.buffer;
    } else {
      var d1 := Step(g, d, s[0]);
      CharsShifted(g, d1, s[1..]);
      assert s == [s[0]] + s[1..];
      assert (d.buffer + [s[0]]) + s[1..] == d.buffer + s;
    }
  }

  lemma {:induction false} FloatReceived(g: Setting, d: Decoder, bits: seq<byte>, n: nat)
    requires n <= 7 && |bits| == 8 - n && d.state == InFloat(n)
    ensures Feed(g, d, bits) == EndArg(d.(buffer := d.buffer + bits), VFloat(d.buffer + bits))
    decreases |bits|
  {
    var d1 := Step(g, d, bits[0]);
    if n == 7 {
      assert bits == [bits[0]] && bits[1..] == [];
      assert Feed(g, d1, []) == d1;
    } else {
      FloatReceived(g, d1, bits[1..], n + 1);
      assert bits == [bits[0]] + bits[1..];
      assert (d.buffer + [bits[0]]) + bits[1..] == d.buffer + bits;
    }
  }

  lemma EndsWithNul(g: Setting, d: Decoder, s: Chars)
    requires Shifting(d.state) && NulFree(s)
    ensures Feed(g, d, s + [0]) == Step(g, d.(buffer := d.buffer + s), 0)
  {
    CharsShifted(g, d, s);
    FeedAppend(g, d, s, [0]);
    var d1 := d.(buffer := d.buffer + s);
    hide Step;
    assert [0 as byte] == [0] + [];
    FeedOne(g, d1, 0, []);
  }

  /** One argument arrives as it was sent, and the caches still agree. */
  ghost predicate Arrives(g: Setting, d: Decoder, w: Written, d': Decoder, v: Value) {
    && d' == Feed(g, d, w.bytes) && d'.state == Initial && d'.args == d.args + [v] && d'.out == d.out
    && Coherent(w.cache, d'.cache)
  }

  lemma SymbolArrives(g: Setting, d: Decoder, sent: Cache, s: Chars)
    requires d.state == Initial && Coherent(sent, d.cache) && NulFree(s)
    ensures var w := EncodeSymbol(g, sent, s); Arrives(g, d, w, Feed(g, d, w.bytes), VSym(s))
  {
    hide WriteL, GetL, Feed;
    var k := Slot(g, s);
    if sent[k] == Some(s) {
      var d1 := d.(state := InSymbolIndex(0), buffer := []);
      FeedOne(g, d, SYMBOL_INDEX, WriteL(k));
      IndexReceived(g, d1, k);
    } else {
      var d1 := d.(state := InSymbolCache(0), buffer := []);
      FeedOne(g, d, SYMBOL_CACHE, WriteL(k) + (s + [0]));
      CacheIndexReceived(g, d1, k);
      var d2 := d1.(state := InSymbolCache(4), buffer := WriteL(k));
      FeedAppend(g, d1, WriteL(k), s + [0]);
      EndsWithNul(g, d2, s);
      assert (WriteL(k) + s)[4..] == s;
      GetWriteL(k, s);
    }
  }

  lemma ArgArrives(g: Setting, d: Decoder, sent: Cache, a: Arg)
    requires d.state == Initial && Coherent(sent, d.cache) && Sendable(g, a)
    ensures var w := EncodeArg(g, sent, a); Arrives(g, d, w, Feed(g, d, w.bytes), Meaning(a))
  {
    hide WriteL, GetL, Feed;
    match a
    case Int(i) =>
      FeedOne(g, d, INT, WriteL(i));
      IntReceived(g, d.(state := InInt(0), buffer := []), i);
    case Float(bits) =>
      FeedOne(g, d, FLOAT, bits);
      FloatReceived(g, d.(state := InFloat(0), buffer := []), bits, 0);
      assert [] + bits == bits;
    case Sym(s) => SymbolArrives(g, d, sent, s);
    case Str(s) =>
      FeedOne(g, d, STRING, s + [0]);
      EndsWithNul(g, d.(state := InString, buffer := []), s);
      assert [] + s == s;
    case Obj(o) =>
      FeedOne(g, d, OBJECT, WriteL(g.id(o)));
      ObjectReceived(g, d.(state := InObject(0), buffer := []), g.id(o));
  }

  lemma {:induction false} ArgsArrive(g: Setting, d: Decoder, sent: Cache, args: seq<Arg>)
    requires d.state == Initial && Coherent(sent, d.cache) && SendableAll(g, args)
    ensures var w := EncodeArgs(g, sent, args);
            var d' := Feed(g, d, w.bytes);
            d'.state == Initial && d'.args == d.args + Meanings(args) && d'.out == d.out && Coherent(w.cache, d'.cache)
  {
    hide Step, EncodeArg, Sendable;
    if args == [] {
      assert d.args + Meanings(args) == d.args;
    } else {
      var init, last := args[..|args| - 1], args[|args| - 1];
      var w0 := EncodeArgs(g, sent, init);
      ArgsArrive(g, d, sent, init);
      var d0 := Feed(g, d, w0.bytes);
      ArgArrives(g, d0, w0.cache, last);
      FeedAppend(g, d, w0.bytes, EncodeArg(g, w0.cache, last).bytes);
      assert Meanings(args) == Meanings(init) + [Meaning(last)];
      assert (d.args + Meanings(init)) + [Meaning(last)] == d.args + Meanings(args);
    }
  }

  // ---------------------------------------------------------------- whole messages

  ghost predicate SendableMessage(g: Setting, msg: Message) {
    Registered(g, msg.target) && NulFree(msg.selector) && SendableAll(g, msg.args)
  }

  function Delivered(msg: Message): Delivery {
    Delivery(msg.target, msg.selector, Meanings(msg.args))
  }

  lemma MessageArrives(g: Setting, d: Decoder, sent: Cache, msg: Message)
    requires d.state == Initial && d.args == [] && Coherent(sent, d.cache) && SendableMessage(g, msg)
    ensures var w := EncodeMessage(g, sent, msg);
            var d' := Feed(g, d, w.bytes);
            d'.state == Initial && d'.args == [] && d'.out == d.out + [Delivered(msg)] && Coherent(w.cache, d'.cache)
  {
    hide Feed, EncodeArgs, Step;
    var all := AllArgs(msg);
    var w := EncodeArgs(g, sent, all);
    forall i | 0 <= i < |all| ensures Sendable(g, all[i]) {
      assert i >= 2 ==> all[i] == msg.args[i - 2];
    }
    ArgsArrive(g, d, sent, all);
    var d1 := Feed(g, d, w.bytes);
    FeedAppend(g, d, w.bytes, [END_OF_MESSAGE]);
    assert [END_OF_MESSAGE as byte] == [END_OF_MESSAGE] + [];
    FeedOne(g, d1, END_OF_MESSAGE, []);
    FeedNothing(g, Step(g, d1, END_OF_MESSAGE));
    EndStep(g, d1);
    assert d1.args == Meanings(all);
    assert d1.args[2..] == Meanings(msg.args);
  }

  lemma EndStep(g: Setting, d: Decoder)
    requires d.state == Initial
    ensures Step(g, d, END_OF_MESSAGE) == EndMessage(d)
  {
  }

  lemma FeedNothing(g: Setting, d: Decoder)
    ensures Feed(g, d, []) == d
  {
  }

  function DeliveredAll(msgs: seq<Message>): seq<Delivery> {
    seq(|msgs|, i requires 0 <= i < |msgs| => Delivered(msgs[i]))
  }

  /** Decoding what was encoded, in whatever chunks it comes, delivers exactly the messages sent, in order, and leaves
      the two caches in agreement, whatever the caches held to start with. */
  lemma {:induction false} StreamArrives(g: Setting, d: Decoder, sent: Cache, msgs: seq<Message>,
                                         chunks: seq<seq<byte>>)
    requires d.state == Initial && d.args == [] && Coherent(sent, d.cache)
    requires forall i :: 0 <= i < |msgs| ==> SendableMessage(g, msgs[i])
    requires Flatten(chunks) == EncodeAll(g, sent, msgs).bytes
    ensures var d' := FeedChunks(g, d, chunks);
            && d'.state == Initial && d'.args == [] && d'.out == d.out + DeliveredAll(msgs)
            && Coherent(EncodeAll(g, sent, msgs).cache, d'.cache)
  {
    ChunksDoNotMatter(g, d, chunks);
    MessagesArrive(g, d, sent, msgs);
  }

  lemma {:induction false} MessagesArrive(g: Setting, d: Decoder, sent: Cache, msgs: seq<Message>)
    requires d.state == Initial && d.args == [] && Coherent(sent, d.cache)
    requires forall i :: 0 <= i < |msgs| ==> SendableMessage(g, msgs[i])
    ensures var w := EncodeAll(g, sent, msgs);
            var d' := Feed(g, d, w.bytes);
            && d'.state == Initial && d'.args == [] && d'.out == d.out + DeliveredAll(msgs)
                 && Coherent(w.cache, d'.cache)
  {
    hide Step, EncodeMessage, SendableMessage, Delivered;
    if msgs == [] {
      assert d.out + DeliveredAll(msgs) == d.out;
    } else {
      var init, last := msgs[..|msgs| - 1], msgs[|msgs| - 1];
      var w0 := EncodeAll(g, sent, init);
      MessagesArrive(g, d, sent, init);
      MessageArrives(g, Feed(g, d, w0.bytes), w0.cache, last);
      FeedAppend(g, d, w0.bytes, EncodeMessage(g, w0.cache, last).bytes);
      assert (d.out + DeliveredAll(init)) + [Delivered(last)] == d.out + DeliveredAll(msgs);
    }
  }

  // ---------------------------------------------------------------- what the encoder never sends

  /** A raw string adds its tokens to the arguments that were received before. */
  lemma RawStringArrives(g: Setting, d: Decoder, s: Chars)
    requires d.state == Initial && NulFree(s)
    ensures var d' := Feed(g, d, [0x07] + (s + [0]));
            && d'.state == Initial && d'.args == d.args + g.tokens(s) && d'.out == d.out && d'.cache == d.cache
  {
    hide Feed;
    FeedOne(g, d, 0x07, s + [0]);
    EndsWithNul(g, d.(state := InRawString, buffer := []), s);
    assert [] + s == s;
  }

  lemma {:induction false} EncodeArgsJoin(g: Setting, cache: Cache, a: seq<Arg>, b: seq<Arg>)
    requires |cache| == SYMBOL_CACHE_SIZE
    ensures var w := EncodeArgs(g, cache, a);
            var w' := EncodeArgs(g, w.cache, b);
            EncodeArgs(g, cache, a + b) == Written(w.bytes + w'.bytes, w'.cache)
  {
    hide EncodeArg;
    var w := EncodeArgs(g, cache, a);
    if b == [] {
      assert a + b == a && w.bytes + [] == w.bytes;
    } else {
      var init, last := b[..|b| - 1], b[|b| - 1];
      assert (a + b)[..|a + b| - 1] == a + init && (a + b)[|a + b| - 1] == last;
      EncodeArgsJoin(g, cache, a, init);
      var w1 := EncodeArgs(g, w.cache, init);
      assert (w.bytes + w1.bytes) + EncodeArg(g, w1.cache, last).bytes ==
             w.bytes + (w1.bytes + EncodeArg(g, w1.cache, last).bytes);
    }
  }

  /** A message to an object that is not in the table is dropped, and the caches agree all the same. */
  lemma UnknownTargetDropped(g: Setting, d: Decoder, sent: Cache, msg: Message)
    requires d.state == Initial && d.args == [] && Coherent(sent, d.cache)
    requires g.id(msg.target) !in g.table && NulFree(msg.selector) && SendableAll(g, msg.args)
    ensures var w := EncodeMessage(g, sent, msg);
            var d' := Feed(g, d, w.bytes);
            d'.state == Initial && d'.args == [] && d'.out == d.out && Coherent(w.cache, d'.cache)
  {
    hide Feed, EncodeArgs, WriteL, GetL;
    var first, others := [Obj(msg.target)], [Sym(msg.selector)] + msg.args;
    assert AllArgs(msg) == first + others;
    EncodeArgsJoin(g, sent, first, others);
    FirstArg(g, sent, Obj(msg.target));
    var w := EncodeArgs(g, sent, others);
    FeedOne(g, d, OBJECT, WriteL(g.id(msg.target)));
    ObjectReceived(g, d.(state := InObject(0), buffer := []), g.id(msg.target));
    var bytes := [OBJECT] + WriteL(g.id(msg.target));
    var d1 := Feed(g, d, bytes);
    assert d1.args == [Void];
    forall i | 0 <= i < |others| ensures Sendable(g, others[i]) {
      assert i >= 1 ==> others[i] == msg.args[i - 1];
    }
    ArgsArrive(g, d1, sent, others);
    var d2 := Feed(g, d1, w.bytes);
    FeedAppend(g, d, bytes, w.bytes);
    FeedAppend(g, d, bytes + w.bytes, [END_OF_MESSAGE]);
    assert [END_OF_MESSAGE as byte] == [END_OF_MESSAGE] + [];
    FeedOne(g, d2, END_OF_MESSAGE, []);
    FeedNothing(g, Step(g, d2, END_OF_MESSAGE));
    assert d2.args[0] == Void;
  }

  lemma FirstArg(g: Setting, cache: Cache, a: Arg)
    requires |cache| == SYMBOL_CACHE_SIZE
    ensures EncodeArgs(g, cache, [a]) == EncodeArg(g, cache, a)
  {
    assert [a][..0] == [] && EncodeArgs(g, cache, []) == Written([], cache);
    assert [] + EncodeArg(g, cache, a).bytes == EncodeArg(g, cache, a).bytes;
  }

  lemma {:induction false} JunkSkipped(g: Setting, d: Decoder, junk: seq<byte>)
    requires d.state == Skipping && 0x0f !in junk
    ensures Feed(g, d, junk) == d
    decreases |junk|
  {
    if junk != [] {
      assert junk[0] in junk && forall b :: b in junk[1..] ==> b in junk;
      JunkSkipped(g, d, junk[1..]);
    }
  }

  /** Where an argument should begin, a byte that is no type makes the decoder skip everything up to the end of the
      message; but the arguments received before it are kept. */
  lemma BadTypeSkips(g: Setting, d: Decoder, b: byte, junk: seq<byte>)
    requires d.state == Initial && (b == 0 || b > 0x07) && b != 0x0f && 0x0f !in junk
    ensures Feed(g, d, [b] + (junk + [0x0f])) == d
  {
    hide Feed;
    FeedOne(g, d, b, junk + [0x0f]);
    var d1 := d.(state := Skipping);
    FeedAppend(g, d1, junk, [0x0f]);
    JunkSkipped(g, d1, junk);
    assert [0x0f as byte] == [0x0f] + [];
    FeedOne(g, d1, 0x0f, []);
    FeedNothing(g, d);
  }

  lemma SnocDiffers<T>(a: seq<T>, x: T, y: T)
    ensures a != a + [x] && (x != y ==> a + [x] != a + [y])
  {
    assert (a + [x])[|a|] == x && (a + [y])[|a|] == y;
  }

  /** So the next message is delivered exactly when there were none. */
  lemma RecoversIff(g: Setting, d: Decoder, sent: Cache, b: byte, junk: seq<byte>, msg: Message)
    requires d.state == Initial && (b == 0 || b > 0x07) && b != 0x0f && 0x0f !in junk
    requires Coherent(sent, d.cache) && SendableMessage(g, msg)
    ensures var d' := Feed(g, d, [b] + (junk + [0x0f]) + EncodeMessage(g, sent, msg).bytes);
            d'.out == d.out + [Delivered(msg)] <==> d.args == []
  {
    hide Feed, EncodeArgs;
    BadTypeSkips(g, d, b, junk);
    FeedAppend(g, d, [b] + (junk + [0x0f]), EncodeMessage(g, sent, msg).bytes);
    if d.args == [] {
      MessageArrives(g, d, sent, msg);
    } else {
      var all := AllArgs(msg);
      var w := EncodeArgs(g, sent, all);
      forall i | 0 <= i < |all| ensures Sendable(g, all[i]) {
        assert i >= 2 ==> all[i] == msg.args[i - 2];
      }
      ArgsArrive(g, d, sent, all);
      var d1 := Feed(g, d, w.bytes);
      FeedAppend(g, d, w.bytes, [END_OF_MESSAGE]);
      assert [END_OF_MESSAGE as byte] == [END_OF_MESSAGE] + [];
      FeedOne(g, d1, END_OF_MESSAGE, []);
      var d' := Step(g, d1, END_OF_MESSAGE);
      FeedNothing(g, d');
      assert |d1.args[2..]| > |msg.args|;
      if d1.args[0].VObj? && d1.args[1].VSym? {
        SnocDiffers(d.out, Delivery(d1.args[0].o, d1.args[1].s, d1.args[2..]), Delivered(msg));
      } else {
        SnocDiffers(d.out, Delivered(msg), Delivered(msg));
      }
    }
  }

  // ---------------------------------------------------------------- the client object

  class ClientObject {
    const g: Setting
    // input protocol decoder
    var state: State
    var inputArgs: seq<Value>
    var inputBuffer: seq<byte>
    var inputCache: Cache
    var delivered: seq<Delivery>
    // output protocol encoder
    var outputBuffer: seq<byte>
    var outputCache: Cache

    ghost function Input(): Decoder
      reads this
    {
      Decoder(state, inputBuffer, inputArgs, inputCache, delivered)
    }

    /** Both caches start empty, so they agree. */
    constructor (g: Setting)
      ensures this.g == g && outputBuffer == [] && |outputCache| == SYMBOL_CACHE_SIZE
      ensures Input().state == Initial && Input().args == [] && Input().out == [] && Coherent(outputCache, inputCache)
    {
      this.g := g;
      state, inputArgs, inputBuffer, delivered, outputBuffer := Initial, [], [], [], [];
      inputCache := seq(SYMBOL_CACHE_SIZE, _ => None);
      outputCache := seq(SYMBOL_CACHE_SIZE, _ => None);
    }

    method ShiftByte(s: State, b: byte)
      modifies this`state, this`inputBuffer
      ensures Input() == Shift(old(Input()), s, b)
    {
      inputBuffer := inputBuffer + [b];
      state := s;
    }

    method PushArg(v: Value)
      modifies this`state, this`inputArgs
      ensures Input() == EndArg(old(Input()), v)
    {
      inputArgs := inputArgs + [v];
      state := Initial;
    }

    method StateNext(b: byte)
      modifies this`state, this`inputArgs, this`inputBuffer, this`inputCache, this`delivered
      ensures Input() == Step(g, old(Input()), b)
    {
      match state
      case Skipping =>
        if b == END_OF_MESSAGE {
          state := Initial;
        }
      case Initial =>
        if b == END_OF_MESSAGE {
          if |inputArgs| >= 2 && inputArgs[0].VObj? && inputArgs[1].VSym? {
            delivered := delivered + [Delivery(inputArgs[0].o, inputArgs[1].s, inputArgs[2..])];
          }
          inputArgs := [];
        } else if StateFor(b) == Skipping {
          state := Skipping;
        } else {
          inputBuffer := [];
          state := StateFor(b);
        }
      case InInt(n) =>
        ShiftByte(if n < 3 then InInt(n + 1) else Initial, b);
        if n >= 3 {
          PushArg(VInt(IntOf(inputBuffer)));
        }
      case InFloat(n) =>
        ShiftByte(if n < 7 then InFloat(n + 1) else Initial, b);
        if n >= 7 {
          PushArg(VFloat(inputBuffer));
        }
      case InObject(n) =>
        ShiftByte(if n < 3 then InObject(n + 1) else Initial, b);
        if n >= 3 {
          PushArg(ObjectOf(g, IntOf(inputBuffer)));
        }
      case InSymbolIndex(n) =>
        ShiftByte(if n < 3 then InSymbolIndex(n + 1) else Initial, b);
        if n >= 3 {
          PushArg(CacheGet(inputCache, IntOf(inputBuffer)));
        }
      case InSymbolCache(n) =>
        if n < 4 {
          ShiftByte(InSymbolCache(n + 1), b);
        } else if b != 0 {
          ShiftByte(InSymbolCache(n), b);
        } else {
          var s := if |inputBuffer| >= 4 then inputBuffer[4..] else [];
          inputCache := CachePut(inputCache, s, IntOf(inputBuffer));
          PushArg(VSym(s));
        }
      case InString =>
        if b != 0 {
          ShiftByte(InString, b);
        } else {
          PushArg(VStr(inputBuffer));
        }
      case InRawString =>
        if b != 0 {
          ShiftByte(InRawString, b);
        } else {
          inputArgs := inputArgs + g.tokens(inputBuffer);
          state := Initial;
        }
    }

    /** `client_receive` */
    method Receive(chunk: seq<byte>)
      modifies this`state, this`inputArgs, this`inputBuffer, this`inputCache, this`delivered
      ensures Input() == Feed(g, old(Input()), chunk)
    {
      hide Step;
      var i := 0;
      while i < |chunk|
        invariant i <= |chunk| && Feed(g, Input(), chunk[i..]) == Feed(g, old(Input()), chunk)
      {
        assert chunk[i..][1..] == chunk[i + 1..];
        StateNext(chunk[i]);
        i := i + 1;
      }
    }

    method PutInt(n: int)
      modifies this`outputBuffer
      ensures outputBuffer == old(outputBuffer) + WriteL(n)
    {
      var bs := WriteL(n);
      outputBuffer := outputBuffer + [bs[0]];
      outputBuffer := outputBuffer + [bs[1]];
      outputBuffer := outputBuffer + [bs[2]];
      outputBuffer := outputBuffer + [bs[3]];
    }

    method PutByte(b: byte)
      modifies this`outputBuffer
      ensures outputBuffer == old(outputBuffer) + [b]
    {
      outputBuffer := outputBuffer + [b];
    }

    method PutChars(s: seq<byte>)
      modifies this`outputBuffer
      ensures outputBuffer == old(outputBuffer) + s
    {
      var i := 0;
      while i < |s|
        invariant i <= |s| && outputBuffer == old(outputBuffer) + s[..i]
      {
        assert s[..i + 1] == s[..i] + [s[i]];
        PutByte(s[i]);
        i := i + 1;
      }
      assert s[..i] == s;
    }

    method WriteSymbol(s: Chars)
      requires |outputCache| == SYMBOL_CACHE_SIZE
      modifies this`outputBuffer, this`outputCache
      ensures var w := EncodeSymbol(g, old(outputCache), s);
              outputBuffer == old(outputBuffer) + w.bytes && outputCache == w.cache
    {
      hide WriteL;
      var k := g.hash(s) % |outputCache|;
      if outputCache[k] == Some(s) {
        PutByte(SYMBOL_INDEX);
        PutInt(k);
      } else {
        outputCache := outputCache[k := Some(s)];
        PutByte(SYMBOL_CACHE);
        PutInt(k);
        PutChars(s);
        PutByte(0);
      }
    }

    method WriteArg(a: Arg)
      requires |outputCache| == SYMBOL_CACHE_SIZE
      modifies this`outputBuffer, this`outputCache
      ensures var w := EncodeArg(g, old(outputCache), a);
              outputBuffer == old(outputBuffer) + w.bytes && outputCache == w.cache
    {
      hide WriteL;
      match a
      case Int(i) =>
        PutByte(INT);
        PutInt(i);
      case Float(bits) =>
        PutByte(FLOAT);
        PutChars(bits);
      case Sym(s) =>
        WriteSymbol(s);
      case Str(s) =>
        PutByte(STRING);
        PutChars(s);
        PutByte(0);
      case Obj(o) =>
        PutByte(OBJECT);
        PutInt(g.id(o));
    }

    /** Start, arguments and end of a message; what `fts_client_done_message` hands to the byte stream is returned. */
    method SendMessage(msg: Message) returns (bytes: seq<byte>)
      requires |outputCache| == SYMBOL_CACHE_SIZE && outputBuffer == []
      modifies this`outputBuffer, this`outputCache
      ensures Written(bytes, outputCache) == EncodeMessage(g, old(outputCache), msg) && outputBuffer == []
    {
      hide EncodeArg;
      var all := AllArgs(msg);
      var i := 0;
      while i < |all|
        invariant i <= |all| && |outputCache| == SYMBOL_CACHE_SIZE
        invariant Written(outputBuffer, outputCache) == EncodeArgs(g, old(outputCache), all[..i])
      {
        assert all[..i + 1][..i] == all[..i];
        WriteArg(all[i]);
        i := i + 1;
      }
      assert all[..i] == all;
      PutByte(END_OF_MESSAGE);
      bytes := outputBuffer;
      outputBuffer := [];
    }
  }
}
