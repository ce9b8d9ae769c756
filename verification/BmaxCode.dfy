/** The bytes of a bmax file: instructions with operands of one, two or four bytes, and the symbol table. */
module BmaxCode {

  import opened Bytes

  /** The instructions of the stack machine, with symbols in place of their indices. */
  datatype Op =
    | Return
    | PushInt(i: int) | PushFloat(w: int) | PushSym(s: string)
    | SetInt(i: int) | SetFloat(w: int) | SetSym(s: string)
    | PopArgs(n: int)
    | PushObj(k: int) | MvObj(k: int) | PopObjs(n: int)
    | MakeObj(n: int) | MakeTopObj(n: int)
    | PutProp(s: string) | ObjMess(s: string, n: int)
    | PushObjTable(n: int) | PopObjTable
    | Connect

  const B_ARG := 0x40
  const S_ARG := 0x80
  const L_ARG := 0xc0

  /** The inlet `fts_bmax_code_obj_mess` addresses. */
  const SYSTEM_INLET := -1

  function Opcode(op: Op): int {
    match op
    case Return => 0
    case PushInt(_) => 1
    case PushFloat(_) => 2
    case PushSym(_) => 3
    case SetInt(_) => 5
    case SetFloat(_) => 6
    case SetSym(_) => 7
    case PopArgs(_) => 9
    case PushObj(_) => 10
    case MvObj(_) => 11
    case PopObjs(_) => 12
    case MakeObj(_) => 13
    case PutProp(_) => 14
    case ObjMess(_, _) => 16
    case PushObjTable(_) => 18
    case PopObjTable => 19
    case Connect => 20
    case MakeTopObj(_) => 21
  }

  // ---------------------------------------------------------------- integers

  /** `fts_bmax_get_argcode` */
  function ArgCode(v: int): int {
    if -128 <= v <= 127 then B_ARG
    else if -32768 <= v <= 32767 then S_ARG
    else L_ARG
  }

  /** `fts_bmax_write_int` */
  function WriteInt(v: int): (bs: seq<byte>)
    ensures |bs| == Width(ArgCode(v))
  {
    if ArgCode(v) == B_ARG then WriteB(v)
    else if ArgCode(v) == S_ARG then WriteS(v)
    else WriteL(v)
  }

  function Width(argCode: int): nat {
    if argCode == B_ARG then 1 else if argCode == S_ARG then 2 else 4
  }

  /** Reads an operand of the width the opcode announces. */
  function GetInt(argCode: int, p: seq<byte>): int
    requires |p| >= Width(argCode)
  {
    if argCode == B_ARG then GetB(p)
    else if argCode == S_ARG then GetS(p)
    else GetL(p)
  }

  /** Whatever width an operand is written in, it is read back unchanged. */
  lemma GetWriteInt(v: int32, rest: seq<byte>)
    ensures GetInt(ArgCode(v), WriteInt(v) + rest) == v
  {
    if ArgCode(v) == S_ARG {
      GetWriteS(v, rest);
    } else if ArgCode(v) == L_ARG {
      GetWriteL(v, rest);
    }
  }

  // ---------------------------------------------------------------- instructions

  function IndexOf(symbols: seq<string>, s: string): (i: nat)
    ensures i <= |symbols| && (i < |symbols| ==> symbols[i] == s) && (i == |symbols| ==> s !in symbols)
    ensures forall j :: 0 <= j < i ==> symbols[j] != s
  {
    if symbols == [] || symbols[0] == s then 0
    else
      assert forall j :: 1 <= j < |symbols| ==> symbols[j] == symbols[1..][j - 1];
      1 + IndexOf(symbols[1..], s)
  }

  /** How an instruction carries its argument. */
  datatype Form = Bare | Sized(v: int) | Long(v: int) | LongMessage(sel: int, n: int)

  function FormOf(symbols: seq<string>, op: Op): Form {
    match op
    case Return => Bare
    case PopObjTable => Bare
    case Connect => Bare
    case PushFloat(w) => Long(w)
    case SetFloat(w) => Long(w)
    case ObjMess(s, n) => LongMessage(IndexOf(symbols, s), n)
    case PushSym(s) => Sized(IndexOf(symbols, s))
    case SetSym(s) => Sized(IndexOf(symbols, s))
    case PutProp(s) => Sized(IndexOf(symbols, s))
    case PushInt(i) => Sized(i)
    case SetInt(i) => Sized(i)
    case PopArgs(n) => Sized(n)
    case PushObj(k) => Sized(k)
    case MvObj(k) => Sized(k)
    case PopObjs(n) => Sized(n)
    case MakeObj(n) => Sized(n)
    case MakeTopObj(n) => Sized(n)
    case PushObjTable(n) => Sized(n)
  }

  function EncodeForm(opcode: int, f: Form): (bs: seq<byte>)
    requires 0 <= opcode < 0x40
    ensures |bs| > 0
  {
    match f
    case Bare => [opcode]
    case Sized(v) => [opcode + ArgCode(v)] + WriteInt(v)
    case Long(v) => [opcode] + WriteL(v)
    case LongMessage(sel, n) => [opcode] + (WriteL(SYSTEM_INLET) + (WriteL(sel) + WriteL(n)))
  }

  function Encode(symbols: seq<string>, op: Op): (bs: seq<byte>)
    ensures |bs| > 0
  {
    EncodeForm(Opcode(op), FormOf(symbols, op))
  }

  function EncodeAll(symbols: seq<string>, ops: seq<Op>): seq<byte> {
    if ops == [] then [] else EncodeAll(symbols, ops[..|ops| - 1]) + Encode(symbols, ops[|ops| - 1])
  }

  lemma EncodeSnoc(symbols: seq<string>, ops: seq<Op>, op: Op)
    ensures EncodeAll(symbols, ops + [op]) == EncodeAll(symbols, ops) + Encode(symbols, op)
  {
    assert (ops + [op])[..|ops + [op]| - 1] == ops;
  }

  lemma {:induction false} EncodeCons(symbols: seq<string>, ops: seq<Op>)
    requires ops != []
    ensures EncodeAll(symbols, ops) == Encode(symbols, ops[0]) + EncodeAll(symbols, ops[1..])
  {
    hide Encode;
    if |ops| == 1 {
      assert ops == [] + [ops[0]];
      EncodeSnoc(symbols, [], ops[0]);
    } else {
      var init, last := ops[..|ops| - 1], ops[|ops| - 1];
      EncodeCons(symbols, init);
      assert ops[1..] == init[1..] + [last];
      EncodeSnoc(symbols, init[1..], last);
      var a, b, c := Encode(symbols, ops[0]), EncodeAll(symbols, init[1..]), Encode(symbols, last);
      assert (a + b) + c == a + (b + c);
    }
  }

  // ---------------------------------------------------------------- the writer

  predicate HasSymbol(op: Op) {
    op.PushSym? || op.SetSym? || op.PutProp? || op.ObjMess?
  }

  predicate Uses(op: Op, s: string) {
    match op
    case PushSym(x) => x == s
    case SetSym(x) => x == s
    case PutProp(x) => x == s
    case ObjMess(x, _) => x == s
    case _ => false
  }

  /** Every symbol the instructions mention is in the table. */
  ghost predicate Known(symbols: seq<string>, ops: seq<Op>) {
    forall i, s :: 0 <= i < |ops| && Uses(ops[i], s) ==> s in symbols
  }

  lemma {:induction false} IndexStable(symbols: seq<string>, more: seq<string>, s: string)
    requires s in symbols
    ensures IndexOf(symbols + more, s) == IndexOf(symbols, s)
  {
    var i, j := IndexOf(symbols, s), IndexOf(symbols + more, s);
    assert forall k :: 0 <= k <= i ==> (symbols + more)[k] == symbols[k];
  }

  lemma EncodeOneStable(symbols: seq<string>, more: seq<string>, op: Op)
    requires forall s :: Uses(op, s) ==> s in symbols
    ensures Encode(symbols + more, op) == Encode(symbols, op)
  {
    if HasSymbol(op) {
      assert Uses(op, op.s);
      IndexStable(symbols, more, op.s);
    }
  }

  /** Appending to the symbol table changes nothing that is already written. */
  lemma {:induction false} EncodeStable(symbols: seq<string>, more: seq<string>, ops: seq<Op>)
    requires Known(symbols, ops)
    ensures EncodeAll(symbols + more, ops) == EncodeAll(symbols, ops)
  {
    if ops != [] {
      EncodeStable(symbols, more, ops[..|ops| - 1]);
      EncodeOneStable(symbols, more, ops[|ops| - 1]);
    }
  }

  /** The file being written; `ops` are the instructions it holds. */
  class BmaxFile {
    var code: seq<byte>
    var symbols: seq<string>
    ghost var ops: seq<Op>

    ghost predicate Coherent()
      reads this
    {
      Known(symbols, ops) && code == EncodeAll(symbols, ops)
    }

    ghost predicate Valid()
      reads this
    {
      Coherent() && |symbols| <= |ops|
    }

    constructor ()
      ensures Valid() && ops == [] && symbols == [] && code == []
    {
      code, symbols, ops := [], [], [];
    }

    /** `fts_bmax_add_symbol`: the table is only ever appended to. */
    method AddSymbol(s: string) returns (i: nat)
      requires Valid()
      modifies this`symbols
      ensures Coherent() && |symbols| <= |ops| + 1 && s in symbols && i == IndexOf(symbols, s)
      ensures symbols == if s in old(symbols) then old(symbols) else old(symbols) + [s]
    {
      i := 0;
      while i < |symbols|
        invariant i <= |symbols| && forall j :: 0 <= j < i ==> symbols[j] != s
      {
        if symbols[i] == s {
          return;
        }
        i := i + 1;
      }
      EncodeStable(symbols, [s], ops);
      symbols := symbols + [s];
    }

    /** Writes an instruction whose symbol, if any, is in the table. */
    method Write(op: Op, f: Form)
      requires Coherent() && |symbols| <= |ops| + 1 && (forall s :: Uses(op, s) ==> s in symbols)
               && f == FormOf(symbols, op)
      modifies this`code, this`ops
      ensures Valid() && ops == old(ops) + [op]
    {
      EncodeSnoc(symbols, ops, op);
      if f.Bare? {
        code := code + [Opcode(op)];
      } else if f.Sized? {
        var argCode := ArgCode(f.v);
        var opcode: seq<byte> := [Opcode(op) + argCode];
        code := code + (opcode + WriteInt(f.v));
      } else if f.Long? {
        var opcode: seq<byte> := [Opcode(op)];
        code := code + (opcode + WriteL(f.v));
      } else {
        var opcode: seq<byte> := [Opcode(op)];
        code := code + (opcode + (WriteL(SYSTEM_INLET) + (WriteL(f.sel) + WriteL(f.n))));
      }
      ops := ops + [op];
    }

    /** An instruction without a symbol. */
    method Code(op: Op)
      requires Valid() && !HasSymbol(op)
      modifies this
      ensures Valid() && ops == old(ops) + [op] && symbols == old(symbols)
    {
      Write(op, FormOf([], op));
    }

    /** An instruction with a symbol, which gets an index first. */
    method CodeSymbol(op: Op)
      requires Valid() && HasSymbol(op)
      modifies this
      ensures Valid() && ops == old(ops) + [op] && old(symbols) <= symbols
    {
      var i := AddSymbol(op.s);
      Write(op, if op.ObjMess? then LongMessage(i, op.n) else Sized(i));
    }
  }

  // ---------------------------------------------------------------- the reader

  datatype Fetched = Fetched(op: Op, length: nat) | Unknown | Truncated

  /** Symbol `k` of the file. */
  function Symbol(symbols: seq<string>, k: int): (o: seq<string>) {
    if 0 <= k < |symbols| then [symbols[k]] else []
  }

  /** The instruction at `p` as the virtual machine reads it, and by how much `p` moves: `FVM_PUSH_OBJ_TABLE_L` moves
      `p` by one byte where its operand has four. */
  function Fetch(symbols: seq<string>, p: seq<byte>): Fetched {
    if p == [] then Truncated
    else
      var opcode, argCode, rest := p[0] % 0x40, p[0] / 0x40 * 0x40, p[1..];
      if argCode == 0 then
        if opcode == 0 then Fetched(Return, 1)
        else if opcode == 19 then Fetched(PopObjTable, 1)
        else if opcode == 20 then Fetched(Connect, 1)
        else if opcode == 2 then if |rest| < 4 then Truncated else Fetched(PushFloat(GetL(rest)), 5)
        else if opcode == 6 then if |rest| < 4 then Truncated else Fetched(SetFloat(GetL(rest)), 5)
        else if opcode == 16 then
          if |rest| < 12 || Symbol(symbols, GetL(rest[4..])) == [] then Truncated
          else Fetched(ObjMess(Symbol(symbols, GetL(rest[4..]))[0], GetL(rest[8..])), 13)
        else Unknown
      else if |rest| < Width(argCode) then Truncated
      else
        var v := GetInt(argCode, rest);
        var length := 1 + Width(argCode);
        if opcode == 1 then Fetched(PushInt(v), length)
        else if opcode == 3 then if Symbol(symbols, v) == [] then Truncated else Fetched(PushSym(symbols[v]), length)
        else if opcode == 5 then Fetched(SetInt(v), length)
        else if opcode == 7 then if Symbol(symbols, v) == [] then Truncated else Fetched(SetSym(symbols[v]), length)
        else if opcode == 9 then Fetched(PopArgs(v), length)
        else if opcode == 10 then Fetched(PushObj(v), length)
        else if opcode == 11 then Fetched(MvObj(v), length)
        else if opcode == 12 then Fetched(PopObjs(v), length)
        else if opcode == 13 then Fetched(MakeObj(v), length)
        else if opcode == 14 then if Symbol(symbols, v) == [] then Truncated else Fetched(PutProp(symbols[v]), length)
        else if opcode == 18 then Fetched(PushObjTable(v), if argCode == L_ARG then 2 else length)
        else if opcode == 21 then Fetched(MakeTopObj(v), length)
        else Unknown
  }

  predicate Representable(f: Form) {
    match f
    case Bare => true
    case Sized(v) => -0x8000_0000 <= v < 0x8000_0000
    case Long(v) => -0x8000_0000 <= v < 0x8000_0000
    case LongMessage(sel, n) => -0x8000_0000 <= sel < 0x8000_0000 && -0x8000_0000 <= n < 0x8000_0000
  }

  /** The operands fit in 32 bits and the symbol is in the table. */
  ghost predicate Writable(symbols: seq<string>, op: Op) {
    Representable(FormOf(symbols, op)) && forall s :: Uses(op, s) ==> s in symbols
  }

  lemma FetchSized(symbols: seq<string>, opcode: int, v: int32, rest: seq<byte>, p: seq<byte>)
    requires 0 <= opcode < 0x40 && p == EncodeForm(opcode, Sized(v)) + rest
    ensures |p| > 1 + Width(ArgCode(v)) - 1 && p[0] % 0x40 == opcode && p[0] / 0x40 * 0x40 == ArgCode(v)
    ensures |p[1..]| >= Width(ArgCode(v)) && GetInt(ArgCode(v), p[1..]) == v
  {
    assert p[0] == opcode + ArgCode(v);
    assert p[1..] == WriteInt(v) + rest;
    GetWriteInt(v, rest);
  }

  lemma FetchLong(opcode: int, v: int32, rest: seq<byte>, p: seq<byte>)
    requires 0 <= opcode < 0x40 && p == EncodeForm(opcode, Long(v)) + rest
    ensures |p| >= 5 && p[0] == opcode && GetL(p[1..]) == v
  {
    assert p[1..] == WriteL(v) + rest;
    GetWriteL(v, rest);
  }

  lemma DropFields(a: seq<byte>, b: seq<byte>, c: seq<byte>, rest: seq<byte>)
    requires |a| == |b| == 4
    ensures ((a + (b + c)) + rest)[4..] == b + (c + rest) && ((a + (b + c)) + rest)[8..] == c + rest
  {
  }

  lemma MessageTail(opcode: int, sel: int, n: int, rest: seq<byte>)
    requires 0 <= opcode < 0x40
    ensures var p := EncodeForm(opcode, LongMessage(sel, n)) + rest;
            |p| >= 13 && p[0] == opcode && p[1..] == (WriteL(SYSTEM_INLET) + (WriteL(sel) + WriteL(n))) + rest
  {
    hide WriteL, WriteInt, ArgCode;
    var body := WriteL(SYSTEM_INLET) + (WriteL(sel) + WriteL(n));
    assert EncodeForm(opcode, LongMessage(sel, n)) == [opcode] + body;
    Behind(opcode, body, rest);
  }

  lemma Behind(x: byte, body: seq<byte>, rest: seq<byte>)
    ensures (([x] + body) + rest)[0] == x && (([x] + body) + rest)[1..] == body + rest
  {
  }

  lemma FetchMessage(opcode: int, sel: int32, n: int32, rest: seq<byte>, p: seq<byte>)
    requires 0 <= opcode < 0x40 && p == EncodeForm(opcode, LongMessage(sel, n)) + rest
    ensures |p| >= 13 && p[0] == opcode && GetL(p[1..][4..]) == sel && GetL(p[1..][8..]) == n
  {
    hide WriteL, GetL, EncodeForm;
    var a, b, c := WriteL(SYSTEM_INLET), WriteL(sel), WriteL(n);
    MessageTail(opcode, sel, n, rest);
    DropFields(a, b, c, rest);
    GetWriteL(sel, c + rest);
    GetWriteL(n, rest);
  }

  /** An instruction is read back as it was written, whatever follows it. */
  lemma FetchEncoded(symbols: seq<string>, op: Op, rest: seq<byte>)
    requires Writable(symbols, op)
    ensures var f := Fetch(symbols, Encode(symbols, op) + rest); f.Fetched? && f.op == op
  {
    var p, opcode := Encode(symbols, op) + rest, Opcode(op);
    match FormOf(symbols, op)
    case Bare =>
      assert p[0] == opcode;
    case Long(v) =>
      FetchLong(opcode, v, rest, p);
    case LongMessage(sel, n) =>
      assert Uses(op, op.s);
      FetchMessage(opcode, sel, n, rest, p);
    case Sized(v) =>
      if op.PushSym? || op.SetSym? || op.PutProp? {
        assert Uses(op, op.s);
      }
      FetchSized(symbols, opcode, v, rest, p);
  }

  /** The reader moves on to the next instruction exactly when the one it reads is not a table of more than 32767
      objects. */
  lemma FetchMovesOnIff(symbols: seq<string>, op: Op, rest: seq<byte>)
    requires Writable(symbols, op) && (op.PushObjTable? ==> op.n >= 0)
    ensures Fetch(symbols, Encode(symbols, op) + rest).Fetched?
    ensures Fetch(symbols, Encode(symbols, op) + rest).length == |Encode(symbols, op)| <==>
            !(op.PushObjTable? && op.n > 32767)
  {
    FetchEncoded(symbols, op, rest);
    var p, opcode := Encode(symbols, op) + rest, Opcode(op);
    match FormOf(symbols, op)
    case Bare =>
      assert p[0] == opcode;
    case Long(v) =>
      FetchLong(opcode, v, rest, p);
    case LongMessage(sel, n) =>
      FetchMessage(opcode, sel, n, rest, p);
    case Sized(v) =>
      FetchSized(symbols, opcode, v, rest, p);
  }

  /** After a table of 32768 to 65535 objects the machine takes the operand's second byte for an instruction: it
      returns. */
  lemma TableOfManyReturns(symbols: seq<string>, n: int, rest: seq<byte>)
    requires 32767 < n < 0x1_0000
    ensures var p := Encode(symbols, PushObjTable(n)) + rest;
            var f := Fetch(symbols, p);
            && f.Fetched? && f.op == PushObjTable(n) && f.length == 2 <= |p|
            && Fetch(symbols, p[f.length..]) == Fetched(Return, 1)
  {
    var p := Encode(symbols, PushObjTable(n)) + rest;
    FetchEncoded(symbols, PushObjTable(n), rest);
    FetchMovesOnIff(symbols, PushObjTable(n), rest);
    FetchSized(symbols, 18, n, rest, p);
    assert n / 256 / 256 == 0;
    assert p[2] == 0;
  }

  // ---------------------------------------------------------------- the bytes of each instruction

  /** Operands of one, two and four bytes. */
  lemma OperandBytes(symbols: seq<string>)
    ensures Encode(symbols, PushInt(5)) == [0x41, 5] && Encode(symbols, PushInt(-1)) == [0x41, 0xff]
    ensures Encode(symbols, PushInt(300)) == [0x81, 1, 44]
    ensures Encode(symbols, PushInt(0x1234_5678)) == [0xc1, 0x12, 0x34, 0x56, 0x78]
    ensures Encode(symbols, PushFloat(0x3f80_0000)) == [2, 0x3f, 0x80, 0, 0]
    ensures Encode(symbols, SetFloat(0x3f80_0000)) == [6, 0x3f, 0x80, 0, 0]
  {
  }

  /** The other instructions. */
  lemma InstructionBytes(symbols: seq<string>)
    ensures Encode(symbols, Return) == [0] && Encode(symbols, PopObjTable) == [19] && Encode(symbols, Connect) == [20]
    ensures Encode(symbols, SetInt(5)) == [0x45, 5] && Encode(symbols, PopArgs(2)) == [0x49, 2]
  {
  }

  lemma ObjectBytes(symbols: seq<string>)
    ensures Encode(symbols, PushObj(2)) == [0x4a, 2] && Encode(symbols, MvObj(2)) == [0x4b, 2]
    ensures Encode(symbols, PopObjs(1)) == [0x4c, 1] && Encode(symbols, MakeObj(3)) == [0x4d, 3]
    ensures Encode(symbols, PushObjTable(2)) == [0x52, 2] && Encode(symbols, MakeTopObj(1)) == [0x55, 1]
  {
  }

  /** Instructions with a symbol hold its index in the table. */
  lemma SymbolBytes(a: string, b: string)
    requires a != b
    ensures Encode([a, b], PushSym(b)) == [0x43, 1] && Encode([a, b], SetSym(b)) == [0x47, 1]
    ensures Encode([a, b], PutProp(b)) == [0x4e, 1]
  {
    hide IndexOf;
    SecondIndex(a, b);
  }

  lemma SecondIndex(a: string, b: string)
    requires a != b
    ensures IndexOf([a, b], b) == 1
  {
    assert [a, b][1..] == [b];
    assert IndexOf([b], b) == 0;
  }

  /** A message holds the inlet it is for, the index of its selector and the number of its arguments. */
  lemma MessageCodeBytes(a: string, b: string)
    requires a != b
    ensures Encode([a, b], ObjMess(b, 3)) == [16, 0xff, 0xff, 0xff, 0xff, 0, 0, 0, 1, 0, 0, 0, 3]
  {
    hide IndexOf;
    SecondIndex(a, b);
  }
}
