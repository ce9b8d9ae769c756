/** Integers as bytes, most significant byte first, in two's complement. */
module Bytes {

  type byte = x: int | 0 <= x < 256
  type int32 = x: int | -0x8000_0000 <= x < 0x8000_0000

  /** The low byte of `v`; `%` is the remainder that is never negative, so this is two's complement. */
  function Low(v: int): byte {
    v % 256
  }

  function WriteB(v: int): (bs: seq<byte>)
    ensures |bs| == 1
  {
    [Low(v)]
  }

  function WriteS(v: int): (bs: seq<byte>)
    ensures |bs| == 2
  {
    [Low(v / 256), Low(v)]
  }

  function WriteL(v: int): (bs: seq<byte>)
    ensures |bs| == 4
  {
    [Low(v / 256 / 256 / 256), Low(v / 256 / 256), Low(v / 256), Low(v)]
  }

  function GetB(p: seq<byte>): int
    requires |p| >= 1
  {
    var u: int := p[0];
    if u < 128 then u else u - 256
  }

  function GetS(p: seq<byte>): int
    requires |p| >= 2
  {
    var u := (p[0] as int) * 256 + p[1] as int;
    if u < 0x8000 then u else u - 0x1_0000
  }

  function GetL(p: seq<byte>): int
    requires |p| >= 4
  {
    var u := (p[0] as int) * 0x100_0000 + (p[1] as int) * 0x1_0000 + (p[2] as int) * 256 + p[3] as int;
    if u < 0x8000_0000 then u else u - 0x1_0000_0000
  }

  lemma GetWriteS(v: int, rest: seq<byte>)
    requires -0x8000 <= v < 0x8000
    ensures GetS(WriteS(v) + rest) == v
  {
    var q := v / 256;
    assert v == 256 * q + v % 256 && -128 <= q < 128;
  }

  lemma GetWriteL(v: int, rest: seq<byte>)
    requires -0x8000_0000 <= v < 0x8000_0000
    ensures GetL(WriteL(v) + rest) == v
  {
    var q1 := v / 256;
    var q2 := q1 / 256;
    var q3 := q2 / 256;
    assert v == 256 * q1 + Low(v) && q1 == 256 * q2 + Low(q1) && q2 == 256 * q3 + Low(q2);
    assert -128 <= q3 < 128;
    assert Low(q3) == if q3 < 0 then q3 + 256 else q3;
  }

  /** The bytes are the digits to the base 256, highest first, of the number in two's complement. */
  lemma DigitsOf(v: int)
    requires -0x8000_0000 <= v < 0x8000_0000
    ensures var b := WriteL(v);
            (b[0] as int) * 0x100_0000 + (b[1] as int) * 0x1_0000 + (b[2] as int) * 0x100 + b[3] as int ==
            if v < 0 then v + 0x1_0000_0000 else v
    ensures -0x8000 <= v < 0x8000 ==>
              var b := WriteS(v); (b[0] as int) * 0x100 + b[1] as int == if v < 0 then v + 0x1_0000 else v
  {
    var q1 := v / 256;
    var q2 := q1 / 256;
    var q3 := q2 / 256;
    assert v == 256 * q1 + Low(v) && q1 == 256 * q2 + Low(q1) && q2 == 256 * q3 + Low(q2);
    assert -128 <= q3 < 128;
    assert Low(q3) == if q3 < 0 then q3 + 256 else q3;
    if -0x8000 <= v < 0x8000 {
      assert -128 <= q1 < 128 && Low(q1) == if q1 < 0 then q1 + 256 else q1;
    }
  }
}
