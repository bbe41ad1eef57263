/** Big-endian integers and byte strings, as `int.from_bytes` and `int.to_bytes` convert them. */
module ByteStrings {

  type Byte = x: int | 0 <= x < 256

  function FromBytes(bs: seq<Byte>): nat {
    if bs == [] then 0 else 256 * FromBytes(bs[..|bs| - 1]) + bs[|bs| - 1]
  }

  function BitLength(n: nat): nat { if n == 0 then 0 else 1 + BitLength(n / 2) }

  /** The last `len` base-256 digits of `n`. */
  function ToBytes(n: nat, len: nat): (bs: seq<Byte>)
    ensures |bs| == len
  {
    if len == 0 then [] else ToBytes(n / 256, len - 1) + [n % 256]
  }

  /** As many bytes as the bit length needs. */
  function ShortestBytes(n: nat): seq<Byte> { ToBytes(n, (BitLength(n) + 7) / 8) }

  lemma {:induction false} BytesThere(bs: seq<Byte>)
    ensures ToBytes(FromBytes(bs), |bs|) == bs
  {
    if bs != [] {
      var front, last := bs[..|bs| - 1], bs[|bs| - 1];
      BytesThere(front);
      assert FromBytes(bs) / 256 == FromBytes(front) && FromBytes(bs) % 256 == last;
    }
  }

  lemma EightBits(n: nat)
    requires n >= 256
    ensures BitLength(n) == 8 + BitLength(n / 256)
  {
    var a := n / 2;
    var b := a / 2;
    var c := b / 2;
    var d := c / 2;
    var e := d / 2;
    var f := e / 2;
    var g := f / 2;
    assert g / 2 == n / 256;
    assert BitLength(n) == 2 + BitLength(b);
    assert BitLength(b) == 2 + BitLength(d);
    assert BitLength(d) == 2 + BitLength(f);
    assert BitLength(f) == 2 + BitLength(g / 2);
  }

  lemma OneByte(n: nat)
    requires 0 < n < 256
    ensures 1 <= BitLength(n) <= 8
  {
    assert BitLength(n) == 1 + BitLength(n / 2);
    UpTo(n / 2, 7, 128);
  }

  lemma {:induction false} UpTo(n: nat, bits: nat, bound: nat)
    requires n < bound && (bits == 0 ==> bound <= 1) && (bits > 0 ==> bound % 2 == 0)
    requires bound == [1, 2, 4, 8, 16, 32, 64, 128][if bits < 8 then bits else 0] && bits < 8
    ensures BitLength(n) <= bits
  {
    if bits > 0 && n > 0 {
      UpTo(n / 2, bits - 1, bound / 2);
    }
  }

  /** A byte string with a non-zero first byte is exactly as long as its number needs. */
  lemma {:induction false} LengthKept(bs: seq<Byte>)
    requires bs != [] && bs[0] != 0
    ensures FromBytes(bs) > 0 && (BitLength(FromBytes(bs)) + 7) / 8 == |bs|
  {
    var front, last := bs[..|bs| - 1], bs[|bs| - 1];
    if |bs| == 1 {
      assert FromBytes(front) == 0;
      OneByte(FromBytes(bs));
    } else {
      LengthKept(front);
      assert FromBytes(bs) / 256 == FromBytes(front);
      EightBits(FromBytes(bs));
    }
  }

  /** Reading bytes as a number and writing the number back gives the bytes, given a non-zero first byte. */
  lemma BytesRoundTrip(bs: seq<Byte>)
    requires bs != [] && bs[0] != 0
    ensures ShortestBytes(FromBytes(bs)) == bs
  {
    hide FromBytes, ToBytes, BitLength;
    LengthKept(bs);
    BytesThere(bs);
  }

  /** And writing a number as bytes and reading them gives the number. */
  lemma {:induction false} NumberRoundTrip(n: nat)
    ensures FromBytes(ShortestBytes(n)) == n
  {
    hide BitLength;
    if n >= 256 {
      NumberRoundTrip(n / 256);
      EightBits(n);
      var bs := ShortestBytes(n);
      assert bs[..|bs| - 1] == ShortestBytes(n / 256);
    } else {
      FewBytes(n);
    }
  }

  lemma FewBytes(n: nat)
    requires n < 256
    ensures FromBytes(ShortestBytes(n)) == n
  {
    if n > 0 {
      OneByte(n);
      hide BitLength;
      assert ToBytes(n, 1) == [n];
      assert [n as Byte][..0] == [];
    }
  }
}
