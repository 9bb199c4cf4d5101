/**
  The bytes on the wire, said without the encoder: masking is exclusive or bit by bit, lengths are in
  network byte order and in the shortest form.
  */
module WebSocketFormat {
  import opened Basics
  import opened WebSocket

  // ---------------------------------------------------------------------------------------------
  // Masking

  function Bit(a: nat, k: nat): nat { if k == 0 then a % 2 else Bit(a / 2, k - 1) }

  lemma {:induction false} XorBitsBit(a: nat, b: nat, bits: nat, k: nat)
    requires k < bits
    ensures Bit(XorBits(a, b, bits), k) == if Bit(a, k) != Bit(b, k) then 1 else 0
    decreases bits
  {
    var x := XorBits(a, b, bits);
    assert x / 2 == XorBits(a / 2, b / 2, bits - 1);
    if k > 0 { XorBitsBit(a / 2, b / 2, bits - 1, k - 1); }
  }

  /** A bit of the masked byte is set exactly if the bits of the byte and of the mask differ. */
  lemma {:induction false} XorIsExclusiveOr(a: Byte, b: Byte, k: nat)
    requires k < 8
    ensures Bit(Xor(a, b), k) == if Bit(a, k) != Bit(b, k) then 1 else 0
  {
    XorBitsBit(a, b, 8, k);
  }

  lemma {:induction false} XorBitsZero(a: nat, bits: nat)
    requires a < Pow2(bits)
    ensures XorBits(a, 0, bits) == a
    decreases bits
  {
    if bits > 0 { XorBitsZero(a / 2, bits - 1); }
  }

  lemma {:induction false} XorZero(a: Byte)
    ensures Xor(a, 0) == a
  {
    assert Pow2(8) == 256;
    XorBitsZero(a, 8);
  }

  /** A mask of zeros leaves the data as it is; byte i of any data is masked with byte i mod 4 of the mask. */
  lemma {:induction false} MaskedIs(mask: seq<Byte>, data: seq<Byte>)
    requires |mask| == 4
    ensures mask == [0, 0, 0, 0] ==> Masked(mask, data) == data
    ensures forall i, k :: 0 <= i < |data| && 0 <= k < 8 ==>
              Bit(Masked(mask, data)[i], k) == if Bit(data[i], k) != Bit(mask[i % 4], k) then 1 else 0
  {
    hide Xor, Bit;
    if mask == [0, 0, 0, 0] {
      forall i | 0 <= i < |data| ensures Masked(mask, data)[i] == data[i] { XorZero(data[i]); }
    }
    forall i, k | 0 <= i < |data| && 0 <= k < 8
      ensures Bit(Masked(mask, data)[i], k) == if Bit(data[i], k) != Bit(mask[i % 4], k) then 1 else 0
    {
      XorIsExclusiveOr(data[i], mask[i % 4], k);
    }
  }

  // ---------------------------------------------------------------------------------------------
  // Lengths

  lemma {:induction false} BigEndianTwo(n: nat)
    requires n < 0x1_0000
    ensures BigEndian(n, 2) == [n / 256, n % 256] && FromBigEndian([n / 256, n % 256]) == n
  {
    assert BigEndian(n / 256, 1) == BigEndian(n / 256 / 256, 0) + [n / 256 % 256];
    var bs: seq<Byte> := [n / 256, n % 256];
    var high: seq<Byte> := [n / 256];
    assert bs[..1] == high && high[..0] == [] && FromBigEndian(high) == n / 256;
    assert FromBigEndian(bs) == 256 * FromBigEndian(high) + n % 256;
  }

  /** The first bytes of a masked frame: the shortest length form that fits, most significant byte first. */
  lemma {:induction false} HeadIs(f: Frame)
    requires f.Valid() && |f.mask| == 4
    ensures var n, h := |f.payload|, Head(f);
      if n <= 125 then h == [f.first, 128 + n]
      else if n < 0x1_0000 then h == [f.first, 254, n / 256, n % 256]
      else h == [f.first, 255] + [n / 0x100_0000_0000_0000 % 256, n / 0x1_0000_0000_0000 % 256, n / 0x100_0000_0000 % 256,
                                  n / 0x1_0000_0000 % 256, n / 0x100_0000 % 256, n / 0x1_0000 % 256, n / 0x100 % 256, n % 256]
  {
    var n := |f.payload|;
    if 125 < n < 0x1_0000 {
      BigEndianTwo(n);
      assert Head(f) == [f.first] + ([254] + [n / 256, n % 256]);
    } else if n >= 0x1_0000 {
      LongLength(n);
    }
  }

  lemma {:induction false} LongLength(n: nat)
    ensures BigEndian(n, 8) == [n / 0x100_0000_0000_0000 % 256, n / 0x1_0000_0000_0000 % 256, n / 0x100_0000_0000 % 256,
                                n / 0x1_0000_0000 % 256, n / 0x100_0000 % 256, n / 0x1_0000 % 256, n / 0x100 % 256, n % 256]
  {
    hide BigEndian;
    forall i | 0 <= i < 8 ensures BigEndian(n, 8)[i] == ShiftedByte(n, i) { BigEndianAt(n, i); }
  }

  /** A short text frame under a mask word: FIN and opcode, mask bit and length, the mask's low byte first. */
  lemma {:induction false} SentBytes(opcode: Byte, m: nat, payload: seq<Byte>)
    requires |payload| <= 125
    ensures var mask := [m % 256, m / 256 % 256, m / 0x1_0000 % 256, m / 0x100_0000 % 256];
      && |payload| < Pow256(8)
      && Wire(SentFrame(opcode, MaskBytes(m), payload)) == [0x80 + opcode % 16, 0x80 + |payload|] + mask + Masked(mask, payload)
  {
    assert Pow256(8) >= 256 by { assert Pow256(7) >= 1; }
    hide Masked;
    HeadIs(SentFrame(opcode, MaskBytes(m), payload));
  }

  // ---------------------------------------------------------------------------------------------
  // Frames that the sender would write differently, or that are too long

  /** Any of the three length forms that the number fits in is understood. */
  lemma {:induction false} AnyLengthForm(first: Byte, form: nat, mask: seq<Byte>, payload: seq<Byte>, rest: seq<Byte>, cap: nat)
    requires (form == 0 && |payload| <= 125) || ((form == 2 || form == 8) && |payload| < Pow256(form))
    requires (|mask| == 0 || |mask| == 4) && cap > 16 && |payload| <= cap - 16
    ensures var wire := [first] + FormBytes(|payload|, form, mask != []) + mask + Masked(mask, payload);
      Decode(wire + rest, cap) == Got(first % 16, payload, |wire|)
  {
    hide BigEndian, FromBigEndian, Pow256, Masked, Decode, ExtraLength, FormBytes, PayloadLength;
    var n := |payload|;
    var lb, body := FormBytes(n, form, mask != []), Masked(mask, payload);
    var buf, off := [first] + lb + mask + body + rest, 2 + form;
    FormRead(n, form, mask != []);
    Layout(first, lb, mask, body, rest);
    LengthRead(buf, lb, n, form);
    DecodeIs(buf, cap, n, off, |mask|);
    MaskedTwice(mask, payload);
  }

  /** The length in one byte (form 0), or in 2 or 8 bytes behind 126 or 127. */
  function FormBytes(n: nat, form: nat, masked: bool): (r: seq<Byte>)
    requires (form == 0 && n <= 125) || form == 2 || form == 8
    ensures |r| == 1 + form
  {
    [(if masked then 128 else 0) + (if form == 0 then n else if form == 2 then 126 else 127)] + BigEndian(n, form)
  }

  lemma {:induction false} FormRead(n: nat, form: nat, masked: bool)
    requires (form == 0 && n <= 125) || ((form == 2 || form == 8) && n < Pow256(form))
    ensures var r := FormBytes(n, form, masked);
      && ExtraLength(r[0]) == form && (r[0] >= 128 <==> masked)
      && (if form == 0 then r[0] % 128 == n else FromBigEndian(r[1..]) == n)
  {
    if form > 0 { BigEndianRoundTrip(n, form); }
    hide BigEndian, FromBigEndian, Pow256;
    assert FormBytes(n, form, masked)[1..] == BigEndian(n, form);
  }

  lemma {:induction false} LengthRead(buf: seq<Byte>, lb: seq<Byte>, n: nat, form: nat)
    requires |lb| == 1 + form && |buf| >= 2 + form && buf[1] == lb[0] && buf[2..2 + form] == lb[1..]
    requires ExtraLength(lb[0]) == form && if form == 0 then lb[0] % 128 == n else FromBigEndian(lb[1..]) == n
    ensures PayloadLength(buf) == n
  {
    hide ExtraLength, FromBigEndian;
  }

  /** A frame that cannot fit is refused as soon as its header is there. */
  lemma {:induction false} TooLong(f: Frame, rest: seq<Byte>, k: nat, cap: nat)
    requires f.Valid() && (cap <= 16 || |f.payload| > cap - 16) && k <= |Wire(f)| + |rest|
    ensures Decode((Wire(f) + rest)[..k], cap) == if k < |Head(f)| + |f.mask| then NotReady else TooBig
  {
    hide BigEndian, FromBigEndian, LengthBytes, Pow256, Masked;
    HeaderRead(f, rest, k);
  }
}
