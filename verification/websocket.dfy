/**
  WebSocket framing (sections 5.2 and 5.3 of RFC 6455) over a receive buffer that is filled by partial
  reads, as the Discord and Feishu gateways do it. The buffer capacity is the length of the array.
  */
module WebSocket {
  import opened Basics

  // ---------------------------------------------------------------------------------------------
  // Bytes

  /** Exclusive or of the low `bits` bits. */
  function XorBits(a: nat, b: nat, bits: nat): (r: nat)
    decreases bits
  {
    if bits == 0 then 0 else 2 * XorBits(a / 2, b / 2, bits - 1) + (if a % 2 == b % 2 then 0 else 1)
  }

  lemma {:induction false} XorBitsTwice(a: nat, b: nat, bits: nat, pow: nat)
    requires pow == Pow2(bits) && a < pow
    ensures XorBits(a, b, bits) < pow && XorBits(XorBits(a, b, bits), b, bits) == a
    decreases bits
  {
    if bits > 0 {
      XorBitsTwice(a / 2, b / 2, bits - 1, pow / 2);
      var x := XorBits(a, b, bits);
      assert x / 2 == XorBits(a / 2, b / 2, bits - 1);
    }
  }

  function Pow2(n: nat): nat { if n == 0 then 1 else 2 * Pow2(n - 1) }

  function Xor(a: Byte, b: Byte): Byte {
    assert Pow2(8) == 256;
    XorBitsTwice(a, b, 8, 256);
    XorBits(a, b, 8)
  }

  lemma {:induction false} XorTwice(a: Byte, b: Byte)
    ensures Xor(Xor(a, b), b) == a
  {
    assert Pow2(8) == 256;
    XorBitsTwice(a, b, 8, 256);
  }

  function BigEndian(n: nat, k: nat): (r: seq<Byte>)
    ensures |r| == k
  {
    if k == 0 then [] else BigEndian(n / 256, k - 1) + [n % 256]
  }

  function FromBigEndian(bs: seq<Byte>): nat {
    if bs == [] then 0 else 256 * FromBigEndian(bs[..|bs| - 1]) + bs[|bs| - 1]
  }

  function Pow256(k: nat): nat { if k == 0 then 1 else 256 * Pow256(k - 1) }

  lemma {:induction false} BigEndianRoundTrip(n: nat, k: nat)
    requires n < Pow256(k)
    ensures FromBigEndian(BigEndian(n, k)) == n
  {
    if k > 0 {
      BigEndianRoundTrip(n / 256, k - 1);
      var bs := BigEndian(n, k);
      assert bs[..k - 1] == BigEndian(n / 256, k - 1);
    }
  }

  /** Shifting a 64-bit length down to its byte `i`, most significant first. */
  function ShiftedByte(n: nat, i: nat): Byte
    requires i < 8
  {
    if i == 0 then n / 0x100_0000_0000_0000 % 256
    else if i == 1 then n / 0x1_0000_0000_0000 % 256
    else if i == 2 then n / 0x100_0000_0000 % 256
    else if i == 3 then n / 0x1_0000_0000 % 256
    else if i == 4 then n / 0x100_0000 % 256
    else if i == 5 then n / 0x1_0000 % 256
    else if i == 6 then n / 0x100 % 256
    else n % 256
  }

  lemma {:induction false} DivTwice(n: nat, p: nat)
    requires p == 0x100_0000 || p == 0x1_0000 || p == 0x100
    ensures n / 0x1_0000_0000 / p == n / (0x1_0000_0000 * p)
  {
  }

  lemma {:induction false} BigEndianAt(n: nat, i: nat)
    requires i < 8
    ensures BigEndian(n, 8)[i] == ShiftedByte(n, i)
  {
    var c := n / 256 / 256 / 256 / 256;
    var hi, lo := BigEndian(c, 4), [n / 0x100_0000 % 256, n / 0x1_0000 % 256, n / 0x100 % 256, n % 256];
    BigEndianUnfold(n, 8);
    assert BigEndian(n, 8) == hi + lo;
    if i < 4 {
      assert c == n / 0x1_0000_0000;
      BigEndianUnfold(c, 4);
      assert hi == [c / 0x100_0000 % 256, c / 0x1_0000 % 256, c / 0x100 % 256, c % 256];
      DivTwice(n, 0x100_0000);
      DivTwice(n, 0x1_0000);
      DivTwice(n, 0x100);
    } else {
      assert (hi + lo)[i] == lo[i - 4];
    }
  }

  lemma {:induction false} BigEndianUnfold(n: nat, k: nat)
    requires k >= 4
    ensures BigEndian(n, k) == BigEndian(n / 256 / 256 / 256 / 256, k - 4)
                               + [n / 0x100_0000 % 256, n / 0x1_0000 % 256, n / 0x100 % 256, n % 256]
  {
    var a := n / 256;
    var b := a / 256;
    var c := b / 256;
    assert BigEndian(n, k) == BigEndian(a, k - 1) + [n % 256];
    assert BigEndian(a, k - 1) == BigEndian(b, k - 2) + [a % 256];
    assert BigEndian(b, k - 2) == BigEndian(c, k - 3) + [b % 256];
    assert BigEndian(c, k - 3) == BigEndian(c / 256, k - 4) + [c % 256];
  }

  // ---------------------------------------------------------------------------------------------
  // Frames

  /** A frame on the wire: first byte, optional 4-byte mask, payload before masking. */
  datatype Frame = Frame(first: Byte, mask: seq<Byte>, payload: seq<Byte>) {
    ghost predicate Valid() { (|mask| == 0 || |mask| == 4) && |payload| < Pow256(8) }

    function Opcode(): Byte { first % 16 }
  }

  function Masked(mask: seq<Byte>, data: seq<Byte>): (r: seq<Byte>)
    requires |mask| == 0 || |mask| == 4
    ensures |r| == |data|
  {
    if mask == [] then data else seq(|data|, i requires 0 <= i < |data| => Xor(data[i], mask[i % 4]))
  }

  lemma {:induction false} MaskedTwice(mask: seq<Byte>, data: seq<Byte>)
    requires |mask| == 0 || |mask| == 4
    ensures Masked(mask, Masked(mask, data)) == data
  {
    if mask != [] {
      forall i | 0 <= i < |data| ensures Masked(mask, Masked(mask, data))[i] == data[i] {
        XorTwice(data[i], mask[i % 4]);
      }
    }
  }

  /** The shortest of the three length forms. */
  function LengthBytes(n: nat, maskBit: nat): (r: seq<Byte>)
    requires maskBit == 0 || maskBit == 128
    ensures |r| == 1 || |r| == 3 || |r| == 9
  {
    if n <= 125 then [maskBit + n]
    else if n <= 0xFFFF then [maskBit + 126] + BigEndian(n, 2)
    else [maskBit + 127] + BigEndian(n, 8)
  }

  function Head(f: Frame): seq<Byte>
    requires f.Valid()
  {
    [f.first] + LengthBytes(|f.payload|, if f.mask == [] then 0 else 128)
  }

  function Wire(f: Frame): seq<Byte>
    requires f.Valid()
  {
    Head(f) + f.mask + Masked(f.mask, f.payload)
  }

  datatype Decoded = NotReady | TooBig | Got(opcode: Byte, payload: seq<Byte>, consumed: nat)

  /** How many length bytes follow the second byte. */
  function ExtraLength(second: Byte): nat {
    if second % 128 == 126 then 2 else if second % 128 == 127 then 8 else 0
  }

  function PayloadLength(buf: seq<Byte>): nat
    requires |buf| >= 2 && |buf| >= 2 + ExtraLength(buf[1])
  {
    var extra := ExtraLength(buf[1]);
    if extra == 0 then buf[1] % 128 else FromBigEndian(buf[2..2 + extra])
  }

  /** Decodes the frame at the start of the buffered bytes. */
  function Decode(buf: seq<Byte>, cap: nat): Decoded {
    if |buf| < 2 || |buf| < 2 + ExtraLength(buf[1]) then NotReady
    else
      var plen := PayloadLength(buf);
      var off := 2 + ExtraLength(buf[1]);
      var mlen := if buf[1] >= 128 then 4 else 0;
      if |buf| < off + mlen then NotReady
      else if cap <= 16 || plen > cap - 16 then TooBig
      else if |buf| < off + mlen + plen then NotReady
      else Got(buf[0] % 16, Masked(buf[off..off + mlen], buf[off + mlen..off + mlen + plen]), off + mlen + plen)
  }

  lemma {:induction false} DecodeShort(buf: seq<Byte>, cap: nat)
    ensures |buf| < 2 || |buf| < 2 + ExtraLength(buf[1]) ==> Decode(buf, cap) == NotReady
  {
  }

  /** Decoding once the length bytes are there. */
  lemma {:induction false} DecodeIs(buf: seq<Byte>, cap: nat, plen: nat, off: nat, mlen: nat)
    requires |buf| >= 2 && off == 2 + ExtraLength(buf[1]) && |buf| >= off && plen == PayloadLength(buf)
    requires mlen == if buf[1] >= 128 then 4 else 0
    ensures Decode(buf, cap) ==
            if |buf| < off + mlen then NotReady
            else if cap <= 16 || plen > cap - 16 then TooBig
            else if |buf| < off + mlen + plen then NotReady
            else Got(buf[0] % 16, Masked(buf[off..off + mlen], buf[off + mlen..off + mlen + plen]), off + mlen + plen)
  {
  }

  lemma {:induction false} LengthBytesRead(n: nat, maskBit: nat)
    requires (maskBit == 0 || maskBit == 128) && n < Pow256(8)
    ensures var r := LengthBytes(n, maskBit);
      && |r| == 1 + ExtraLength(r[0]) && (r[0] >= 128 <==> maskBit == 128)
      && (ExtraLength(r[0]) == 0 ==> r[0] % 128 == n)
      && (ExtraLength(r[0]) > 0 ==> FromBigEndian(r[1..]) == n)
  {
    assert Pow256(2) == 65536;
    if n > 125 && n <= 0xFFFF { BigEndianRoundTrip(n, 2); }
    if n > 0xFFFF { BigEndianRoundTrip(n, 8); }
  }

  lemma {:induction false} Layout(first: Byte, lb: seq<Byte>, mask: seq<Byte>, body: seq<Byte>, rest: seq<Byte>)
    requires lb != []
    ensures var full, off := [first] + lb + mask + body + rest, 1 + |lb|;
      && full[0] == first && full[1] == lb[0] && full[2..off] == lb[1..]
      && full[off..off + |mask|] == mask && full[off + |mask|..off + |mask| + |body|] == body
  {
    Slices([first], lb, mask, body + rest);
    Slices([first] + lb, mask, body, rest);
    var full := [first] + lb + mask + body + rest;
    assert full == [first] + lb + mask + (body + rest);
    assert full[2..1 + |lb|] == full[1..1 + |lb|][1..];
  }

  lemma {:induction false} WireLayout(f: Frame, rest: seq<Byte>)
    requires f.Valid()
    ensures var full, lb := Wire(f) + rest, LengthBytes(|f.payload|, if f.mask == [] then 0 else 128);
            var off := 1 + |lb|;
            var end := off + |f.mask| + |f.payload|;
      && |Wire(f)| == end && full[0] == f.first && full[1] == lb[0] && full[2..off] == lb[1..]
      && full[off..off + |f.mask|] == f.mask && full[off + |f.mask|..end] == Masked(f.mask, f.payload)
  {
    hide BigEndian, Pow256, Masked, LengthBytes;
    Layout(f.first, LengthBytes(|f.payload|, if f.mask == [] then 0 else 128), f.mask, Masked(f.mask, f.payload), rest);
  }

  /** Once the length bytes are buffered, they give the payload length and where the mask starts. */
  lemma {:induction false} HeaderRead(f: Frame, rest: seq<Byte>, k: nat)
    requires f.Valid() && k <= |Wire(f)| + |rest|
    ensures var buf, off := (Wire(f) + rest)[..k], |Head(f)|;
      && off >= 2 && |Wire(f)| == off + |f.mask| + |f.payload|
      && (k >= 2 ==> buf[0] == f.first && 2 + ExtraLength(buf[1]) == off && (buf[1] >= 128 <==> |f.mask| == 4))
      && (k >= off ==> PayloadLength(buf) == |f.payload|)
  {
    hide BigEndian, FromBigEndian, Masked, Pow256;
    var full, n := Wire(f) + rest, |f.payload|;
    var maskBit := if f.mask == [] then 0 else 128;
    var lb := LengthBytes(n, maskBit);
    LengthBytesRead(n, maskBit);
    WireLayout(f, rest);
    var buf := full[..k];
    if k >= 2 { assert buf[1] == lb[0]; }
    if k >= 1 + |lb| { assert buf[2..1 + |lb|] == full[2..1 + |lb|]; }
  }

  lemma {:induction false} Slices(a: seq<Byte>, b: seq<Byte>, c: seq<Byte>, d: seq<Byte>)
    ensures var s := a + b + c + d;
            s[|a|..|a| + |b|] == b && s[|a| + |b|..|a| + |b| + |c|] == c
  {
  }

  lemma {:induction false} BodyRead(f: Frame, rest: seq<Byte>, k: nat)
    requires f.Valid() && |Wire(f)| <= k <= |Wire(f)| + |rest|
    ensures var buf, off := (Wire(f) + rest)[..k], |Head(f)|;
            |Wire(f)| == off + |f.mask| + |f.payload|
            && Masked(buf[off..off + |f.mask|], buf[off + |f.mask|..|Wire(f)|]) == f.payload
  {
    hide BigEndian, LengthBytes, Pow256;
    var h, m, t := Head(f), Masked(f.mask, f.payload), rest[..k - |Wire(f)|];
    assert (Wire(f) + rest)[..k] == h + f.mask + m + t;
    Slices(h, f.mask, m, t);
    MaskedTwice(f.mask, f.payload);
  }

  /**
    Frame round trip: whatever follows the frame, decoding the first `k` buffered bytes returns the
    opcode, the payload and the frame length as soon as the whole frame is there, and reports every
    shorter prefix as not ready.
    */
  lemma {:induction false} DecodeWire(f: Frame, rest: seq<Byte>, k: nat, cap: nat)
    requires f.Valid() && cap > 16 && |f.payload| <= cap - 16 && k <= |Wire(f)| + |rest|
    ensures Decode((Wire(f) + rest)[..k], cap) ==
            if k < |Wire(f)| then NotReady else Got(f.Opcode(), f.payload, |Wire(f)|)
  {
    hide BigEndian, FromBigEndian, LengthBytes, Pow256, Masked;
    HeaderRead(f, rest, k);
    if k >= |Wire(f)| { BodyRead(f, rest, k); }
  }

  /** What the sender puts on the wire: FIN set, the low nibble of the opcode, a mask, the payload. */
  function SentFrame(opcode: Byte, mask: seq<Byte>, payload: seq<Byte>): Frame {
    Frame(128 + opcode % 16, mask, payload)
  }

  /** What was sent is decoded as the low four bits of the opcode and the payload, whatever follows it. */
  lemma {:induction false} SentFrameDecodes(opcode: Byte, mask: seq<Byte>, payload: seq<Byte>, rest: seq<Byte>, k: nat, cap: nat)
    requires |mask| == 4 && |payload| < Pow256(8) && cap > 16 && |payload| <= cap - 16
    requires k <= |Wire(SentFrame(opcode, mask, payload))| + |rest|
    ensures var wire := Wire(SentFrame(opcode, mask, payload));
            Decode((wire + rest)[..k], cap) == if k < |wire| then NotReady else Got(opcode % 16, payload, |wire|)
  {
    hide Pow256, Wire, Decode;
    DecodeWire(SentFrame(opcode, mask, payload), rest, k, cap);
  }

  method BuildHeader(opcode: Byte, n: nat) returns (header: seq<Byte>)
    requires n < Pow256(8)
    ensures header == [128 + opcode % 16] + LengthBytes(n, 128)
  {
    header := [128 + opcode % 16];
    if n <= 125 {
      header := header + [128 + n];
    } else if n <= 0xFFFF {
      header := header + [128 + 126, n / 0x100 % 256, n % 256];
      assert BigEndian(n, 2) == [n / 256 % 256, n % 256];
    } else {
      header := header + [128 + 127];
      for i := 0 to 8
        invariant header == [128 + opcode % 16, 255] + BigEndian(n, 8)[..i]
      {
        BigEndianAt(n, i);
        header := header + [ShiftedByte(n, i)];
      }
      assert BigEndian(n, 8)[..8] == BigEndian(n, 8);
    }
  }

  /** The four mask bytes, low byte of the random word first. */
  function MaskBytes(m: nat): seq<Byte> { [m % 256, m / 0x100 % 256, m / 0x1_0000 % 256, m / 0x100_0000 % 256] }

  method CopyInto(a: array<Byte>, start: nat, bytes: seq<Byte>)
    requires start + |bytes| <= a.Length
    modifies a
    ensures a[..start + |bytes|] == old(a[..start]) + bytes
  {
    for i := 0 to |bytes|
      invariant forall j :: 0 <= j < start ==> a[j] == old(a[j])
      invariant forall j :: 0 <= j < i ==> a[start + j] == bytes[j]
    {
      a[start + i] := bytes[i];
    }
  }

  /** Builds a masked frame from the random word `m`. */
  lemma {:induction false} Assembled(s: seq<Byte>, front: seq<Byte>, mask: seq<Byte>, payload: seq<Byte>)
    requires |mask| == 4 && |s| == |front| + |payload|
    requires forall j :: 0 <= j < |front| ==> s[j] == front[j]
    requires forall j :: 0 <= j < |payload| ==> s[|front| + j] == Xor(payload[j], mask[j % 4])
    ensures s == front + Masked(mask, payload)
  {
    hide Xor;
    forall j | |front| <= j < |s| ensures s[j] == (front + Masked(mask, payload))[j] {
      var k := j - |front|;
      assert s[|front| + k] == Xor(payload[k], mask[k % 4]);
    }
  }

  method SendFrame(opcode: Byte, payload: seq<Byte>, m: nat) returns (frame: array<Byte>)
    requires |payload| < Pow256(8)
    ensures frame[..] == Wire(SentFrame(opcode, MaskBytes(m), payload))
  {
    hide BigEndian, LengthBytes, Pow256, Xor, Masked;
    var n := |payload|;
    var header := BuildHeader(opcode, n);
    var mask := MaskBytes(m);
    var start := |header| + 4;
    frame := new Byte[start + n];
    CopyInto(frame, 0, header);
    CopyInto(frame, |header|, mask);
    ghost var front := header + mask;
    assert frame[..start] == front;
    for i := 0 to n
      invariant forall j :: 0 <= j < start ==> frame[j] == front[j]
      invariant forall j :: 0 <= j < i ==> frame[start + j] == Xor(payload[j], mask[j % 4])
    {
      frame[start + i] := Xor(payload[i], mask[i % 4]);
    }
    Assembled(frame[..], front, mask, payload);
  }

  // ---------------------------------------------------------------------------------------------
  // The receive buffer

  /** The outcome of one read from the connection, of at most 1024 bytes. */
  datatype Read = Data(bytes: seq<Byte>) | WouldBlock | Closed

  datatype Poll = Delivered(opcode: Byte, payload: seq<Byte>) | Waiting | OutOfLimit | BufferFull | LinkError

  /** What one poll returns and leaves in the buffer. */
  function PollStep(buf: seq<Byte>, cap: nat, input: Read): (Poll, seq<Byte>) {
    match Decode(buf, cap)
    case Got(op, payload, n) => (Delivered(op, payload), if n <= |buf| then buf[n..] else buf)
    case TooBig => (OutOfLimit, buf)
    case NotReady =>
      match input
      case WouldBlock => (Waiting, buf)
      case Closed => (LinkError, buf)
      case Data(bytes) =>
        if |buf| + |bytes| > cap then (BufferFull, buf)
        else
          var more := buf + bytes;
          match Decode(more, cap)
          case Got(op, payload, n) => (Delivered(op, payload), if n <= |more| then more[n..] else more)
          case TooBig => (OutOfLimit, more)
          case NotReady => (Waiting, more)
  }

  class Connection {
    const rx: array<Byte>
    var rxLen: nat

    ghost predicate Valid()
      reads this
    {
      rxLen <= rx.Length
    }

    ghost function Buffered(): seq<Byte>
      requires Valid()
      reads this, rx
    {
      rx[..rxLen]
    }

    constructor (cap: nat)
      ensures Valid() && rx.Length == cap && Buffered() == [] && fresh(rx)
    {
      rx := new Byte[cap](_ => 0);
      rxLen := 0;
    }

    /** The payload length and the offset behind the length bytes; None when they are not there yet. */
    method ReadLength() returns (ok: bool, plen: nat, off: nat)
      requires Valid() && rxLen >= 2
      ensures ok == (rxLen >= 2 + ExtraLength(rx[1]))
      ensures ok ==> off == 2 + ExtraLength(rx[1]) && plen == PayloadLength(Buffered())
    {
      ok, plen, off := true, rx[1] % 128, 2;
      if plen == 126 {
        if rxLen < off + 2 { return false, 0, 0; }
        plen := 256 * (rx[off] as int) + rx[off + 1];
        assert Buffered()[2..4] == [rx[2], rx[3]];
        assert [rx[2], rx[3]][..1] == [rx[2]] && FromBigEndian([rx[2]]) == rx[2];
        off := off + 2;
      } else if plen == 127 {
        if rxLen < off + 8 { return false, 0, 0; }
        plen := 0;
        for i := 0 to 8
          invariant plen == FromBigEndian(Buffered()[2..2 + i])
        {
          assert Buffered()[2..2 + (i + 1)][..i] == Buffered()[2..2 + i];
          plen := 256 * plen + rx[off + i];
        }
        off := off + 8;
      }
    }

    method CopyPayload(mask: seq<Byte>, start: nat, plen: nat) returns (payload: seq<Byte>)
      requires Valid() && (|mask| == 0 || |mask| == 4) && start + plen <= rxLen
      ensures payload == Masked(mask, Buffered()[start..start + plen])
    {
      var data := new Byte[plen];
      for i := 0 to plen
        invariant forall j :: 0 <= j < i ==> data[j] == rx[start + j]
      {
        data[i] := rx[start + i];
      }
      ghost var raw := data[..];
      assert raw == Buffered()[start..start + plen];
      if mask != [] {
        for i := 0 to plen
          invariant forall j :: 0 <= j < plen ==> data[j] == if j < i then Xor(raw[j], mask[j % 4]) else raw[j]
        {
          data[i] := Xor(data[i], mask[i % 4]);
        }
      }
      assert data[..] == Masked(mask, raw);
      return data[..];
    }

    method DecodeOne() returns (r: Decoded)
      requires Valid()
      ensures r == Decode(Buffered(), rx.Length)
      ensures r.Got? ==> r.consumed <= rxLen
    {
      hide Decode, PayloadLength, Masked;
      DecodeShort(Buffered(), rx.Length);
      if rxLen < 2 { return NotReady; }
      var ok, plen, off := ReadLength();
      if !ok { return NotReady; }
      var mlen := if rx[1] >= 128 then 4 else 0;
      DecodeIs(Buffered(), rx.Length, plen, off, mlen);
      if rxLen < off + mlen { return NotReady; }
      if rx.Length <= 16 || plen > rx.Length - 16 { return TooBig; }
      var frameLen := off + mlen + plen;
      if rxLen < frameLen { return NotReady; }
      var mask := rx[..rxLen][off..off + mlen];
      var payload := CopyPayload(mask, off + mlen, plen);
      return Got(rx[0] % 16, payload, frameLen);
    }

    method ConsumeRx(consumed: nat)
      requires Valid()
      modifies this`rxLen, rx
      ensures Valid()
      ensures Buffered() == if consumed <= old(rxLen) then old(Buffered())[consumed..] else old(Buffered())
    {
      if consumed == 0 || consumed > rxLen { return; }
      for i := 0 to rxLen - consumed
        invariant rxLen == old(rxLen)
        invariant forall j :: 0 <= j < i ==> rx[j] == old(rx[j + consumed])
        invariant forall j :: i <= j < rxLen ==> rx[j] == old(rx[j])
      {
        rx[i] := rx[i + consumed];
      }
      rxLen := rxLen - consumed;
    }

    method Append(bytes: seq<Byte>)
      requires Valid() && rxLen + |bytes| <= rx.Length
      modifies this`rxLen, rx
      ensures Valid() && Buffered() == old(Buffered()) + bytes
    {
      for i := 0 to |bytes|
        invariant rxLen == old(rxLen)
        invariant forall j :: 0 <= j < rxLen ==> rx[j] == old(rx[j])
        invariant forall j :: 0 <= j < i ==> rx[rxLen + j] == bytes[j]
      {
        rx[rxLen + i] := bytes[i];
      }
      rxLen := rxLen + |bytes|;
    }

    method PollFrame(input: Read) returns (r: Poll)
      requires Valid()
      modifies this`rxLen, rx
      ensures Valid() && (r, Buffered()) == PollStep(old(Buffered()), rx.Length, input)
    {
      var d := DecodeOne();
      if d.Got? {
        ConsumeRx(d.consumed);
        return Delivered(d.opcode, d.payload);
      }
      if d.TooBig? { return OutOfLimit; }
      if input.WouldBlock? { return Waiting; }
      if input.Closed? { return LinkError; }
      if rxLen + |input.bytes| > rx.Length { return BufferFull; }
      Append(input.bytes);
      d := DecodeOne();
      if d.Got? {
        ConsumeRx(d.consumed);
        return Delivered(d.opcode, d.payload);
      }
      return if d.TooBig? then OutOfLimit else Waiting;
    }
  }
}
