/** The codec as it works: an offset advancing over the input, a growing output buffer. */
module ProtobufCodec {
  import opened Basics
  import opened Protobuf

  // ---------------------------------------------------------------------------------------------
  // Reading

  /** After `i` continuation bytes with value `acc`; the next byte counts `p` times. */
  ghost predicate PartlyRead(s: seq<Byte>, i: nat, acc: nat, p: nat) {
    i <= |s| && i < VarintLimit() &&
    var r := RawVarint(s[i..], VarintLimit() - i);
    ReadVarint(s) == if r.None? then None else Some((Add(acc, p, r.value.0), r.value.1 + i))
  }

  function Add(acc: nat, p: nat, digit: nat): nat { acc + p * digit }

  lemma {:induction false} Distribute(acc: nat, p: nat, low: nat, high: nat)
    ensures Add(acc, p, low + 128 * high) == Add(Add(acc, p, low), 128 * p, high)
  {
  }

  lemma {:induction false} ReadOneMore(s: seq<Byte>, i: nat, acc: nat, p: nat)
    requires PartlyRead(s, i, acc, p) && i < |s| && i + 1 < VarintLimit() && s[i] >= 128
    ensures PartlyRead(s, i + 1, Add(acc, p, s[i] - 128), 128 * p)
  {
    assert s[i..][1..] == s[i + 1..];
    var r := RawVarint(s[i + 1..], VarintLimit() - i - 1);
    if r.Some? { Distribute(acc, p, s[i] - 128, r.value.0); }
  }

  lemma {:induction false} ReadLast(s: seq<Byte>, i: nat, acc: nat, p: nat)
    requires PartlyRead(s, i, acc, p) && i < |s| && s[i] < 128
    ensures ReadVarint(s) == Some((Add(acc, p, if i + 1 == VarintLimit() then s[i] % 2 else s[i]), i + 1))
  {
  }

  lemma {:induction false} ReadNothing(s: seq<Byte>, i: nat, acc: nat, p: nat)
    requires PartlyRead(s, i, acc, p)
    requires i == |s| || (i + 1 == VarintLimit() && s[i] >= 128)
    ensures ReadVarint(s).None?
  {
  }

  /** Reads a varint at `off`; on success `next` is the offset behind it. */
  method ReadVarintAt(buf: seq<Byte>, off: nat) returns (ok: bool, v: nat, next: nat)
    requires off <= |buf|
    ensures ok == ReadVarint(buf[off..]).Some?
    ensures ok ==> ReadVarint(buf[off..]) == Some((v, next - off)) && off < next <= |buf|
  {
    var acc: nat, p: nat, i: nat := 0, 1, 0;
    ghost var s := buf[off..];
    assert s[0..] == s;
    while off + i < |buf|
      invariant off + i <= |buf| && i < VarintLimit() && PartlyRead(s, i, acc, p)
    {
      var b := buf[off + i];
      if b < 128 {
        ReadLast(s, i, acc, p);
        return true, Add(acc, p, if i + 1 == VarintLimit() then b % 2 else b), off + i + 1;
      }
      if i + 1 == VarintLimit() {
        ReadNothing(s, i, acc, p);
        return false, 0, off + i + 1;
      }
      ReadOneMore(s, i, acc, p);
      acc, p, i := Add(acc, p, b - 128), 128 * p, i + 1;
    }
    ReadNothing(s, i, acc, p);
    return false, 0, off + i;
  }

  /** Reads what follows a tag of the given wire type. */
  method ReadBodyAt(buf: seq<Byte>, off: nat, wire: nat) returns (ok: bool, b: Body, next: nat)
    requires off <= |buf|
    ensures ok == ReadBody(buf[off..], wire).Some?
    ensures ok ==> ReadBody(buf[off..], wire) == Some((b, next - off)) && off <= next <= |buf|
  {
    b, next := FixedBody, off;
    var v;
    if wire == 0 {
      ok, v, next := ReadVarintAt(buf, off);
      if ok { b := NumberBody(v); }
    } else if wire == 1 {
      return off + 8 <= |buf|, b, off + 8;
    } else if wire == 2 {
      ok, v, next := ReadVarintAt(buf, off);
      if !ok || next + v > |buf| { return false, b, next; }
      assert buf[off..][next - off..next - off + v] == buf[next..next + v];
      b, next := BytesBody(buf[next..next + v]), next + v;
    } else if wire == 5 {
      return off + 4 <= |buf|, b, off + 4;
    } else {
      return false, b, off;
    }
  }

  method ReadTokenAt(buf: seq<Byte>, off: nat) returns (ok: bool, t: Token, next: nat)
    requires off <= |buf|
    ensures ok == ReadToken(buf[off..]).Some?
    ensures ok ==> ReadToken(buf[off..]) == Some((t, next - off)) && off < next <= |buf|
  {
    hide ReadVarint, ReadBody;
    t := Token(0, FixedBody);
    var tag, mid;
    ok, tag, mid := ReadVarintAt(buf, off);
    next := mid;
    if !ok { return; }
    assert buf[off..][mid - off..] == buf[mid..];
    var b;
    ok, b, next := ReadBodyAt(buf, mid, tag % 8);
    t := Token(FieldOf(tag), b);
  }

  method ParseHeaderBytes(buf: seq<Byte>) returns (h: Header)
    ensures h == ParseHeader(buf, Header([], []))
  {
    hide ReadToken;
    h := Header([], []);
    var off := 0;
    assert buf[0..] == buf;
    while off < |buf|
      invariant off <= |buf| && ParseHeader(buf, Header([], [])) == ParseHeader(buf[off..], h)
      decreases |buf| - off
    {
      var ok, t, next := ReadTokenAt(buf, off);
      if !ok { return; }
      assert buf[off..][next - off..] == buf[next..];
      h, off := HeaderEffect(h, t), next;
    }
  }

  /** Parses a frame; header submessages beyond the table's capacity are skipped. */
  method ParseFrame(buf: seq<Byte>) returns (r: Option<Frame>)
    ensures r == Parse(buf)
  {
    hide ReadToken, Effect;
    var f, off := EMPTY_FRAME, 0;
    assert buf[0..] == buf;
    while off < |buf|
      invariant off <= |buf| && Parse(buf) == ParseFields(buf[off..], f)
      decreases |buf| - off
    {
      var ok, t, next := ReadTokenAt(buf, off);
      if !ok { return None; }
      var f' := Effect(f, t);
      if f'.None? { return None; }
      assert buf[off..][next - off..] == buf[next..];
      f, off := f'.value, next;
    }
    return Some(f);
  }

  // ---------------------------------------------------------------------------------------------
  // Writing

  /** A byte buffer that doubles its capacity when it is full. */
  class Buffer {
    var data: array<Byte>
    var len: nat

    ghost predicate Valid()
      reads this
    {
      len <= data.Length
    }

    ghost function Contents(): seq<Byte>
      requires Valid()
      reads this, data
    {
      data[..len]
    }

    constructor ()
      ensures Valid() && Contents() == [] && fresh(data)
    {
      data := new Byte[0];
      len := 0;
    }

    method Reserve(need: nat)
      requires Valid()
      modifies this`data
      ensures Valid() && Contents() == old(Contents()) && len == old(len) && len + need <= data.Length
      ensures data == old(data) || fresh(data)
    {
      if len + need <= data.Length { return; }
      var cap := if data.Length > 0 then data.Length else 128;
      while cap < len + need
        invariant cap > 0 && data == old(data)
        decreases len + need - cap
      {
        cap := 2 * cap;
      }
      var bigger := new Byte[cap];
      for i := 0 to len
        invariant data == old(data) && len <= bigger.Length
        invariant forall j :: 0 <= j < i ==> bigger[j] == data[j]
      {
        bigger[i] := data[i];
      }
      data := bigger;
    }

    method Append(bytes: seq<Byte>)
      requires Valid()
      modifies this, data
      ensures Valid() && Contents() == old(Contents()) + bytes && (data == old(data) || fresh(data))
    {
      Reserve(|bytes|);
      for i := 0 to |bytes|
        invariant len == old(len) && len + |bytes| <= data.Length && (data == old(data) || fresh(data))
        invariant data[..len] == old(Contents())
        invariant forall j :: 0 <= j < i ==> data[len + j] == bytes[j]
      {
        data[len + i] := bytes[i];
      }
      len := len + |bytes|;
    }

    method WriteVarint(v: nat)
      requires Valid() && v < TWO64
      modifies this, data
      ensures Valid() && Contents() == old(Contents()) + Varint(v) && (data == old(data) || fresh(data))
    {
      var tmp: seq<Byte>, rest: nat, n: nat, more := [], v, 0, true;
      BoundIs64Bits();
      while more && n < VarintLimit()
        invariant n <= VarintLimit() && rest < (if n == VarintLimit() then 1 else Bound(VarintLimit() - n)) && (n > 0 && more ==> rest > 0)
        invariant if more then tmp + Varint(rest) == Varint(v) else tmp == Varint(v)
        decreases VarintLimit() - n
      {
        ghost var r0 := rest;
        var c := rest % 128;
        rest := rest / 128;
        more := rest > 0;
        if more { assert tmp + Varint(r0) == tmp + [128 + c] + Varint(rest); }
        tmp, n := tmp + [if more then 128 + c else c], n + 1;
      }
      Append(tmp);
    }

    method WriteBytesField(field: nat, bytes: seq<Byte>)
      requires Valid() && field < TWO32 && |bytes| < TWO64
      modifies this, data
      ensures Valid() && Contents() == old(Contents()) + BytesField(field, bytes) && (data == old(data) || fresh(data))
    {
      WriteVarint(8 * field + 2);
      WriteVarint(|bytes|);
      Append(bytes);
    }

    method WriteNumber(field: nat, v: nat)
      requires Valid() && field < TWO32 && v < TWO64
      modifies this, data
      ensures Valid() && Contents() == old(Contents()) + NumberField(field, v) && (data == old(data) || fresh(data))
    {
      WriteVarint(8 * field);
      WriteVarint(v);
    }
  }

  method EncodeHeader(h: Header) returns (bytes: seq<Byte>)
    requires |h.key| < 0x1000_0000 && |h.value| < 0x1000_0000
    ensures bytes == HeaderBytes(h)
  {
    CStringShort(h.key);
    CStringShort(h.value);
    var b := new Buffer();
    b.WriteBytesField(1, CString(h.key));
    b.WriteBytesField(2, CString(h.value));
    return b.data[..b.len];
  }

  lemma {:induction false} CStringShort(s: seq<Byte>)
    ensures |CString(s)| <= |s|
  {
    if s != [] { CStringShort(s[1..]); }
  }

  method EncodeHeaders(b: Buffer, hs: seq<Header>)
    requires b.Valid() && forall h :: h in hs ==> Text(h.key, MAX_KEY) && Text(h.value, MAX_VALUE)
    modifies b, b.data
    ensures b.Valid() && b.Contents() == old(b.Contents()) + HeadersBytes(hs) && (b.data == old(b.data) || fresh(b.data))
  {
    ghost var all := old(b.Contents()) + HeadersBytes(hs);
    assert hs[0..] == hs;
    for i := 0 to |hs|
      invariant b.Valid() && (b.data == old(b.data) || fresh(b.data))
      invariant b.Contents() + HeadersBytes(hs[i..]) == all
    {
      ghost var before := b.Contents();
      assert hs[i..][1..] == hs[i + 1..];
      HeaderRoundTrip(hs[i]);
      var h := EncodeHeader(hs[i]);
      b.WriteBytesField(5, h);
      Assoc(before, BytesField(5, h), HeadersBytes(hs[i + 1..]));
    }
  }

  method EncodeNumbers(b: Buffer, a: nat, c: nat, d: nat, e: nat)
    requires b.Valid() && b.Contents() == [] && a < TWO64 && c < TWO64 && d < TWO64 && e < TWO64
    modifies b, b.data
    ensures b.Valid() && (b.data == old(b.data) || fresh(b.data))
    ensures b.Contents() == NumberField(1, a) + NumberField(2, c) + NumberField(3, d) + NumberField(4, e)
  {
    b.WriteNumber(1, a);
    assert b.Contents() == NumberField(1, a);
    b.WriteNumber(2, c);
    b.WriteNumber(3, d);
    b.WriteNumber(4, e);
  }

  /** Encodes a frame, header by header. */
  method EncodeFrame(f: Frame) returns (out: seq<Byte>)
    requires ValidFrame(f)
    ensures out == Encode(f)
  {
    var b := new Buffer();
    EncodeNumbers(b, f.seqId, f.logId, Widen(f.service), Widen(f.method_));
    ghost var numbers := b.Contents();
    EncodeHeaders(b, f.headers);
    ghost var head := numbers + HeadersBytes(f.headers);
    assert b.Contents() == head;
    if f.payload == [] {
      assert head + [] == head;
    } else {
      b.WriteBytesField(8, f.payload);
    }
    return b.data[..b.len];
  }
}
