/**
  The Feishu gateway's Protocol Buffers frame codec ("Base 128 Varints" and "Message Structure" in the
  Protocol Buffers Encoding guide): what a frame's bytes mean, field by field.
  */
module Protobuf {
  import opened Basics

  const TWO32 := 0x1_0000_0000
  const TWO64 := 0x1_0000_0000_0000_0000

  // ---------------------------------------------------------------------------------------------
  // Varints

  function Varint(v: nat): (r: seq<Byte>)
    ensures r != []
  {
    if v < 128 then [v] else [128 + v % 128] + Varint(v / 128)
  }

  /** The number at the start of `s` and the bytes it takes, `limit` bytes at most; of the last one
      only the lowest bit fits into 64 bits. */
  function RawVarint(s: seq<Byte>, limit: nat): (r: Option<(nat, nat)>)
    ensures r.Some? ==> 0 < r.value.1 <= |s|
    decreases limit
  {
    if s == [] || limit == 0 then None
    else if s[0] < 128 then
      Some((if limit == 1 then s[0] % 2 else s[0], 1))
    else if limit == 1 then None
    else
      var rest :- RawVarint(s[1..], limit - 1);
      Some((s[0] - 128 + 128 * rest.0, rest.1 + 1))
  }

  /** 2 to the power 7 * limit - 6. */
  function Bound(limit: nat): (b: nat)
    ensures b >= 2
  {
    if limit <= 1 then 2 else 128 * Bound(limit - 1)
  }

  /** No varint takes more bytes than this. */
  function VarintLimit(): nat { 10 }

  lemma {:induction false} BoundIs64Bits()
    ensures Bound(VarintLimit()) == TWO64
  {
    assert Bound(5) == 0x2000_0000;
    assert Bound(10) == 128 * Bound(9) && Bound(9) == 128 * Bound(8) && Bound(8) == 128 * Bound(7) && Bound(7) == 128 * Bound(6);
  }

  function ReadVarint(s: seq<Byte>): (r: Option<(nat, nat)>)
    ensures r.Some? ==> 0 < r.value.1 <= |s|
  {
    RawVarint(s, VarintLimit())
  }

  lemma {:induction false} RawVarintRoundTrip(v: nat, rest: seq<Byte>, limit: nat)
    requires limit > 0 && v < Bound(limit)
    ensures RawVarint(Varint(v) + rest, limit) == Some((v, |Varint(v)|))
    decreases limit
  {
    var s := Varint(v) + rest;
    if v >= 128 {
      RawVarintRoundTrip(v / 128, rest, limit - 1);
      assert s[1..] == Varint(v / 128) + rest;
    }
  }

  /** Every 64-bit number survives, whatever follows it. */
  lemma {:induction false} VarintRoundTrip(v: nat, rest: seq<Byte>)
    requires v < TWO64
    ensures ReadVarint(Varint(v) + rest) == Some((v, |Varint(v)|))
  {
    BoundIs64Bits();
    RawVarintRoundTrip(v, rest, VarintLimit());
  }

  // ---------------------------------------------------------------------------------------------
  // Frames and fields

  const MAX_HEADERS := 32
  const MAX_KEY := 63
  const MAX_VALUE := 255

  datatype Header = Header(key: seq<Byte>, value: seq<Byte>)

  datatype Frame = Frame(seqId: nat, logId: nat, service: int, method_: int, headers: seq<Header>, payload: seq<Byte>)

  const EMPTY_FRAME := Frame(0, 0, 0, 0, [], [])

  /** Two's complement: an int32 widened to 64 bits, and 64 bits cut to an int32. */
  function Widen(n: int): nat
    requires -0x8000_0000 <= n < 0x8000_0000
  {
    if n < 0 then TWO64 + n else n
  }

  function Narrow(v: nat): (n: int)
    ensures -0x8000_0000 <= n < 0x8000_0000
  {
    var low := v % TWO32;
    if low < 0x8000_0000 then low else low - TWO32
  }

  lemma {:induction false} NarrowWiden(n: int)
    requires -0x8000_0000 <= n < 0x8000_0000
    ensures Narrow(Widen(n)) == n
  {
  }

  /** Bytes that stay a C string: no NUL, and no longer than the array has room for. */
  predicate Text(s: seq<Byte>, max: nat) { |s| <= max && forall i :: 0 <= i < |s| ==> s[i] != 0 }

  predicate ValidFrame(f: Frame) {
    && f.seqId < TWO64 && f.logId < TWO64
    && -0x8000_0000 <= f.service < 0x8000_0000 && -0x8000_0000 <= f.method_ < 0x8000_0000
    && |f.headers| <= MAX_HEADERS && |f.payload| < TWO64
    && forall h :: h in f.headers ==> Text(h.key, MAX_KEY) && Text(h.value, MAX_VALUE)
  }

  function Key(field: nat, wire: nat): seq<Byte>
    requires wire < 8
  {
    Varint(8 * field + wire)
  }

  function NumberField(field: nat, v: nat): seq<Byte> { Key(field, 0) + Varint(v) }

  function BytesField(field: nat, data: seq<Byte>): seq<Byte> { Key(field, 2) + Varint(|data|) + data }

  /** strlen: a C string ends at its first NUL. */
  function CString(s: seq<Byte>): seq<Byte> { if s == [] || s[0] == 0 then [] else [s[0]] + CString(s[1..]) }

  function HeaderBytes(h: Header): seq<Byte> { BytesField(1, CString(h.key)) + BytesField(2, CString(h.value)) }

  function HeadersBytes(hs: seq<Header>): seq<Byte> {
    if hs == [] then [] else BytesField(5, HeaderBytes(hs[0])) + HeadersBytes(hs[1..])
  }

  /** The encoded frame; an empty payload is left out. */
  function Encode(f: Frame): seq<Byte>
    requires -0x8000_0000 <= f.service < 0x8000_0000 && -0x8000_0000 <= f.method_ < 0x8000_0000
  {
    NumberField(1, f.seqId) + NumberField(2, f.logId) + NumberField(3, Widen(f.service)) + NumberField(4, Widen(f.method_))
    + HeadersBytes(f.headers) + (if f.payload == [] then [] else BytesField(8, f.payload))
  }

  // ---------------------------------------------------------------------------------------------
  // Parsing

  /** What follows a tag, by wire type: a number, length-delimited bytes, or 8 or 4 fixed bytes. */
  datatype Body = NumberBody(v: nat) | BytesBody(data: seq<Byte>) | FixedBody

  function ReadBody(s: seq<Byte>, wire: nat): (r: Option<(Body, nat)>)
    ensures r.Some? ==> r.value.1 <= |s|
  {
    if wire == 0 then (var v :- ReadVarint(s); Some((NumberBody(v.0), v.1)))
    else if wire == 1 then (if 8 > |s| then None else Some((FixedBody, 8)))
    else if wire == 2 then
      var v :- ReadVarint(s);
      if v.1 + v.0 > |s| then None else Some((BytesBody(s[v.1..v.1 + v.0]), v.1 + v.0))
    else if wire == 5 then (if 4 > |s| then None else Some((FixedBody, 4)))
    else None
  }

  /** A tag's field number, kept to 32 bits. */
  function FieldOf(tag: nat): nat { tag / 8 % TWO32 }

  /** A field with its tag. */
  datatype Token = Token(field: nat, body: Body)

  function ReadToken(s: seq<Byte>): (r: Option<(Token, nat)>)
    ensures r.Some? ==> 0 < r.value.1 <= |s|
  {
    var t :- ReadVarint(s);
    var b :- ReadBody(s[t.1..], t.0 % 8);
    Some((Token(FieldOf(t.0), b.0), t.1 + b.1))
  }

  function Cut(s: seq<Byte>, max: nat): seq<Byte> { if |s| > max then s[..max] else s }

  function HeaderEffect(h: Header, t: Token): Header {
    if t.body.BytesBody? && t.field == 1 then h.(key := Cut(t.body.data, MAX_KEY))
    else if t.body.BytesBody? && t.field == 2 then h.(value := Cut(t.body.data, MAX_VALUE))
    else h
  }

  /** Parses a header submessage; on a malformed rest, what was parsed so far stands. */
  function ParseHeader(s: seq<Byte>, h: Header): Header
    decreases |s|
  {
    if s == [] then h
    else
      match ReadToken(s)
      case None => h
      case Some((t, n)) => ParseHeader(s[n..], HeaderEffect(h, t))
  }

  function SetNumber(f: Frame, field: nat, v: nat): Frame {
    if field == 1 then f.(seqId := v)
    else if field == 2 then f.(logId := v)
    else if field == 3 then f.(service := Narrow(v))
    else f.(method_ := Narrow(v))
  }

  function AddHeader(f: Frame, data: seq<Byte>): Frame {
    if |f.headers| < MAX_HEADERS then f.(headers := f.headers + [ParseHeader(data, Header([], []))]) else f
  }

  /** Known fields must have their wire type; unknown fields have no effect. */
  function Effect(f: Frame, t: Token): Option<Frame> {
    if 1 <= t.field <= 4 then
      if t.body.NumberBody? then Some(SetNumber(f, t.field, t.body.v)) else None
    else if t.field == 5 then
      if t.body.BytesBody? then Some(AddHeader(f, t.body.data)) else None
    else if t.field == 8 then
      if t.body.BytesBody? then Some(f.(payload := t.body.data)) else None
    else Some(f)
  }

  function ParseFields(s: seq<Byte>, f: Frame): Option<Frame>
    decreases |s|
  {
    if s == [] then Some(f)
    else
      var t :- ReadToken(s);
      var f' :- Effect(f, t.0);
      ParseFields(s[t.1..], f')
  }

  function Parse(s: seq<Byte>): Option<Frame> { ParseFields(s, EMPTY_FRAME) }

  // ---------------------------------------------------------------------------------------------
  // Well-formed fields and what they do to a frame

  datatype Field =
    | Number(field: nat, num: nat)
    | HeaderField(header: Header)
    | PayloadField(data: seq<Byte>)
    | UnknownVarint(field: nat, num: nat)
    | UnknownBytes(field: nat, data: seq<Byte>)
    | UnknownFixed(field: nat, data: seq<Byte>)

  predicate KnownNumber(field: nat) { 1 <= field <= 5 || field == 8 }

  predicate ValidField(x: Field) {
    match x
    case Number(n, v) => 1 <= n <= 4 && v < TWO64
    case HeaderField(h) => Text(h.key, MAX_KEY) && Text(h.value, MAX_VALUE)
    case PayloadField(data) => |data| < TWO64
    case UnknownVarint(n, v) => !KnownNumber(n) && n < TWO32 && v < TWO64
    case UnknownBytes(n, data) => !KnownNumber(n) && n < TWO32 && |data| < TWO64
    case UnknownFixed(n, data) => !KnownNumber(n) && n < TWO32 && (|data| == 4 || |data| == 8)
  }

  function FieldBytes(x: Field): seq<Byte> {
    match x
    case Number(n, v) => NumberField(n, v)
    case HeaderField(h) => BytesField(5, HeaderBytes(h))
    case PayloadField(data) => BytesField(8, data)
    case UnknownVarint(n, v) => NumberField(n, v)
    case UnknownBytes(n, data) => BytesField(n, data)
    case UnknownFixed(n, data) => Key(n, if |data| == 8 then 1 else 5) + data
  }

  function Apply(f: Frame, x: Field): Frame {
    match x
    case Number(n, v) => SetNumber(f, n, v)
    case HeaderField(h) => if |f.headers| < MAX_HEADERS then f.(headers := f.headers + [h]) else f
    case PayloadField(data) => f.(payload := data)
    case UnknownVarint(_, _) => f
    case UnknownBytes(_, _) => f
    case UnknownFixed(_, _) => f
  }

  function ApplyAll(f: Frame, xs: seq<Field>): Frame
    decreases |xs|
  {
    if xs == [] then f else ApplyAll(Apply(f, xs[0]), xs[1..])
  }

  function Flat(parts: seq<seq<Byte>>): seq<Byte> {
    if parts == [] then [] else parts[0] + Flat(parts[1..])
  }

  function Each(xs: seq<Field>): (r: seq<seq<Byte>>)
    ensures |r| == |xs| && forall i :: 0 <= i < |xs| ==> r[i] == FieldBytes(xs[i])
  {
    seq(|xs|, i requires 0 <= i < |xs| => FieldBytes(xs[i]))
  }

  function FieldsBytes(xs: seq<Field>): seq<Byte> { Flat(Each(xs)) }

  lemma {:induction false} KeyRead(field: nat, wire: nat, rest: seq<Byte>)
    requires field < TWO32 && wire < 8
    ensures ReadVarint(Key(field, wire) + rest) == Some((8 * field + wire, |Key(field, wire)|))
    ensures FieldOf(8 * field + wire) == field && (8 * field + wire) % 8 == wire
  {
    hide ReadVarint, Varint;
    VarintRoundTrip(8 * field + wire, rest);
  }

  lemma {:induction false} TokenIs(k: seq<Byte>, body: seq<Byte>, tag: nat, b: Body, n: nat)
    requires ReadVarint(k + body) == Some((tag, |k|)) && ReadBody(body, tag % 8) == Some((b, n))
    ensures ReadToken(k + body) == Some((Token(FieldOf(tag), b), |k| + n))
  {
    hide ReadVarint, ReadBody, FieldOf;
    assert (k + body)[|k|..] == body;
  }

  lemma {:induction false} TokenRead(field: nat, wire: nat, body: seq<Byte>, b: Body, n: nat)
    requires field < TWO32 && wire < 8 && ReadBody(body, wire) == Some((b, n))
    ensures ReadToken(Key(field, wire) + body) == Some((Token(field, b), |Key(field, wire)| + n))
  {
    hide ReadVarint, ReadBody, ReadToken, Varint;
    KeyRead(field, wire, body);
    TokenIs(Key(field, wire), body, 8 * field + wire, b, n);
  }

  lemma {:induction false} NumberRead(n: nat, v: nat, rest: seq<Byte>)
    requires n < TWO32 && v < TWO64
    ensures ReadToken(NumberField(n, v) + rest) == Some((Token(n, NumberBody(v)), |NumberField(n, v)|))
  {
    hide ReadVarint, ReadToken, Varint, Key;
    assert NumberField(n, v) + rest == Key(n, 0) + (Varint(v) + rest);
    VarintRoundTrip(v, rest);
    TokenRead(n, 0, Varint(v) + rest, NumberBody(v), |Varint(v)|);
  }

  lemma {:induction false} BytesRead(n: nat, data: seq<Byte>, rest: seq<Byte>)
    requires n < TWO32 && |data| < TWO64
    ensures ReadToken(BytesField(n, data) + rest) == Some((Token(n, BytesBody(data)), |BytesField(n, data)|))
  {
    hide ReadVarint, ReadToken, Varint, Key;
    var len := Varint(|data|);
    var body := len + (data + rest);
    assert BytesField(n, data) + rest == Key(n, 2) + body;
    VarintRoundTrip(|data|, data + rest);
    assert body[|len|..|len| + |data|] == data;
    TokenRead(n, 2, body, BytesBody(data), |len| + |data|);
  }

  lemma {:induction false} FixedRead(n: nat, data: seq<Byte>, rest: seq<Byte>)
    requires n < TWO32 && (|data| == 4 || |data| == 8)
    ensures var k := Key(n, if |data| == 8 then 1 else 5);
            ReadToken(k + data + rest) == Some((Token(n, FixedBody), |k + data|))
  {
    var wire := if |data| == 8 then 1 else 5;
    assert Key(n, wire) + data + rest == Key(n, wire) + (data + rest);
    TokenRead(n, wire, data + rest, FixedBody, |data|);
  }

  lemma {:induction false} CStringText(s: seq<Byte>, max: nat)
    requires Text(s, max)
    ensures CString(s) == s
  {
    if s != [] { CStringText(s[1..], max); }
  }

  lemma {:induction false} HeaderTokenRead(w: seq<Byte>, rest: seq<Byte>, t: Token, h: Header)
    requires w != [] && ReadToken(w + rest) == Some((t, |w|))
    ensures ParseHeader(w + rest, h) == ParseHeader(rest, HeaderEffect(h, t))
  {
    assert (w + rest)[|w|..] == rest;
  }

  /** A written header submessage is read back. */
  lemma {:induction false} HeaderRoundTrip(h: Header)
    requires Text(h.key, MAX_KEY) && Text(h.value, MAX_VALUE)
    ensures ParseHeader(HeaderBytes(h), Header([], [])) == h && |HeaderBytes(h)| < TWO64
  {
    CStringText(h.key, MAX_KEY);
    CStringText(h.value, MAX_VALUE);
    var first, second := BytesField(1, h.key), BytesField(2, h.value);
    BytesRead(1, h.key, second);
    HeaderTokenRead(first, second, Token(1, BytesBody(h.key)), Header([], []));
    assert second + [] == second;
    BytesRead(2, h.value, []);
    HeaderTokenRead(second, [], Token(2, BytesBody(h.value)), Header(h.key, []));
    ShortVarint(|h.key|);
    ShortVarint(|h.value|);
    assert |Key(1, 2)| == 1 && |Key(2, 2)| == 1;
  }

  lemma {:induction false} ShortVarint(v: nat)
    requires v < 16384
    ensures |Varint(v)| <= 2
  {
  }

  lemma {:induction false} TokenParsed(w: seq<Byte>, rest: seq<Byte>, t: Token, f: Frame, f': Frame)
    requires w != [] && ReadToken(w + rest) == Some((t, |w|)) && Effect(f, t) == Some(f')
    ensures ParseFields(w + rest, f) == ParseFields(rest, f')
  {
    assert (w + rest)[|w|..] == rest;
  }

  /** The token of a well-formed field. */
  function TokenOf(x: Field): Token {
    match x
    case Number(n, v) => Token(n, NumberBody(v))
    case HeaderField(h) => Token(5, BytesBody(HeaderBytes(h)))
    case PayloadField(data) => Token(8, BytesBody(data))
    case UnknownVarint(n, v) => Token(n, NumberBody(v))
    case UnknownBytes(n, data) => Token(n, BytesBody(data))
    case UnknownFixed(n, _) => Token(n, FixedBody)
  }

  lemma {:induction false} FieldRead(x: Field, rest: seq<Byte>)
    requires ValidField(x)
    ensures FieldBytes(x) != [] && ReadToken(FieldBytes(x) + rest) == Some((TokenOf(x), |FieldBytes(x)|))
  {
    match x
    case Number(n, v) => NumberRead(n, v, rest);
    case HeaderField(h) => HeaderRoundTrip(h); BytesRead(5, HeaderBytes(h), rest);
    case PayloadField(data) => BytesRead(8, data, rest);
    case UnknownVarint(n, v) => NumberRead(n, v, rest);
    case UnknownBytes(n, data) => BytesRead(n, data, rest);
    case UnknownFixed(n, data) => FixedRead(n, data, rest);
  }

  lemma {:induction false} FieldEffect(x: Field, f: Frame)
    requires ValidField(x)
    ensures Effect(f, TokenOf(x)) == Some(Apply(f, x))
  {
    if x.HeaderField? { HeaderRoundTrip(x.header); }
  }

  /** A well-formed field is taken whole and has its effect. */
  lemma {:induction false} ParseFieldRead(x: Field, rest: seq<Byte>, f: Frame)
    requires ValidField(x)
    ensures ParseFields(FieldBytes(x) + rest, f) == ParseFields(rest, Apply(f, x))
  {
    FieldRead(x, rest);
    FieldEffect(x, f);
    TokenParsed(FieldBytes(x), rest, TokenOf(x), f, Apply(f, x));
  }

  /** Parsing any sequence of well-formed fields applies them in order. */
  lemma {:induction false} ParseFieldsRead(xs: seq<Field>, f: Frame)
    requires forall x :: x in xs ==> ValidField(x)
    ensures ParseFields(FieldsBytes(xs), f) == Some(ApplyAll(f, xs))
    decreases |xs|
  {
    if xs != [] {
      assert Each(xs)[1..] == Each(xs[1..]);
      ParseFieldRead(xs[0], FieldsBytes(xs[1..]), f);
      ParseFieldsRead(xs[1..], Apply(f, xs[0]));
    }
  }

  // ---------------------------------------------------------------------------------------------
  // Frame round trip

  function HeaderFields(hs: seq<Header>): (r: seq<Field>)
    ensures |r| == |hs| && forall i :: 0 <= i < |r| ==> r[i] == HeaderField(hs[i])
  {
    seq(|hs|, i requires 0 <= i < |hs| => HeaderField(hs[i]))
  }

  /** The fields of a frame in the order the encoder writes them. */
  function FieldsOf(f: Frame): seq<Field>
    requires ValidFrame(f)
  {
    [Number(1, f.seqId), Number(2, f.logId), Number(3, Widen(f.service)), Number(4, Widen(f.method_))]
    + HeaderFields(f.headers) + (if f.payload == [] then [] else [PayloadField(f.payload)])
  }

  lemma {:induction false} Assoc(a: seq<Byte>, b: seq<Byte>, c: seq<Byte>)
    ensures a + (b + c) == a + b + c
  {
  }

  lemma {:induction false} FlatConcat(a: seq<seq<Byte>>, b: seq<seq<Byte>>)
    ensures Flat(a + b) == Flat(a) + Flat(b)
  {
    if a == [] {
      assert a + b == b;
    } else {
      FlatConcat(a[1..], b);
      assert (a + b)[1..] == a[1..] + b;
      Assoc(a[0], Flat(a[1..]), Flat(b));
    }
  }

  lemma {:induction false} FieldsBytesConcat(a: seq<Field>, b: seq<Field>)
    ensures FieldsBytes(a + b) == FieldsBytes(a) + FieldsBytes(b)
  {
    assert Each(a + b) == Each(a) + Each(b);
    FlatConcat(Each(a), Each(b));
  }

  lemma {:induction false} HeadersBytesAre(hs: seq<Header>)
    ensures HeadersBytes(hs) == FieldsBytes(HeaderFields(hs))
  {
    if hs != [] {
      HeadersBytesAre(hs[1..]);
      assert Each(HeaderFields(hs))[1..] == Each(HeaderFields(hs[1..]));
    }
  }

  lemma {:induction false} OneField(x: Field)
    ensures FieldsBytes([x]) == FieldBytes(x)
  {
    assert Each([x]) == [FieldBytes(x)];
    FlatOne(FieldBytes(x));
  }

  lemma {:induction false} FlatOne(w: seq<Byte>)
    ensures Flat([w]) == w
  {
  }

  lemma {:induction false} NumbersBytes(f: Frame)
    requires ValidFrame(f)
    ensures FieldsBytes([Number(1, f.seqId), Number(2, f.logId), Number(3, Widen(f.service)), Number(4, Widen(f.method_))])
            == NumberField(1, f.seqId) + NumberField(2, f.logId) + NumberField(3, Widen(f.service)) + NumberField(4, Widen(f.method_))
  {
    var a, b, c, d := Number(1, f.seqId), Number(2, f.logId), Number(3, Widen(f.service)), Number(4, Widen(f.method_));
    assert [a, b, c, d] == [a] + [b] + [c] + [d];
    FieldsBytesConcat([a] + [b] + [c], [d]);
    FieldsBytesConcat([a] + [b], [c]);
    FieldsBytesConcat([a], [b]);
    OneField(a);
    OneField(b);
    OneField(c);
    OneField(d);
  }

  lemma {:induction false} EncodeIsFields(f: Frame)
    requires ValidFrame(f)
    ensures Encode(f) == FieldsBytes(FieldsOf(f))
  {
    var nums := [Number(1, f.seqId), Number(2, f.logId), Number(3, Widen(f.service)), Number(4, Widen(f.method_))];
    var hs, ps := HeaderFields(f.headers), if f.payload == [] then [] else [PayloadField(f.payload)];
    FieldsBytesConcat(nums + hs, ps);
    FieldsBytesConcat(nums, hs);
    HeadersBytesAre(f.headers);
    NumbersBytes(f);
    if f.payload != [] { OneField(PayloadField(f.payload)); }
  }

  lemma {:induction false} ApplyAllConcat(f: Frame, a: seq<Field>, b: seq<Field>)
    ensures ApplyAll(f, a + b) == ApplyAll(ApplyAll(f, a), b)
    decreases |a|
  {
    if a == [] {
      assert a + b == b;
    } else {
      ApplyAllConcat(Apply(f, a[0]), a[1..], b);
      assert (a + b)[1..] == a[1..] + b;
    }
  }

  lemma {:induction false} ApplyHeaders(f: Frame, hs: seq<Header>)
    requires |f.headers| + |hs| <= MAX_HEADERS
    ensures ApplyAll(f, HeaderFields(hs)) == f.(headers := f.headers + hs)
    decreases |hs|
  {
    if hs == [] {
      assert f.headers + hs == f.headers;
    } else {
      var f' := f.(headers := f.headers + [hs[0]]);
      assert HeaderFields(hs)[1..] == HeaderFields(hs[1..]);
      ApplyHeaders(f', hs[1..]);
      assert f'.headers + hs[1..] == f.headers + hs;
    }
  }

  lemma {:induction false} FourNumbers(f: Frame)
    requires ValidFrame(f)
    ensures ApplyAll(EMPTY_FRAME, [Number(1, f.seqId), Number(2, f.logId), Number(3, Widen(f.service)), Number(4, Widen(f.method_))])
            == Frame(f.seqId, f.logId, f.service, f.method_, [], [])
  {
    NarrowWiden(f.service);
    NarrowWiden(f.method_);
    var a, b, c, d := Number(1, f.seqId), Number(2, f.logId), Number(3, Widen(f.service)), Number(4, Widen(f.method_));
    var f1, f2 := Apply(EMPTY_FRAME, a), Apply(Apply(EMPTY_FRAME, a), b);
    var f3 := Apply(f2, c);
    assert [a, b, c, d][1..] == [b, c, d] && [b, c, d][1..] == [c, d] && [c, d][1..] == [d] && [d][1..] == [];
    assert ApplyAll(EMPTY_FRAME, [a, b, c, d]) == ApplyAll(f1, [b, c, d]);
    assert ApplyAll(f1, [b, c, d]) == ApplyAll(f2, [c, d]);
    assert ApplyAll(f2, [c, d]) == ApplyAll(f3, [d]);
    assert ApplyAll(f3, [d]) == Apply(f3, d);
  }

  lemma {:induction false} FieldsValid(f: Frame)
    requires ValidFrame(f)
    ensures forall x :: x in FieldsOf(f) ==> ValidField(x)
  {
  }

  lemma {:induction false} FieldsGiveFrame(f: Frame)
    requires ValidFrame(f)
    ensures ApplyAll(EMPTY_FRAME, FieldsOf(f)) == f
  {
    var nums := [Number(1, f.seqId), Number(2, f.logId), Number(3, Widen(f.service)), Number(4, Widen(f.method_))];
    var hs, ps := HeaderFields(f.headers), if f.payload == [] then [] else [PayloadField(f.payload)];
    ApplyAllConcat(EMPTY_FRAME, nums + hs, ps);
    ApplyAllConcat(EMPTY_FRAME, nums, hs);
    FourNumbers(f);
    ApplyHeaders(Frame(f.seqId, f.logId, f.service, f.method_, [], []), f.headers);
    assert [] + f.headers == f.headers;
    if f.payload != [] {
      assert ps[1..] == [];
      assert ApplyAll(f.(payload := []), ps) == Apply(f.(payload := []), ps[0]);
    }
  }

  /** Parsing an encoded frame returns the frame: any 64-bit ids, negative service and method numbers included. */
  lemma {:induction false} FrameRoundTrip(f: Frame)
    requires ValidFrame(f)
    ensures Parse(Encode(f)) == Some(f)
  {
    EncodeIsFields(f);
    FieldsGiveFrame(f);
    FieldsValid(f);
    ParseFieldsRead(FieldsOf(f), EMPTY_FRAME);
  }

  /** Unknown fields may stand anywhere between the fields of a frame without changing what is parsed. */
  lemma {:induction false} UnknownFieldsIgnored(f: Frame, k: nat, x: Field)
    requires ValidFrame(f) && k <= |FieldsOf(f)| && ValidField(x)
    requires x.UnknownVarint? || x.UnknownBytes? || x.UnknownFixed?
    ensures Parse(FieldsBytes(FieldsOf(f)[..k]) + FieldBytes(x) + FieldsBytes(FieldsOf(f)[k..])) == Some(f)
  {
    var fs := FieldsOf(f);
    var a, b := fs[..k], fs[k..];
    assert fs == a + b;
    FieldsGiveFrame(f);
    FieldsValid(f);
    FieldsBytesConcat(a + [x], b);
    FieldsBytesConcat(a, [x]);
    OneField(x);
    var xs := a + [x] + b;
    forall y | y in xs ensures ValidField(y) {}
    ParseFieldsRead(xs, EMPTY_FRAME);
    ApplyAllConcat(EMPTY_FRAME, a + [x], b);
    ApplyAllConcat(EMPTY_FRAME, a, [x]);
    ApplyAllConcat(EMPTY_FRAME, a, b);
    assert ApplyAll(ApplyAll(EMPTY_FRAME, a), [x]) == ApplyAll(EMPTY_FRAME, a) by { assert [x][1..] == []; }
  }
}
