/** The encoded bytes, said without the encoder, and what the parser does with fields that are not as written. */
module ProtobufFormat {
  import opened Basics
  import opened Protobuf

  // ---------------------------------------------------------------------------------------------
  // Varints

  /** Digit `k` of `v` to the base 128, least significant first. */
  function Digit(v: nat, k: nat): nat { if k == 0 then v % 128 else Digit(v / 128, k - 1) }

  /** Seven bits to a byte, least significant first; all bytes but the last have the top bit. */
  lemma {:induction false} VarintIs(v: nat, k: nat)
    requires k < |Varint(v)|
    ensures Varint(v)[k] == Digit(v, k) + if k < |Varint(v)| - 1 then 128 else 0
    decreases k
  {
    if v >= 128 {
      var rest := Varint(v / 128);
      assert Varint(v) == [128 + v % 128] + rest;
      if k > 0 { VarintIs(v / 128, k - 1); }
    }
  }

  /** No leading zeros: the last byte is 0 only for the number 0. */
  lemma {:induction false} VarintIsShortest(v: nat)
    ensures Varint(v)[|Varint(v)| - 1] == 0 ==> v == 0
    decreases v
  {
    if v >= 128 { VarintIsShortest(v / 128); }
  }

  // ---------------------------------------------------------------------------------------------
  // Fields

  lemma {:induction false} SmallVarint(v: nat)
    requires v < 128
    ensures Varint(v) == [v]
  {
  }

  /** A field: number and kind in one byte, then the number, or the length and the bytes. */
  lemma {:induction false} FieldIs(field: nat, v: nat, data: seq<Byte>)
    requires 1 <= field < 16
    ensures NumberField(field, v) == [8 * field] + Varint(v)
    ensures BytesField(field, data) == [8 * field + 2] + Varint(|data|) + data
  {
    hide Varint;
    SmallVarint(8 * field);
    SmallVarint(8 * field + 2);
  }

  /** A header with key "a" and value "b". */
  lemma {:induction false} HeaderBytesAre()
    ensures HeaderBytes(Header([0x61], [0x62])) == [0x0a, 0x01, 0x61, 0x12, 0x01, 0x62]
  {
    hide Varint;
    CStringText([0x61], 63);
    CStringText([0x62], 63);
    FieldIs(1, 0, [0x61]);
    FieldIs(2, 0, [0x62]);
    SmallVarint(1);
  }

  lemma {:induction false} MinusOne()
    ensures Varint(Widen(-1)) == [255, 255, 255, 255, 255, 255, 255, 255, 255, 1]
  {
    var a := TWO64 - 1;
    var b := a / 128 / 128 / 128;
    var c := b / 128 / 128 / 128;
    assert c == 0x3F_FFFF;
    assert Varint(c) == [255, 255, 255, 1] by {
      assert c % 128 == 127 && c / 128 == 0x7FFF && 0x7FFF % 128 == 127 && 0x7FFF / 128 == 255;
      assert Varint(255) == [255] + Varint(1) && Varint(1) == [1];
      assert Varint(0x7FFF) == [255] + Varint(255);
    }
    assert b == 0x7FF_FFFF_FFFF;
    assert Varint(b) == [255, 255, 255] + Varint(c) by {
      assert Varint(b) == [255] + Varint(b / 128) && Varint(b / 128) == [255] + Varint(b / 128 / 128);
      assert Varint(b / 128 / 128) == [255] + Varint(c);
    }
    assert Varint(a) == [255, 255, 255] + Varint(b) by {
      assert Varint(a) == [255] + Varint(a / 128) && Varint(a / 128) == [255] + Varint(a / 128 / 128);
      assert Varint(a / 128 / 128) == [255] + Varint(b);
    }
  }

  /** The fields in order; the header as above, a one-byte payload. */
  lemma {:induction false} HeaderAndPayloadAre()
    ensures HeadersBytes([Header([0x61], [0x62])]) == [0x2a, 0x06, 0x0a, 0x01, 0x61, 0x12, 0x01, 0x62]
    ensures BytesField(8, [0x07]) == [0x42, 0x01, 0x07]
  {
    var h := Header([0x61], [0x62]);
    hide Varint, HeaderBytes, BytesField;
    SmallVarint(1);
    SmallVarint(6);
    HeaderBytesAre();
    FieldIs(5, 0, HeaderBytes(h));
    FieldIs(8, 0, [0x07]);
    assert [h][1..] == [] && HeadersBytes([]) == [];
  }

  lemma {:induction false} NumbersAre()
    ensures NumberField(1, 1) == [0x08, 0x01] && NumberField(2, 300) == [0x10, 0xac, 0x02]
    ensures NumberField(3, Widen(-1)) == [0x18, 255, 255, 255, 255, 255, 255, 255, 255, 255, 1]
    ensures NumberField(4, Widen(0)) == [0x20, 0x00]
  {
    assert Varint(300) == [0xac] + Varint(2);
    hide Varint, NumberField;
    SmallVarint(0);
    SmallVarint(1);
    SmallVarint(2);
    FieldIs(1, 1, []);
    FieldIs(2, 300, []);
    MinusOne();
    FieldIs(3, Widen(-1), []);
    FieldIs(4, 0, []);
  }

  /** A frame with sequence id 1, log id 300, service -1, method 0, one header and a one-byte payload. */
  lemma {:induction false} FrameBytesAre()
    ensures Encode(Frame(1, 300, -1, 0, [Header([0x61], [0x62])], [0x07])) ==
            [0x08, 0x01] + [0x10, 0xac, 0x02] + [0x18, 255, 255, 255, 255, 255, 255, 255, 255, 255, 1] + [0x20, 0x00]
            + [0x2a, 0x06, 0x0a, 0x01, 0x61, 0x12, 0x01, 0x62] + [0x42, 0x01, 0x07]
  {
    hide Varint, HeadersBytes, NumberField, BytesField;
    NumbersAre();
    HeaderAndPayloadAre();
  }

  // ---------------------------------------------------------------------------------------------
  // Reading what was not written by the encoder

  lemma {:induction false} NoHeader(h: Header)
    ensures ParseHeader([], h) == h
  {
  }

  /** Longer keys and values are cut to 63 and 255 bytes. */
  lemma {:induction false} LongHeadersAreCut(key: seq<Byte>, value: seq<Byte>)
    requires |key| < TWO64 && |value| < TWO64
    ensures ParseHeader(BytesField(1, key) + BytesField(2, value), Header([], [])) ==
            Header(if |key| <= 63 then key else key[..63], if |value| <= 255 then value else value[..255])
  {
    hide BytesField, ReadToken, ParseHeader;
    var a, b := BytesField(1, key), BytesField(2, value);
    BytesRead(1, key, b);
    HeaderTokenRead(a, b, Token(1, BytesBody(key)), Header([], []));
    var h := Header(Cut(key, MAX_KEY), []);
    BytesRead(2, value, []);
    assert b + [] == b;
    HeaderTokenRead(b, [], Token(2, BytesBody(value)), h);
    NoHeader(HeaderEffect(h, Token(2, BytesBody(value))));
  }

  /** A known field of the wrong kind makes the whole frame invalid. */
  lemma {:induction false} WrongKindRefused(field: nat, data: seq<Byte>, v: nat, rest: seq<Byte>)
    requires |data| < TWO64 && v < TWO64
    ensures 1 <= field <= 4 ==> Parse(BytesField(field, data) + rest) == None
    ensures field == 5 || field == 8 ==> Parse(NumberField(field, v) + rest) == None
  {
    hide ReadToken, BytesField, NumberField;
    if 1 <= field <= 4 { BytesRead(field, data, rest); }
    if field == 5 || field == 8 { NumberRead(field, v, rest); }
  }

  /** So does a field that is cut off before its end. */
  lemma {:induction false} CutOffRefused(field: nat, data: seq<Byte>, k: nat)
    requires 1 <= field < 16 && |data| < TWO64 && k < |data|
    ensures Parse([8 * field + 2] + Varint(|data|) + data[..k]) == None
  {
    var body := Varint(|data|) + data[..k];
    var s := [8 * field + 2] + Varint(|data|) + data[..k];
    assert s == [8 * field + 2] + body;
    SmallVarint(8 * field + 2);
    hide Varint, ReadVarint;
    VarintRoundTrip(8 * field + 2, body);
    VarintRoundTrip(|data|, data[..k]);
    assert s[1..] == body;
    assert ReadBody(body, 2) == None;
    assert ReadToken(s) == None;
  }
}
