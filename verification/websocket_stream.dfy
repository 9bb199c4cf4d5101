/** Polling a byte stream of frames that arrives in arbitrary pieces. */
module WebSocketStream {
  import opened Basics
  import opened WebSocket

  const MAX_READ := 1024

  /** A frame on the wire with what the receiver should get from it. */
  datatype Packet = Packet(bytes: seq<Byte>, opcode: Byte, payload: seq<Byte>)

  /** The bytes decode to the content, not before they are complete and whatever follows them. */
  ghost predicate Framed(p: Packet, cap: nat) {
    forall rest: seq<Byte>, k: nat :: k <= |p.bytes| + |rest| ==>
      Decode((p.bytes + rest)[..k], cap) == if k < |p.bytes| then NotReady else Got(p.opcode, p.payload, |p.bytes|)
  }

  /** Every packet is a frame, and leaves room in the buffer for one more read. */
  ghost predicate Fits(ps: seq<Packet>, cap: nat) {
    cap >= MAX_READ && forall p :: p in ps ==> Framed(p, cap) && |p.bytes| + MAX_READ <= cap
  }

  function Stream(ps: seq<Packet>): seq<Byte> {
    if ps == [] then [] else ps[0].bytes + Stream(ps[1..])
  }

  function Contents(ps: seq<Packet>): (r: seq<(Byte, seq<Byte>)>)
    ensures |r| == |ps|
  {
    seq(|ps|, i requires 0 <= i < |ps| => (ps[i].opcode, ps[i].payload))
  }

  /** The receiver: buffered bytes, bytes read so far, and the frames handed to the caller. */
  datatype Receiver = Receiver(buf: seq<Byte>, read: nat, delivered: seq<(Byte, seq<Byte>)>)

  const START := Receiver([], 0, [])

  /** The connection yields up to `n` further bytes of the stream; none when n is 0 or all were read. */
  function Next(stream: seq<Byte>, read: nat, n: nat): Read {
    if n == 0 || read >= |stream| then WouldBlock
    else Data(if read + n <= |stream| then stream[read..read + n] else stream[read..])
  }

  /** One poll; bytes are read only if no complete frame is buffered. */
  function Receive(stream: seq<Byte>, cap: nat, st: Receiver, n: nat): (Poll, Receiver) {
    var input := Next(stream, st.read, n);
    var (r, buf) := PollStep(st.buf, cap, input);
    var read := if Decode(st.buf, cap) == NotReady && input.Data? then st.read + |input.bytes| else st.read;
    var delivered := if r.Delivered? then st.delivered + [(r.opcode, r.payload)] else st.delivered;
    (r, Receiver(buf, read, delivered))
  }

  function Run(stream: seq<Byte>, cap: nat, st: Receiver, sizes: seq<nat>): Receiver
    decreases |sizes|
  {
    if sizes == [] then st else Run(stream, cap, Receive(stream, cap, st, sizes[0]).1, sizes[1..])
  }

  /** The delivered frames are the first ones, and the buffer is what was read behind them. */
  ghost predicate InStep(ps: seq<Packet>, cap: nat, st: Receiver) {
    var d := |st.delivered|;
    d <= |ps| && st.delivered == Contents(ps[..d]) && st.read <= |Stream(ps)|
    && |st.buf| <= cap && Stream(ps[..d]) + st.buf == Stream(ps)[..st.read]
  }

  lemma {:induction false} Advance(done: seq<Byte>, bytes: seq<Byte>, tail: seq<Byte>, read: seq<Byte>)
    requires done + (bytes + tail) == read
    ensures (done + bytes) + tail == read
  {
  }

  lemma {:induction false} StreamConcat(a: seq<Packet>, b: seq<Packet>)
    ensures Stream(a + b) == Stream(a) + Stream(b)
  {
    if a == [] {
      assert a + b == b;
    } else {
      StreamConcat(a[1..], b);
      assert (a + b)[1..] == a[1..] + b;
      Advance(a[0].bytes, Stream(a[1..]), Stream(b), Stream(a + b));
    }
  }

  /** The buffer is a prefix of the wire form of the frames still to come. */
  lemma {:induction false} BufferIsPrefix(ps: seq<Packet>, d: nat, buf: seq<Byte>, read: nat)
    requires d <= |ps| && read <= |Stream(ps)| && Stream(ps[..d]) + buf == Stream(ps)[..read]
    ensures var rest := Stream(ps[d..]);
            read == |Stream(ps)| - |rest| + |buf| && |buf| <= |rest| && buf == rest[..|buf|]
  {
    hide Stream;
    assert ps == ps[..d] + ps[d..];
    StreamConcat(ps[..d], ps[d..]);
    PrefixBehind(Stream(ps[..d]), buf, Stream(ps[d..]), read);
  }

  lemma {:induction false} PrefixBehind(done: seq<Byte>, buf: seq<Byte>, rest: seq<Byte>, read: nat)
    requires read <= |done| + |rest| && done + buf == (done + rest)[..read]
    ensures read == |done| + |buf| && |buf| <= |rest| && buf == rest[..|buf|]
  {
    assert |done + buf| == read;
    forall k | 0 <= k < |buf| ensures buf[k] == rest[k] {
      assert (done + buf)[|done| + k] == buf[k] && (done + rest)[|done| + k] == rest[k];
    }
  }

  /** Decoding a prefix of the remaining stream: the next frame if it is complete, otherwise not ready. */
  lemma {:induction false} DecodeRemaining(ps: seq<Packet>, cap: nat, k: nat)
    requires Fits(ps, cap) && k <= |Stream(ps)|
    ensures Decode(Stream(ps)[..k], cap) ==
            if ps == [] || k < |ps[0].bytes| then NotReady else Got(ps[0].opcode, ps[0].payload, |ps[0].bytes|)
  {
    if ps != [] {
      assert Framed(ps[0], cap);
      assert Decode((ps[0].bytes + Stream(ps[1..]))[..k], cap) == Decode(Stream(ps)[..k], cap);
    }
  }

  lemma {:induction false} DeliverNext(ps: seq<Packet>, cap: nat, delivered: seq<(Byte, seq<Byte>)>, buf: seq<Byte>, read: nat)
    requires InStep(ps, cap, Receiver(buf, read, delivered)) && |delivered| < |ps|
    requires |ps[|delivered|].bytes| <= |buf|
    ensures var p := ps[|delivered|];
            InStep(ps, cap, Receiver(buf[|p.bytes|..], read, delivered + [(p.opcode, p.payload)]))
  {
    var d := |delivered|;
    var p := ps[d];
    BufferIsPrefix(ps, d, buf, read);
    assert ps[..d + 1] == ps[..d] + [p];
    StreamConcat(ps[..d], [p]);
    assert Stream([p]) == p.bytes by { assert [p][1..] == []; }
    assert Stream(ps[d..]) == p.bytes + Stream(ps[d..][1..]);
    assert buf == p.bytes + buf[|p.bytes|..] by { assert buf[..|p.bytes|] == p.bytes; }
    Advance(Stream(ps[..d]), p.bytes, buf[|p.bytes|..], Stream(ps)[..read]);
  }

  /** What one poll may do: hand over the next frame or wait, reading at most `n` bytes. */
  ghost predicate GoodStep(ps: seq<Packet>, cap: nat, st: Receiver, r: Poll, st': Receiver) {
    && InStep(ps, cap, st')
    && ((r == Waiting && st'.delivered == st.delivered)
        || (|st.delivered| < |ps| && r == Delivered(ps[|st.delivered|].opcode, ps[|st.delivered|].payload)
            && |st'.delivered| == |st.delivered| + 1))
    && st.read <= st'.read
  }

  lemma {:induction false} Appended(ps: seq<Packet>, cap: nat, st: Receiver, bytes: seq<Byte>)
    requires InStep(ps, cap, st) && |st.buf| + |bytes| <= cap && st.read + |bytes| <= |Stream(ps)|
    requires bytes == Stream(ps)[st.read..st.read + |bytes|]
    ensures InStep(ps, cap, Receiver(st.buf + bytes, st.read + |bytes|, st.delivered))
  {
    var d, all, read := |st.delivered|, Stream(ps), st.read + |bytes|;
    assert all[..read] == all[..st.read] + bytes;
    Advance(Stream(ps[..d]), st.buf, bytes, Stream(ps[..d]) + (st.buf + bytes));
  }

  function NextDecoded(ps: seq<Packet>, d: nat, buf: seq<Byte>): Decoded
    requires d <= |ps|
  {
    if d == |ps| || |buf| < |ps[d].bytes| then NotReady else Got(ps[d].opcode, ps[d].payload, |ps[d].bytes|)
  }

  lemma {:induction false} DecodeInStep(ps: seq<Packet>, cap: nat, st: Receiver)
    requires Fits(ps, cap) && InStep(ps, cap, st)
    ensures Decode(st.buf, cap) == NextDecoded(ps, |st.delivered|, st.buf)
  {
    BufferIsPrefix(ps, |st.delivered|, st.buf, st.read);
    DecodeRemaining(ps[|st.delivered|..], cap, |st.buf|);
  }

  lemma {:induction false} ReceiveData(ps: seq<Packet>, cap: nat, st: Receiver, n: nat, bytes: seq<Byte>)
    requires InStep(ps, cap, st) && Next(Stream(ps), st.read, n) == Data(bytes) && bytes != []
    requires InStep(ps, cap, Receiver(st.buf + bytes, st.read + |bytes|, st.delivered))
    requires Decode(st.buf, cap) == NotReady
    requires Decode(st.buf + bytes, cap) == NextDecoded(ps, |st.delivered|, st.buf + bytes)
    ensures var (r, st') := Receive(Stream(ps), cap, st, n);
            GoodStep(ps, cap, st, r, st') && st'.read > st.read
  {
    var d, buf := |st.delivered|, st.buf + bytes;
    if d < |ps| && |buf| >= |ps[d].bytes| { DeliverNext(ps, cap, st.delivered, buf, st.read + |bytes|); }
  }

  /** An incomplete frame leaves room for a read, and waits for more unless the stream is over. */
  lemma {:induction false} RoomLeft(ps: seq<Packet>, cap: nat, st: Receiver)
    requires Fits(ps, cap) && InStep(ps, cap, st)
    requires |st.delivered| < |ps| ==> |st.buf| < |ps[|st.delivered|].bytes|
    ensures |st.buf| + MAX_READ <= cap
    ensures st.read == |Stream(ps)| ==> |st.delivered| == |ps|
  {
    var d := |st.delivered|;
    BufferIsPrefix(ps, d, st.buf, st.read);
    if d < |ps| {
      assert ps[d] in ps;
      assert Stream(ps[d..]) == ps[d].bytes + Stream(ps[d..][1..]);
    }
  }

  /**
    Every poll returns the next frame or asks to wait: no overflow, no over-long frame, no other error,
    whatever number of bytes the read returns; and it makes progress while anything is left.
    */
  lemma {:induction false} ReceiveInStep(ps: seq<Packet>, cap: nat, st: Receiver, n: nat)
    requires Fits(ps, cap) && InStep(ps, cap, st) && n <= MAX_READ
    ensures var (r, st') := Receive(Stream(ps), cap, st, n);
      && GoodStep(ps, cap, st, r, st')
      && (n > 0 && (st.read < |Stream(ps)| || |st.delivered| < |ps|) ==>
            st'.read + |st'.delivered| > st.read + |st.delivered|)
  {
    hide Framed;
    var d, all := |st.delivered|, Stream(ps);
    DecodeInStep(ps, cap, st);
    if d < |ps| && |st.buf| >= |ps[d].bytes| {
      DeliverNext(ps, cap, st.delivered, st.buf, st.read);
    } else {
      RoomLeft(ps, cap, st);
      if n > 0 && st.read < |all| {
        var bytes := Next(all, st.read, n).bytes;
        Appended(ps, cap, st, bytes);
        DecodeInStep(ps, cap, Receiver(st.buf + bytes, st.read + |bytes|, st.delivered));
        ReceiveData(ps, cap, st, n, bytes);
      }
    }
  }

  /** The same over any run of polls: frames come out in order and the buffer holds the undelivered rest. */
  lemma {:induction false} RunInStep(ps: seq<Packet>, cap: nat, st: Receiver, sizes: seq<nat>)
    requires Fits(ps, cap) && InStep(ps, cap, st) && forall k :: 0 <= k < |sizes| ==> sizes[k] <= MAX_READ
    ensures InStep(ps, cap, Run(Stream(ps), cap, st, sizes))
    decreases |sizes|
  {
    if sizes != [] {
      ReceiveInStep(ps, cap, st, sizes[0]);
      RunInStep(ps, cap, Receive(Stream(ps), cap, st, sizes[0]).1, sizes[1..]);
    }
  }

  lemma {:induction false} RunProgress(ps: seq<Packet>, cap: nat, st: Receiver, sizes: seq<nat>)
    requires Fits(ps, cap) && InStep(ps, cap, st) && forall k :: 0 <= k < |sizes| ==> 1 <= sizes[k] <= MAX_READ
    requires |Stream(ps)| - st.read + |ps| - |st.delivered| <= |sizes|
    ensures Run(Stream(ps), cap, st, sizes).delivered == Contents(ps)
    decreases |sizes|
  {
    if sizes == [] {
      assert ps[..|ps|] == ps;
    } else {
      ReceiveInStep(ps, cap, st, sizes[0]);
      RunProgress(ps, cap, Receive(Stream(ps), cap, st, sizes[0]).1, sizes[1..]);
    }
  }

  // ---------------------------------------------------------------------------------------------
  // Streams of WebSocket frames

  function PacketOf(f: Frame): Packet
    requires f.Valid()
  {
    Packet(Wire(f), f.Opcode(), f.payload)
  }

  function Packets(frames: seq<Frame>): (r: seq<Packet>)
    requires forall f :: f in frames ==> f.Valid()
    ensures |r| == |frames| && forall i :: 0 <= i < |r| ==> r[i] == PacketOf(frames[i])
  {
    seq(|frames|, i requires 0 <= i < |frames| => PacketOf(frames[i]))
  }

  lemma {:induction false} FrameFramed(f: Frame, cap: nat)
    requires f.Valid() && |Wire(f)| + MAX_READ <= cap
    ensures Framed(PacketOf(f), cap)
  {
    var p := PacketOf(f);
    forall rest: seq<Byte>, k: nat | k <= |p.bytes| + |rest|
      ensures Decode((p.bytes + rest)[..k], cap) == if k < |p.bytes| then NotReady else Got(p.opcode, p.payload, |p.bytes|)
    {
      DecodeWire(f, rest, k, cap);
    }
  }

  /**
    Stream reassembly: however a stream of frames, each at most the capacity minus 1024 bytes long, is
    cut into reads of 1 to 1024 bytes, polling as often as there are bytes and frames delivers exactly
    the frames, in order; after any number of polls the delivered frames are a prefix and the buffer
    holds the undelivered rest of what was read.
    */
  lemma {:induction false} AllDelivered(frames: seq<Frame>, cap: nat, sizes: seq<nat>)
    requires cap >= MAX_READ && forall f :: f in frames ==> f.Valid() && |Wire(f)| + MAX_READ <= cap
    requires forall k :: 0 <= k < |sizes| ==> 1 <= sizes[k] <= MAX_READ
    ensures var ps := Packets(frames);
            var st := Run(Stream(ps), cap, START, sizes);
            InStep(ps, cap, st)
            && (|Stream(ps)| + |ps| <= |sizes| ==> st.delivered == Contents(ps))
  {
    var ps := Packets(frames);
    forall p | p in ps ensures Framed(p, cap) && |p.bytes| + MAX_READ <= cap {
      var i :| 0 <= i < |ps| && ps[i] == p;
      FrameFramed(frames[i], cap);
    }
    assert ps[..0] == [];
    RunInStep(ps, cap, START, sizes);
    if |Stream(ps)| + |ps| <= |sizes| { RunProgress(ps, cap, START, sizes); }
  }

  /**
    A closed link is reported only when no frame is waiting, a full buffer only when the read does not
    fit; a poll that hands over nothing drops nothing, and one that hands over a frame drops that frame.
    */
  lemma {:induction false} PollConserves(buf: seq<Byte>, cap: nat, input: Read)
    ensures var (r, left) := PollStep(buf, cap, input);
      var ready := Decode(buf, cap) != NotReady;
      && (r == LinkError <==> !ready && input == Closed)
      && (r == BufferFull <==> !ready && input.Data? && |buf| + |input.bytes| > cap)
      && var all := if ready || !input.Data? || r == BufferFull then buf else buf + input.bytes;
         if r.Delivered? then exists n :: 0 < n <= |all| && left == all[n..] && Decode(all, cap) == Got(r.opcode, r.payload, n)
         else left == all && (r == OutOfLimit <==> Decode(all, cap) == TooBig)
  {
    hide Masked, FromBigEndian;
    DecodeTakes(buf, cap);
    if input.Data? { DecodeTakes(buf + input.bytes, cap); }
    hide Decode;
  }

  lemma {:induction false} DecodeTakes(buf: seq<Byte>, cap: nat)
    ensures Decode(buf, cap).Got? ==> 0 < Decode(buf, cap).consumed <= |buf|
  {
  }
}
