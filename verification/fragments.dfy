/**
  Reassembly of messages that arrive in parts. One slot holds the parts of the message in progress; it
  is restarted when another message, another part count or a late part arrives. The slot is shown to
  hold, for any history of packets, the first copy of every part of the packets since the restart.
  */
module Fragments {
  import opened Basics

  const MAX_PARTS := 8
  const ID_ROOM := 95
  const LIFETIME := 5000

  /** A 32-bit millisecond counter. */
  const TICKS: int := 0x1_0000_0000
  type Tick = t: int | 0 <= t < TICKS

  datatype Packet = Packet(id: seq<Byte>, sum: nat, part: nat, payload: seq<Byte>, now: Tick)

  datatype Output = Whole(message: seq<Byte>) | NotReady | Invalid

  const NO_PARTS: seq<Option<seq<Byte>>> := [None, None, None, None, None, None, None, None]

  type Parts = p: seq<Option<seq<Byte>>> | |p| == MAX_PARTS witness NO_PARTS

  datatype Slot = Slot(active: bool, id: seq<Byte>, sum: nat, parts: Parts, expire: Tick)

  const CLEARED := Slot(false, [], 0, NO_PARTS, 0)

  // ---------------------------------------------------------------------------------------------
  // One packet

  /** The signed 32-bit difference `now - expire` is not negative. */
  predicate Expired(now: Tick, expire: Tick) { (now - expire) % TICKS < TICKS / 2 }

  function Deadline(now: Tick): Tick { (now + LIFETIME) % TICKS }

  function Stored(id: seq<Byte>): seq<Byte> { if |id| > ID_ROOM then id[..ID_ROOM] else id }

  /** Packets that belong to a message in several parts. */
  predicate Accepted(p: Packet) { p.sum > 1 && p.id != [] && p.sum <= MAX_PARTS && p.part < p.sum }

  function Restarted(s: Slot, p: Packet): Slot {
    if !s.active || s.id != p.id || s.sum != p.sum || Expired(p.now, s.expire) then
      Slot(true, Stored(p.id), p.sum, NO_PARTS, 0)
    else s
  }

  function Filed(s: Slot, p: Packet): Slot
    requires Accepted(p)
  {
    s.(parts := if s.parts[p.part].None? then s.parts[p.part := Some(p.payload)] else s.parts, expire := Deadline(p.now))
  }

  predicate Complete(parts: Parts, sum: nat)
    requires sum <= MAX_PARTS
  {
    forall i :: 0 <= i < sum ==> parts[i].Some?
  }

  function Joined(parts: Parts, n: nat): seq<Byte>
    requires n <= MAX_PARTS && Complete(parts, n)
  {
    if n == 0 then [] else Joined(parts, n - 1) + parts[n - 1].value
  }

  function Merge(s: Slot, p: Packet): (r: (Slot, Output)) {
    if p.sum <= 1 then (s, Whole(p.payload))
    else if !Accepted(p) then (s, Invalid)
    else
      var t := Filed(Restarted(s, p), p);
      if Complete(t.parts, p.sum) then (CLEARED, Whole(Joined(t.parts, p.sum))) else (t, NotReady)
  }

  // ---------------------------------------------------------------------------------------------
  // The slot in place

  class Reassembler {
    var active: bool
    var id: seq<Byte>
    var sum: nat
    const got: array<bool>
    const parts: array<seq<Byte>>
    var expire: Tick

    ghost predicate Valid()
      reads this
    {
      got.Length == MAX_PARTS && parts.Length == MAX_PARTS
    }

    ghost function Held(): Parts
      requires Valid()
      reads this, got, parts
    {
      seq(MAX_PARTS, i requires 0 <= i < MAX_PARTS reads this, got, parts => if got[i] then Some(parts[i]) else None)
    }

    ghost function State(): Slot
      requires Valid()
      reads this, got, parts
    {
      Slot(active, id, sum, Held(), expire)
    }

    constructor ()
      ensures Valid() && State() == CLEARED && fresh(got) && fresh(parts)
    {
      got := new bool[MAX_PARTS](_ => false);
      parts := new seq<Byte>[MAX_PARTS](_ => []);
      active, id, sum, expire := false, [], 0, 0;
    }

    method Clear()
      requires Valid()
      modifies this, got, parts
      ensures Valid() && State() == CLEARED
    {
      for i := 0 to MAX_PARTS
        invariant forall j :: 0 <= j < i ==> !got[j]
      {
        parts[i] := [];
        got[i] := false;
      }
      active, id, sum, expire := false, [], 0, 0;
    }

    /** The concatenation of the first `n` parts. */
    method Join(n: nat) returns (merged: seq<Byte>)
      requires Valid() && n <= MAX_PARTS && Complete(Held(), n)
      ensures merged == Joined(Held(), n)
    {
      merged := [];
      for i := 0 to n
        invariant merged == Joined(Held(), i)
      {
        assert Held()[i] == Some(parts[i]);
        merged := merged + parts[i];
      }
    }

    /** Starts over unless the packet belongs to the message in progress. */
    method Restart(p: Packet)
      requires Valid()
      modifies this, got, parts
      ensures Valid() && State() == Restarted(old(State()), p)
    {
      if !active || id != p.id || sum != p.sum || Expired(p.now, expire) {
        Clear();
        active := true;
        id := Stored(p.id);
        sum := p.sum;
        assert Held() == NO_PARTS;
      }
    }

    /** Keeps the part unless it is there already. */
    method File(p: Packet)
      requires Valid() && Accepted(p)
      modifies this`expire, got, parts
      ensures Valid() && State() == Filed(old(State()), p)
    {
      if !got[p.part] {
        parts[p.part] := p.payload;
        got[p.part] := true;
      }
      expire := Deadline(p.now);
    }

    method Receive(p: Packet) returns (out: Output)
      requires Valid()
      modifies this, got, parts
      ensures Valid() && (State(), out) == Merge(old(State()), p)
    {
      hide Restarted, Filed;
      if p.sum <= 1 { return Whole(p.payload); }
      if p.id == [] || p.sum > MAX_PARTS || p.part >= p.sum { return Invalid; }
      Restart(p);
      File(p);
      for i := 0 to p.sum
        invariant forall j :: 0 <= j < i ==> Held()[j].Some?
      {
        if !got[i] {
          assert Held()[i].None?;
          return NotReady;
        }
        assert Held()[i].Some?;
      }
      var merged := Join(p.sum);
      Clear();
      return Whole(merged);
    }
  }

  // ---------------------------------------------------------------------------------------------
  // Sessions: the packets since the last restart

  /** The payload of the first packet that carries part `i`. */
  function FirstCopy(ps: seq<Packet>, i: nat): Option<seq<Byte>> {
    if ps == [] then None else if ps[0].part == i then Some(ps[0].payload) else FirstCopy(ps[1..], i)
  }

  predicate Covers(ps: seq<Packet>, sum: nat) { forall i :: 0 <= i < sum ==> FirstCopy(ps, i).Some? }

  function Message(ps: seq<Packet>, n: nat): seq<Byte>
    requires Covers(ps, n)
  {
    if n == 0 then [] else Message(ps, n - 1) + FirstCopy(ps, n - 1).value
  }

  /** `p` belongs to the message in progress. */
  predicate Continues(session: seq<Packet>, p: Packet) {
    session != [] &&
    var last := session[|session| - 1];
    Stored(session[0].id) == p.id && session[0].sum == p.sum && !Expired(p.now, Deadline(last.now))
  }

  function Grown(session: seq<Packet>, p: Packet): (r: seq<Packet>)
    ensures r != []
  {
    if Continues(session, p) then session + [p] else [p]
  }

  /** The packets of the message in progress after a history of packets. */
  function Session(history: seq<Packet>): seq<Packet> {
    if history == [] then []
    else
      var p, before := history[|history| - 1], Session(history[..|history| - 1]);
      if !Accepted(p) then before else if Covers(Grown(before, p), p.sum) then [] else Grown(before, p)
  }

  /** What the receiver answers to `p` after a history of packets. */
  function Answer(history: seq<Packet>, p: Packet): Output {
    if p.sum <= 1 then Whole(p.payload)
    else if !Accepted(p) then Invalid
    else
      var ps := Grown(Session(history), p);
      if Covers(ps, p.sum) then Whole(Message(ps, p.sum)) else NotReady
  }

  function SlotAfter(history: seq<Packet>): Slot {
    if history == [] then CLEARED else Merge(SlotAfter(history[..|history| - 1]), history[|history| - 1]).0
  }

  /** The slot holds the first copies of the parts of the session. */
  ghost predicate Holds(s: Slot, session: seq<Packet>) {
    if session == [] then s == CLEARED
    else
      && s.active && s.id == Stored(session[0].id) && s.sum == session[0].sum
      && s.expire == Deadline(session[|session| - 1].now)
      && (forall i :: 0 <= i < MAX_PARTS ==> s.parts[i] == FirstCopy(session, i))
      && forall k :: 0 <= k < |session| ==> Accepted(session[k]) && session[k].sum == session[0].sum
  }

  lemma {:induction false} FirstCopySnoc(ps: seq<Packet>, p: Packet, i: nat)
    ensures FirstCopy(ps + [p], i) ==
            if FirstCopy(ps, i).Some? then FirstCopy(ps, i) else if p.part == i then Some(p.payload) else None
  {
    if ps != [] {
      assert (ps + [p])[1..] == ps[1..] + [p];
      FirstCopySnoc(ps[1..], p, i);
    }
  }

  /** Filing a packet follows growing the session. */
  lemma {:induction false} FiledHolds(s: Slot, session: seq<Packet>, p: Packet)
    requires Holds(s, session) && Accepted(p)
    ensures Holds(Filed(Restarted(s, p), p), Grown(session, p))
  {
    hide Expired, Deadline, Stored;
    var ps := Grown(session, p);
    var base := if Continues(session, p) then session else [];
    assert ps == base + [p];
    forall i | 0 <= i < MAX_PARTS ensures Filed(Restarted(s, p), p).parts[i] == FirstCopy(ps, i) {
      FirstCopySnoc(base, p, i);
    }
  }

  lemma {:induction false} JoinedIsMessage(parts: Parts, ps: seq<Packet>, n: nat)
    requires n <= MAX_PARTS && Complete(parts, n) && Covers(ps, n)
    requires forall i :: 0 <= i < n ==> parts[i] == FirstCopy(ps, i)
    ensures Joined(parts, n) == Message(ps, n)
  {
    if n > 0 { JoinedIsMessage(parts, ps, n - 1); }
  }

  /** Over any history, the slot holds the session and answers as the session does. */
  lemma {:induction false} SlotHoldsSession(history: seq<Packet>)
    ensures Holds(SlotAfter(history), Session(history))
  {
    hide Holds;
    if history == [] {
      assert Holds(CLEARED, []) by { EmptyHolds(); }
    } else {
      var before, p := history[..|history| - 1], history[|history| - 1];
      SlotHoldsSession(before);
      MergeHolds(SlotAfter(before), Session(before), p);
    }
  }

  lemma {:induction false} EmptyHolds()
    ensures Holds(CLEARED, [])
  {
  }

  lemma {:induction false} MergeHolds(s: Slot, session: seq<Packet>, p: Packet)
    requires Holds(s, session)
    ensures var ps := Grown(session, p);
            Holds(Merge(s, p).0, if !Accepted(p) then session else if Covers(ps, p.sum) then [] else ps)
    ensures var ps := Grown(session, p);
            Merge(s, p).1 == if p.sum <= 1 then Whole(p.payload)
                             else if !Accepted(p) then Invalid
                             else if Covers(ps, p.sum) then Whole(Message(ps, p.sum)) else NotReady
  {
    hide Restarted, Filed, Grown;
    if p.sum > 1 && Accepted(p) {
      var t, ps := Filed(Restarted(s, p), p), Grown(session, p);
      FiledHolds(s, session, p);
      assert Complete(t.parts, p.sum) <==> Covers(ps, p.sum);
      if Covers(ps, p.sum) { JoinedIsMessage(t.parts, ps, p.sum); }
    }
  }

  /** The answer to a packet depends only on the packets of the session. */
  lemma {:induction false} AnswerIs(history: seq<Packet>, p: Packet)
    ensures Merge(SlotAfter(history), p).1 == Answer(history, p)
  {
    SlotHoldsSession(history);
    MergeHolds(SlotAfter(history), Session(history), p);
  }

  // ---------------------------------------------------------------------------------------------
  // What this means for messages

  /** The time from one packet to the next, as the 32-bit clock shows it. */
  function Gap(last: Tick, now: Tick): Tick { (now - last) % TICKS }

  /**
    A later packet is late exactly when it comes five seconds or more after the last one, but before
    the signed difference wraps around: nearly 25 days later the slot counts as alive again.
    */
  lemma {:induction false} ExpiresAfter(last: Tick, now: Tick)
    ensures Expired(now, Deadline(last)) <==> LIFETIME <= Gap(last, now) < LIFETIME + TICKS / 2
  {
    var deadline, gap := (last + LIFETIME) % TICKS, (now - last) % TICKS;
    assert gap == now - last || gap == now - last + TICKS;
    assert deadline == last + LIFETIME || deadline == last + LIFETIME - TICKS;
    var d := now - deadline;
    assert d % TICKS == if d < 0 then d + TICKS else d;
  }

  /** All packets of one message, none of them late. */
  predicate Timely(ps: seq<Packet>, id: seq<Byte>, sum: nat) {
    && (forall k :: 0 <= k < |ps| ==> ps[k].id == id && ps[k].sum == sum && ps[k].part < sum)
    && forall k :: 0 < k < |ps| ==> Gap(ps[k - 1].now, ps[k].now) < LIFETIME
  }

  /**
    Parts in any order, with repetitions: as long as one is missing the answer is "not ready"; the
    packet that brings the last one gets the message, and the slot is empty again. What was received
    before does not matter.
    */
  lemma {:induction false} AnyOrder(history: seq<Packet>, ps: seq<Packet>, id: seq<Byte>, sum: nat)
    requires 0 < |id| <= ID_ROOM && 2 <= sum <= MAX_PARTS && ps != [] && Timely(ps, id, sum)
    requires !Continues(Session(history), ps[0])
    requires forall n :: 0 <= n < |ps| ==> !Covers(ps[..n], sum)
    ensures var before, last := history + ps[..|ps| - 1], ps[|ps| - 1];
            Answer(before, last) == if Covers(ps, sum) then Whole(Message(ps, sum)) else NotReady
    ensures Session(history + ps) == if Covers(ps, sum) then [] else ps
  {
    hide Covers, Session, Continues, Message, Timely;
    var n := |ps| - 1;
    var before, p := history + ps[..n], ps[n];
    assert history + ps == before + [p] && ps[..n] + [p] == ps;
    TimelyStep(ps, id, sum);
    SessionSnoc(before, p);
    if n == 0 {
      assert before == history;
    } else {
      var qs := ps[..n];
      forall m | 0 <= m < |qs| ensures !Covers(qs[..m], sum) { assert qs[..m] == ps[..m]; }
      AnyOrder(history, qs, id, sum);
    }
  }

  lemma {:induction false} SessionSnoc(before: seq<Packet>, p: Packet)
    requires Accepted(p)
    ensures var ps := Grown(Session(before), p); Session(before + [p]) == if Covers(ps, p.sum) then [] else ps
  {
    assert (before + [p])[..|before|] == before && (before + [p])[|before|] == p;
  }

  /** The last of several timely packets continues the session of the others. */
  lemma {:induction false} TimelyStep(ps: seq<Packet>, id: seq<Byte>, sum: nat)
    requires 0 < |id| <= ID_ROOM && 2 <= sum <= MAX_PARTS && ps != [] && Timely(ps, id, sum)
    ensures var n := |ps| - 1;
            Accepted(ps[n]) && ps[n].sum == sum && (n > 0 ==> Continues(ps[..n], ps[n]) && Timely(ps[..n], id, sum))
  {
    hide Expired, Deadline, Gap;
    var n := |ps| - 1;
    if n > 0 {
      ExpiresAfter(ps[n - 1].now, ps[n].now);
    }
  }

  /**
    The packets of one session: one part count, each packet in time after the one before, and all but
    the first with the id that was kept of the first.
    */
  predicate Joint(s: seq<Packet>) {
    forall k :: 0 < k < |s| ==>
      s[k].id == Stored(s[0].id) && s[k].sum == s[0].sum
      && !(LIFETIME <= Gap(s[k - 1].now, s[k].now) < LIFETIME + TICKS / 2)
  }

  lemma {:induction false} GrownJoint(session: seq<Packet>, p: Packet)
    requires Joint(session)
    ensures Joint(Grown(session, p))
  {
    hide Expired, Deadline, Stored, Gap;
    if Continues(session, p) { ExpiresAfter(session[|session| - 1].now, p.now); }
  }

  lemma {:induction false} SessionJoint(history: seq<Packet>)
    ensures Joint(Session(history))
  {
    hide Joint, Grown, Covers;
    if history == [] {
      NothingJoint();
    } else {
      var before, p := history[..|history| - 1], history[|history| - 1];
      SessionJoint(before);
      GrownJoint(Session(before), p);
      NothingJoint();
    }
  }

  lemma {:induction false} NothingJoint()
    ensures Joint([])
  {
  }

  /**
    A message is put together from the first copies of its parts in packets that belong together: one
    count, and no gap between consecutive ones in which the slot expires. They carry one and the same
    id, exactly if the first id fits the slot.
    */
  lemma {:induction false} NoMixing(history: seq<Packet>, p: Packet)
    requires Accepted(p) && Answer(history, p).Whole?
    ensures var s := Grown(Session(history), p);
      && |s| >= 2 && Covers(s, p.sum) && Answer(history, p) == Whole(Message(s, p.sum)) && s[|s| - 1] == p
      && (forall k :: 0 <= k < |s| ==> s[k].sum == p.sum)
      && (forall k :: 0 < k < |s| ==> !(LIFETIME <= Gap(s[k - 1].now, s[k].now) < LIFETIME + TICKS / 2))
      && ((forall k :: 0 <= k < |s| ==> s[k].id == p.id) <==> |s[0].id| <= ID_ROOM)
  {
    hide Session, Continues, Gap;
    SessionJoint(history);
    GrownJoint(Session(history), p);
    var s := Grown(Session(history), p);
    TwoParts(s, p.sum);
    assert s[|s| - 1].id == Stored(s[0].id);
    if |s[0].id| <= ID_ROOM {
      forall k | 0 <= k < |s| ensures s[k].id == p.id {
        if k > 0 { assert s[k].id == Stored(s[0].id); }
      }
    } else {
      assert s[0].id != Stored(s[0].id);
    }
    forall k | 0 <= k < |s| ensures s[k].sum == p.sum { assert s[|s| - 1].sum == s[0].sum; }
  }

  /** Two parts need two packets. */
  lemma {:induction false} TwoParts(ps: seq<Packet>, sum: nat)
    requires sum >= 2 && Covers(ps, sum)
    ensures |ps| >= 2
  {
    if |ps| <= 1 {
      OneCopy(ps, 0);
      OneCopy(ps, 1);
    }
  }

  lemma {:induction false} OneCopy(ps: seq<Packet>, i: nat)
    requires |ps| <= 1
    ensures FirstCopy(ps, i).Some? ==> |ps| == 1 && ps[0].part == i
  {
    if |ps| == 1 {
      assert |ps[1..]| == 0;
      assert FirstCopy(ps[1..], i) == None;
    }
  }

  /** A message whose id does not fit the slot is never put together from packets with that id. */
  lemma {:induction false} LongIdsNeverArrive(history: seq<Packet>, p: Packet)
    requires Accepted(p) && |p.id| > ID_ROOM
    ensures Answer(history, p) == NotReady
  {
    assert Grown(Session(history), p) == [p];
    if Covers([p], p.sum) { TwoParts([p], p.sum); }
  }

  /** An id that does not fit is mixed up with its own first 95 bytes. */
  lemma {:induction false} LongIdsMix(a: Packet, b: Packet)
    requires |a.id| > ID_ROOM && b.id == a.id[..ID_ROOM] && a.now == b.now
    requires a.sum == 2 && b.sum == 2 && a.part == 0 && b.part == 1
    ensures a.id != b.id && Merge(SlotAfter([a]), b).1 == Whole(a.payload + b.payload)
  {
    assert [a][..0] == [];
    var s := Filed(Restarted(CLEARED, a), a);
    assert s.parts[0] == Some(a.payload) && s.parts[1] == None;
    assert SlotAfter([a]) == s;
    var t := Filed(Restarted(s, b), b);
    assert t.parts[0] == Some(a.payload) && t.parts[1] == Some(b.payload);
    assert Joined(t.parts, 1) == a.payload;
    assert Joined(t.parts, 2) == a.payload + b.payload;
  }

  /** A packet is refused exactly if its part or its count is out of range or it has no id. */
  lemma {:induction false} InvalidExactly(history: seq<Packet>, p: Packet)
    ensures Answer(history, p) == Invalid <==> p.sum > 1 && (p.id == [] || p.sum > 8 || p.part >= p.sum)
  {
    hide Session, Grown;
  }

  /** Part `i` is the piece of the text between cuts `i` and `i + 1`. */
  predicate IsPiece(ps: seq<Packet>, i: nat, text: seq<Byte>, cuts: seq<nat>) {
    i + 1 < |cuts| && cuts[i] <= cuts[i + 1] <= |text| && FirstCopy(ps, i) == Some(text[cuts[i]..cuts[i + 1]])
  }

  /** If the parts are the pieces of a text from its start, the message is the text up to the last cut. */
  lemma {:induction false} PiecesJoin(ps: seq<Packet>, n: nat, text: seq<Byte>, cuts: seq<nat>)
    requires |cuts| > n && cuts[0] == 0 && forall i :: 0 <= i < n ==> IsPiece(ps, i, text, cuts)
    ensures cuts[n] <= |text| && Covers(ps, n) && Message(ps, n) == text[..cuts[n]]
  {
    hide FirstCopy;
    if n > 0 {
      PiecesJoin(ps, n - 1, text, cuts);
      assert IsPiece(ps, n - 1, text, cuts);
      assert text[..cuts[n - 1]] + text[cuts[n - 1]..cuts[n]] == text[..cuts[n]];
    }
  }
}
