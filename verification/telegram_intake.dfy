/**
  Intake of Telegram updates: the update offset, its copy in the key-value store, and what a restart
  can replay.
  */
module TelegramIntake {
  import opened Basics
  import opened SeenRing

  const CACHE_SIZE := 64
  const SAVE_STEP := 10

  /**
    One attempt to save the offset: whether the save interval has passed, and whether the store would
    take the value.
    */
  datatype Attempt = Attempt(due: bool, stores: bool)

  /**
    An update; `uid` is -1 when it has no id. `chat` and `text` say whether it has a usable chat and a
    text, `key` is the key of its message id where it has one.
    */
  datatype Update = Update(uid: int, chat: bool, key: Option<Key>, text: bool, save: Attempt)

  datatype State = State(offset: int, saved: int, stored: Option<int>, log: seq<Key>)

  /** The stored offset follows the offset in steps of 10, or when the interval has passed. */
  function Saved(s: State, a: Attempt): State {
    if s.offset <= 0 then s
    else if (s.saved < 0 || s.offset - s.saved >= SAVE_STEP || a.due) && a.stores then
      s.(saved := s.offset, stored := Some(s.offset))
    else s
  }

  /** An update that was handed out before. */
  predicate Old(s: State, u: Update) { 0 <= u.uid < s.offset }

  function Advanced(s: State, u: Update): State { if u.uid >= 0 then Saved(s.(offset := u.uid + 1), u.save) else s }

  /** The state after an update, and whether its message is published. */
  function Take(s: State, u: Update): (State, bool) {
    if Old(s, u) then (s, false)
    else
      var t := Advanced(s, u);
      if !u.chat || (u.key.Some? && Seen(t.log, CACHE_SIZE, u.key.value)) then (t, false)
      else (if u.key.Some? then t.(log := t.log + [u.key.value]) else t, u.text)
  }

  function TakeAll(s: State, us: seq<Update>): State {
    if us == [] then s else Take(TakeAll(s, us[..|us| - 1]), us[|us| - 1]).0
  }

  function Published(s: State, us: seq<Update>): seq<Update> {
    if us == [] then []
    else
      var u := us[|us| - 1];
      Published(s, us[..|us| - 1]) + if Take(TakeAll(s, us[..|us| - 1]), u).1 then [u] else []
  }

  function Loaded(stored: Option<int>): State {
    if stored.Some? && stored.value > 0 then State(stored.value, stored.value, stored, []) else State(0, -1, stored, [])
  }

  class Poller {
    var offset: int
    var saved: int
    var stored: Option<int>
    const ring: Ring

    ghost predicate Valid()
      reads this, ring, ring.keys
    {
      ring.Valid() && ring.keys.Length == CACHE_SIZE
    }

    ghost function Now(): State
      reads this, ring
    {
      State(offset, saved, stored, ring.log)
    }

    /** Start-up with what the store holds. */
    constructor (store: Option<int>)
      ensures Valid() && Now() == Loaded(store) && fresh(ring) && fresh(ring.keys)
    {
      stored := store;
      if store.Some? && store.value > 0 {
        offset, saved := store.value, store.value;
      } else {
        offset, saved := 0, -1;
      }
      ring := new Ring(CACHE_SIZE);
    }

    method SaveOffsetIfNeeded(force: bool, a: Attempt)
      requires Valid()
      modifies this`saved, this`stored
      ensures Valid() && Now() == Saved(old(Now()), if force then a.(due := true) else a)
    {
      if offset <= 0 { return; }
      var should := force;
      if !should && saved >= 0 {
        if offset - saved >= SAVE_STEP { should := true; } else if a.due { should := true; }
      } else if !should {
        should := true;
      }
      if !should { return; }
      if a.stores {
        stored := Some(offset);
        saved := offset;
      }
    }

    method ProcessUpdates(us: seq<Update>, last: Attempt) returns (published: seq<Update>)
      requires Valid()
      modifies this, ring, ring.keys
      ensures Valid() && Now() == Saved(TakeAll(old(Now()), us), last)
      ensures published == Published(old(Now()), us)
    {
      published := [];
      for i := 0 to |us|
        invariant Valid() && Now() == TakeAll(old(Now()), us[..i]) && published == Published(old(Now()), us[..i])
      {
        hide Saved, Seen;
        var u := us[i];
        assert us[..i + 1][..i] == us[..i];
        if u.uid >= 0 {
          if u.uid < offset { continue; }
          offset := u.uid + 1;
          SaveOffsetIfNeeded(false, u.save);
        }
        if !u.chat { continue; }
        if u.key.Some? {
          var dup := ring.Contains(u.key.value);
          if dup { continue; }
          ring.Insert(u.key.value);
        }
        if !u.text { continue; }
        published := published + [u];
      }
      assert us[..|us|] == us;
      SaveOffsetIfNeeded(false, last);
    }
  }

  // ---------------------------------------------------------------------------------------------
  // Whole runs of one bot token

  datatype Event = Take1(u: Update) | EndOfPoll(a: Attempt) | Restart

  /** An update id that was taken, and how many restarts came before. */
  datatype Taken = Taken(uid: int, boot: nat)

  datatype Run = Run(s: State, boot: nat, taken: seq<Taken>)

  const BLANK := Run(Loaded(None), 0, [])

  function Next(r: Run, e: Event): Run {
    match e
    case Take1(u) =>
      r.(s := Take(r.s, u).0, taken := if u.uid >= 0 && !Old(r.s, u) then r.taken + [Taken(u.uid, r.boot)] else r.taken)
    case EndOfPoll(a) => r.(s := Saved(r.s, a))
    case Restart => r.(s := Loaded(r.s.stored), boot := r.boot + 1)
  }

  function After(history: seq<Event>): Run {
    if history == [] then BLANK else Next(After(history[..|history| - 1]), history[|history| - 1])
  }

  /** Ids increase between restarts. */
  ghost predicate Increasing(r: Run) {
    && (forall k :: 0 <= k < |r.taken| ==> r.taken[k].boot <= r.boot && (r.taken[k].boot == r.boot ==> r.taken[k].uid < r.s.offset))
    && (forall k, l :: 0 <= k < l < |r.taken| ==>
          r.taken[k].boot <= r.taken[l].boot && (r.taken[k].boot == r.taken[l].boot ==> r.taken[k].uid < r.taken[l].uid))
  }

  lemma {:induction false} IdsIncrease(history: seq<Event>)
    ensures Increasing(After(history))
  {
    hide Seen;
    if history != [] { IdsIncrease(history[..|history| - 1]); }
  }

  /** Every attempt to save succeeds. */
  predicate Stores(e: Event) { (e.Take1? ==> e.u.save.stores) && (e.EndOfPoll? ==> e.a.stores) }

  /** The stored offset is less than 10 behind the offset, and behind every id taken so far. */
  ghost predicate Close(r: Run) {
    if r.s.stored.None? then r.s.offset == 0 && r.s.saved == -1 && r.taken == []
    else
      && 0 < r.s.saved == r.s.stored.value <= r.s.offset < r.s.saved + SAVE_STEP
      && (forall t :: t in r.taken ==> t.uid + 1 < r.s.saved + SAVE_STEP)
      && forall k, l :: 0 <= k < l < |r.taken| ==> r.taken[k].uid < r.taken[l].uid + SAVE_STEP
  }

  lemma {:induction false} CloseStep(r: Run, e: Event)
    requires Close(r) && Stores(e)
    ensures Close(Next(r, e))
  {
    hide Seen;
    if e.Take1? && e.u.uid >= 0 && !Old(r.s, e.u) {
      var s := Advanced(r.s, e.u);
      var r' := Next(r, e);
      assert r'.s.saved == s.saved && r'.s.stored == s.stored && r'.s.offset == s.offset;
      forall t | t in r'.taken ensures t.uid + 1 < s.saved + SAVE_STEP {
        assert t in r.taken || t == Taken(e.u.uid, r.boot);
      }
      forall k | 0 <= k < |r.taken| ensures r.taken[k].uid < e.u.uid + SAVE_STEP {
        assert r.taken[k] in r.taken;
      }
    }
  }

  /** With saves that succeed, an id taken again after restarts is among the last 10 before them. */
  lemma {:induction false} StoredIsClose(history: seq<Event>)
    requires forall e :: e in history ==> Stores(e)
    ensures Close(After(history))
  {
    if history != [] {
      var before := history[..|history| - 1];
      assert forall e :: e in before ==> e in history;
      StoredIsClose(before);
      CloseStep(After(before), history[|history| - 1]);
    }
  }

  // ---------------------------------------------------------------------------------------------
  // Publications over whole runs

  /** Event `k` of the history hands in an update that is published. */
  ghost predicate Publishes(history: seq<Event>, k: nat) {
    k < |history| && history[k].Take1? && Take(After(history[..k]).s, history[k].u).1
  }

  lemma {:induction false} AfterSnoc(history: seq<Event>, k: nat)
    requires k < |history|
    ensures After(history[..k + 1]) == Next(After(history[..k]), history[k])
  {
    assert history[..k + 1][..k] == history[..k];
  }

  /** Without a restart the log only grows. */
  lemma {:induction false} LogGrows(history: seq<Event>, p: nat, q: nat)
    requires p <= q <= |history| && forall k :: p <= k < q ==> !history[k].Restart?
    ensures After(history[..p]).s.log <= After(history[..q]).s.log
  {
    hide After, Next;
    if p < q {
      LogGrows(history, p, q - 1);
      AfterSnoc(history, q - 1);
      LogStep(After(history[..q - 1]), history[q - 1]);
    }
  }

  lemma {:induction false} LogStep(r: Run, e: Event)
    requires !e.Restart?
    ensures r.s.log <= Next(r, e).s.log
  {
    hide Seen;
  }

  /** Between two publications of one message without a restart, at least 64 other messages came in. */
  lemma {:induction false} AtMostOnce(history: seq<Event>, p: nat, q: nat)
    requires p < q && Publishes(history, p) && Publishes(history, q) && forall k :: p <= k < q ==> !history[k].Restart?
    requires history[p].u.key.Some? && history[p].u.key == history[q].u.key
    ensures var key, a, b := history[p].u.key.value, After(history[..p]).s.log, After(history[..q]).s.log;
      && |b| - |a| > CACHE_SIZE && a + [key] <= b
      && forall k :: |b| - CACHE_SIZE <= k < |b| ==> b[k] != key
  {
    var key, a, b := history[p].u.key.value, After(history[..p]).s.log, After(history[..q]).s.log;
    AfterSnoc(history, p);
    LogGrows(history, p + 1, q);
    assert (a + [key])[|a|] == key;
    assert b[|a|] == key;
    assert !Seen(b, CACHE_SIZE, key);
  }

  /** An earlier update with the same message, or with an id that is not smaller. */
  predicate Precludes(e: Event, u: Update) {
    e.Take1? && ((u.key.Some? && e.u.key == u.key) || (u.uid >= 0 && u.uid <= e.u.uid))
  }

  lemma {:induction false} NothingAhead(history: seq<Event>, u: Update)
    requires forall k :: 0 <= k < |history| ==> !Precludes(history[k], u)
    ensures var s := After(history).s;
      && (u.key.Some? ==> u.key.value !in s.log)
      && (u.uid >= 0 ==> s.offset <= u.uid && (s.stored.Some? ==> s.stored.value <= u.uid))
  {
    hide Seen;
    if history != [] { NothingAhead(history[..|history| - 1], u); }
  }

  lemma {:induction false} FirstTaken(s: State, u: Update)
    requires (u.key.Some? ==> u.key.value !in s.log && u.key.value != 0) && (u.uid >= 0 ==> s.offset <= u.uid)
    ensures Take(s, u).1 <==> u.chat && u.text
  {
    hide Saved;
    assert Advanced(s, u).log == s.log by { AdvancedLog(s, u); }
  }

  lemma {:induction false} AdvancedLog(s: State, u: Update)
    ensures Advanced(s, u).log == s.log
  {
  }

  /**
    Whatever restarts came before, an update with a new message and a new id is published, if it has a
    chat and a text (and its key is not 0).
    */
  lemma {:induction false} FirstIsPublished(history: seq<Event>, u: Update)
    requires forall k :: 0 <= k < |history| ==> !Precludes(history[k], u)
    requires u.key != Some(0)
    ensures Publishes(history + [Take1(u)], |history|) <==> u.chat && u.text
  {
    var longer := history + [Take1(u)];
    assert longer[..|history|] == history && longer[|history|] == Take1(u);
    NothingAhead(history, u);
    hide After, Precludes;
    FirstTaken(After(history).s, u);
  }

  // ---------------------------------------------------------------------------------------------
  // How often the store is written

  function Writes(history: seq<Event>): nat {
    if history == [] then 0
    else
      var before := history[..|history| - 1];
      Writes(before) + if After(before).s.saved != After(history).s.saved then 1 else 0
  }

  /** No event at which the save interval has passed, and no restart. */
  predicate Quiet(e: Event) { !e.Restart? && (e.Take1? ==> !e.u.save.due) && (e.EndOfPoll? ==> !e.a.due) }

  /** While the interval has not passed, all writes but the first are at least 10 updates apart. */
  lemma {:induction false} FewWrites(history: seq<Event>)
    requires forall k :: 0 <= k < |history| ==> Quiet(history[k])
    ensures var s, w := After(history).s, Writes(history);
      s.saved <= s.offset && if w == 0 then s.saved == -1 else s.saved > SAVE_STEP * (w - 1)
  {
    hide Seen;
    if history != [] {
      FewWrites(history[..|history| - 1]);
      WriteStep(After(history[..|history| - 1]), history[|history| - 1]);
      hide Next;
    }
  }

  lemma {:induction false} WriteStep(r: Run, e: Event)
    requires Quiet(e) && -1 <= r.s.saved <= r.s.offset
    ensures var s, s' := r.s, Next(r, e).s;
      && s.offset <= s'.offset && s'.saved <= s'.offset
      && (s'.saved != s.saved ==> s'.saved == s'.offset > 0 && (s.saved >= 0 ==> s'.saved - s.saved >= SAVE_STEP))
  {
    hide Seen;
  }
}
