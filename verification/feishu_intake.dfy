/** Intake of Feishu events: each message is published at most once while its key is remembered. */
module FeishuIntake {
  import opened Basics
  import opened SeenRing

  const CACHE_SIZE := 512

  /**
    An event with the keys of its event id and message id, where it has them. `admitted` says that it
    has a message and an allowed sender, `presentable` that it has text and somewhere to reply to.
    */
  datatype Event = Event(event: Option<Key>, message: Option<Key>, admitted: bool, presentable: bool)

  /** The keys inserted into the two rings, in order. */
  datatype Logs = Logs(messages: seq<Key>, events: seq<Key>)

  function Noted(log: seq<Key>, key: Option<Key>): seq<Key> { if key.Some? then log + [key.value] else log }

  predicate Known(log: seq<Key>, key: Option<Key>) { key.Some? && Seen(log, CACHE_SIZE, key.value) }

  /** The rings after an event, and whether it is published. */
  function Handle(l: Logs, e: Event): (Logs, bool) {
    if Known(l.events, e.event) || !e.admitted then (l, false)
    else if Known(l.messages, e.message) then (Logs(l.messages, Noted(l.events, e.event)), false)
    else (Logs(Noted(l.messages, e.message), Noted(l.events, e.event)), e.presentable)
  }

  class Intake {
    const messages: Ring
    const events: Ring

    ghost predicate Valid()
      reads this, messages, messages.keys, events, events.keys
    {
      && messages != events && messages.keys != events.keys
      && messages.Valid() && events.Valid()
      && messages.keys.Length == CACHE_SIZE && events.keys.Length == CACHE_SIZE
    }

    ghost function State(): Logs
      reads this, messages, events
    {
      Logs(messages.log, events.log)
    }

    constructor ()
      ensures Valid() && State() == Logs([], [])
      ensures fresh(messages) && fresh(messages.keys) && fresh(events) && fresh(events.keys)
    {
      messages := new Ring(CACHE_SIZE);
      events := new Ring(CACHE_SIZE);
    }

    method HandleEvent(e: Event) returns (published: bool)
      requires Valid()
      modifies messages, messages.keys, events, events.keys
      ensures Valid() && (State(), published) == Handle(old(State()), e)
    {
      if e.event.Some? {
        var dup := events.Contains(e.event.value);
        if dup { return false; }
      }
      if !e.admitted { return false; }
      if e.message.Some? {
        var dup := messages.Contains(e.message.value);
        if dup {
          if e.event.Some? { events.Insert(e.event.value); }
          return false;
        }
        messages.Insert(e.message.value);
      }
      if e.event.Some? { events.Insert(e.event.value); }
      return e.presentable;
    }
  }

  // ---------------------------------------------------------------------------------------------
  // Whole runs

  /** A publication of message `key`, the key being entry `at` of the message log. */
  datatype Publication = Publication(key: Key, at: nat)

  datatype Run = Run(logs: Logs, published: seq<Publication>)

  function After(history: seq<Event>): Run {
    if history == [] then Run(Logs([], []), [])
    else
      var r, e := After(history[..|history| - 1]), history[|history| - 1];
      var (logs, out) := Handle(r.logs, e);
      Run(logs, if out && e.message.Some? then r.published + [Publication(e.message.value, |r.logs.messages|)] else r.published)
  }

  ghost predicate Inv(r: Run) {
    && Spread(r.logs.messages, CACHE_SIZE) && Spread(r.logs.events, CACHE_SIZE)
    && (forall p :: 0 <= p < |r.published| ==>
          r.published[p].at < |r.logs.messages| && r.logs.messages[r.published[p].at] == r.published[p].key)
    && forall p, q :: 0 <= p < q < |r.published| ==> r.published[p].at < r.published[q].at
  }

  lemma {:induction false} NotedSpread(log: seq<Key>, key: Option<Key>)
    requires Spread(log, CACHE_SIZE) && !Known(log, key)
    ensures Spread(Noted(log, key), CACHE_SIZE)
  {
    if key.Some? { SpreadStep(log, CACHE_SIZE, key.value); }
  }

  lemma {:induction false} RunInv(history: seq<Event>)
    ensures Inv(After(history))
  {
    hide Spread, Known;
    if history != [] {
      var r, e := After(history[..|history| - 1]), history[|history| - 1];
      RunInv(history[..|history| - 1]);
      if !Known(r.logs.events, e.event) { NotedSpread(r.logs.events, e.event); }
      if !Known(r.logs.messages, e.message) { NotedSpread(r.logs.messages, e.message); }
    } else {
      assert Spread([], CACHE_SIZE) by { EmptySpread(); }
    }
  }

  lemma {:induction false} EmptySpread()
    ensures Spread([], CACHE_SIZE)
  {
  }

  /** Between two publications of one message, at least 512 keys of other messages were inserted. */
  lemma {:induction false} AtMostOnce(history: seq<Event>, p: nat, q: nat)
    requires p < q < |After(history).published| && After(history).published[p].key == After(history).published[q].key
    ensures var r := After(history);
            var a, b, key := r.published[p].at, r.published[q].at, r.published[p].key;
            && b < |r.logs.messages| && b - a - 1 >= CACHE_SIZE
            && forall k :: a < k <= a + CACHE_SIZE ==> r.logs.messages[k] != key
  {
    RunInv(history);
  }

  // ---------------------------------------------------------------------------------------------
  // Nothing new is dropped

  /** An earlier event with the same event id or the same message id. */
  predicate Repeats(before: Event, e: Event) {
    (e.event.Some? && before.event == e.event) || (e.message.Some? && before.message == e.message)
  }

  /** The rings hold nothing but keys of earlier events. */
  lemma {:induction false} NotedFrom(history: seq<Event>, e: Event)
    requires forall k :: 0 <= k < |history| ==> !Repeats(history[k], e)
    ensures var l := After(history).logs;
      && (e.event.Some? ==> e.event.value !in l.events)
      && (e.message.Some? ==> e.message.value !in l.messages)
  {
    hide Known;
    if history != [] { NotedFrom(history[..|history| - 1], e); }
  }

  /** An event that repeats no earlier one is published, if it is admitted and presentable (and its keys are not 0). */
  lemma {:induction false} FirstIsPublished(history: seq<Event>, e: Event)
    requires forall k :: 0 <= k < |history| ==> !Repeats(history[k], e)
    requires e.event != Some(0) && e.message != Some(0)
    ensures Handle(After(history).logs, e).1 <==> e.admitted && e.presentable
  {
    NotedFrom(history, e);
  }

  /** An event that comes again straight away is dropped, if it has an id by which to know it. */
  lemma {:induction false} RepeatIsDropped(history: seq<Event>, e: Event)
    requires e.event.Some? || e.message.Some?
    ensures !Handle(After(history + [e]).logs, e).1
  {
    assert (history + [e])[..|history|] == history;
    var l := After(history).logs;
    var l' := Handle(l, e).0;
    if e.event.Some? && l'.events == l.events + [e.event.value] { assert l'.events[|l.events|] == e.event.value; }
    if e.message.Some? && l'.messages == l.messages + [e.message.value] { assert l'.messages[|l.messages|] == e.message.value; }
  }

  /**
    Whatever message it carries, an event with the id of an admitted one is dropped right after it; and
    so is an event with the message of a published one.
    */
  lemma {:induction false} NextIsDropped(history: seq<Event>, e: Event, next: Event)
    requires (e.admitted && e.event.Some? && next.event == e.event)
             || (Handle(After(history).logs, e).1 && e.message.Some? && next.message == e.message)
    ensures !Handle(After(history + [e]).logs, next).1
  {
    assert (history + [e])[..|history|] == history;
    var l := After(history).logs;
    hide After;
    JustNoted(l.events, e.event);
    JustNoted(l.messages, e.message);
    hide Known, Noted;
  }

  lemma {:induction false} JustNoted(log: seq<Key>, key: Option<Key>)
    ensures key.Some? ==> Known(Noted(log, key), key)
  {
    if key.Some? { assert (log + [key.value])[|log|] == key.value; }
  }
}
