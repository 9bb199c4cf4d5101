/**
  Whole runs of the scheduler. Every job gets a number when it is added, so that its firings can be
  told apart; apart from these numbers the steps are those of the table.
  */
module CronRuns {
  import opened Basics
  import opened Cron

  datatype Tracked = Tracked(uid: nat, job: Job)

  datatype Firing = Firing(uid: nat, time: int, kind: Kind, interval: nat, message: Message)

  datatype State = State(jobs: seq<Tracked>, next: nat, log: seq<Firing>)

  const START := State([], 0, [])

  datatype Event = PassAt(now: int) | Add(job: Job, id: string, now: int) | Remove(id: string) | StartAt(now: int)

  function Jobs(ts: seq<Tracked>): (r: seq<Job>)
    ensures |r| == |ts| && forall i :: 0 <= i < |r| ==> r[i] == ts[i].job
  {
    seq(|ts|, i requires 0 <= i < |ts| => ts[i].job)
  }

  function Survivors(t: Tracked, now: int): seq<Tracked> {
    if !Due(t.job, now) then [t]
    else if Fired(t.job, now).Some? then [Tracked(t.uid, Fired(t.job, now).value)]
    else []
  }

  function PassTracked(ts: seq<Tracked>, now: int): seq<Tracked> {
    if ts == [] then [] else PassTracked(ts[..|ts| - 1], now) + Survivors(ts[|ts| - 1], now)
  }

  function FiringOf(t: Tracked, now: int): Firing { Firing(t.uid, now, t.job.kind, t.job.interval, MessageOf(t.job)) }

  function Firings(ts: seq<Tracked>, now: int): seq<Firing> {
    if ts == [] then []
    else
      var t := ts[|ts| - 1];
      Firings(ts[..|ts| - 1], now) + (if Due(t.job, now) then [FiringOf(t, now)] else [])
  }

  function StartTracked(ts: seq<Tracked>, now: int): (r: seq<Tracked>)
    ensures |r| == |ts| && forall i :: 0 <= i < |r| ==> r[i] == Tracked(ts[i].uid, Restarted(ts[i].job, now))
  {
    seq(|ts|, i requires 0 <= i < |ts| => Tracked(ts[i].uid, Restarted(ts[i].job, now)))
  }

  function Step(st: State, ev: Event): State {
    match ev
    case PassAt(now) => State(PassTracked(st.jobs, now), st.next, st.log + Firings(st.jobs, now))
    case Add(job, id, now) =>
      if |st.jobs| >= MAX_JOBS then st
      else State(st.jobs + [Tracked(st.next, Prepared(job, id, now))], st.next + 1, st.log)
    case Remove(id) =>
      var k := IndexOfId(Jobs(st.jobs), id);
      if id == "" || k == |st.jobs| then st else st.(jobs := st.jobs[..k] + st.jobs[k + 1..])
    case StartAt(now) => st.(jobs := StartTracked(st.jobs, now))
  }

  function Run(st: State, evs: seq<Event>): State
    decreases |evs|
  {
    if evs == [] then st else Run(Step(st, evs[0]), evs[1..])
  }

  /** Forgetting the numbers gives the steps of the table. */
  lemma {:induction false} PassForgets(ts: seq<Tracked>, now: int)
    ensures Jobs(PassTracked(ts, now)) == Pass(Jobs(ts), now)
  {
    if ts != [] {
      PassForgets(ts[..|ts| - 1], now);
      assert Jobs(ts)[..|ts| - 1] == Jobs(ts[..|ts| - 1]);
      var a, b := PassTracked(ts[..|ts| - 1], now), Survivors(ts[|ts| - 1], now);
      assert Jobs(a + b) == Jobs(a) + Jobs(b);
      assert Jobs(b) == AfterPass(ts[|ts| - 1].job, now);
    }
  }

  lemma {:induction false} StepForgets(st: State, ev: Event)
    ensures var js := Jobs(st.jobs);
            Jobs(Step(st, ev).jobs) ==
            match ev
            case PassAt(now) => Pass(js, now)
            case Add(job, id, now) => if |js| >= MAX_JOBS then js else js + [Prepared(job, id, now)]
            case Remove(id) => (if id == "" || IndexOfId(js, id) == |js| then js else Without(js, IndexOfId(js, id)))
            case StartAt(now) => RestartAll(js, now)
  {
    match ev
    case PassAt(now) => PassForgets(st.jobs, now);
    case Add(job, id, now) =>
      if |st.jobs| < MAX_JOBS {
        assert Jobs(st.jobs + [Tracked(st.next, Prepared(job, id, now))]) == Jobs(st.jobs) + [Prepared(job, id, now)];
      }
    case Remove(id) =>
      var k := IndexOfId(Jobs(st.jobs), id);
      if id != "" && k < |st.jobs| {
        assert Jobs(st.jobs[..k] + st.jobs[k + 1..]) == Without(Jobs(st.jobs), k);
      }
    case StartAt(now) => assert Jobs(StartTracked(st.jobs, now)) == RestartAll(Jobs(st.jobs), now);
  }

  // ---------------------------------------------------------------------------------------------
  // The invariant

  /** A job that has fired is disabled (one-shot) or waits for a full interval (recurring). */
  predicate Rested(job: Job) {
    job.lastRun >= 0
    && (job.lastRun > 0 ==> if job.kind == At then !job.enabled else job.nextRun == job.lastRun + job.interval)
  }

  /** The log knows the job by its own kind and interval, and no later than its last run. */
  ghost predicate Recorded(t: Tracked, log: seq<Firing>) {
    forall f :: f in log && f.uid == t.uid ==>
      f.kind == t.job.kind && f.interval == t.job.interval && f.time <= t.job.lastRun && 0 < t.job.lastRun
  }

  /** No one-shot job fires twice, and firings of a recurring job are at least its interval apart. */
  ghost predicate Spaced(log: seq<Firing>) {
    forall a, b :: 0 <= a < b < |log| && log[a].uid == log[b].uid ==>
      log[a].kind == Every && log[b].kind == Every && log[a].interval == log[b].interval
      && log[a].time + log[a].interval <= log[b].time
  }

  ghost predicate Numbered(ts: seq<Tracked>, next: nat) {
    (forall i :: 0 <= i < |ts| ==> ts[i].uid < next)
    && forall i, j :: 0 <= i < j < |ts| ==> ts[i].uid != ts[j].uid
  }

  ghost predicate Good(t: Tracked, log: seq<Firing>) {
    Addressed(t.job) && Rested(t.job) && Recorded(t, log)
  }

  ghost predicate Inv(st: State) {
    && |st.jobs| <= MAX_JOBS && Numbered(st.jobs, st.next)
    && (forall f :: f in st.log ==> f.uid < st.next)
    && (forall i :: 0 <= i < |st.jobs| ==> Good(st.jobs[i], st.log))
    && Spaced(st.log)
  }

  /** Job `i`, due at `now`, is the one that fired. */
  predicate FiredBy(ts: seq<Tracked>, now: int, f: Firing, i: int) {
    0 <= i < |ts| && Due(ts[i].job, now) && f == FiringOf(ts[i], now)
  }

  lemma {:induction false} FiringsAre(ts: seq<Tracked>, next: nat, now: int)
    requires Numbered(ts, next)
    ensures forall f :: f in Firings(ts, now) ==> exists i :: FiredBy(ts, now, f, i)
    ensures forall a, b :: 0 <= a < b < |Firings(ts, now)| ==> Firings(ts, now)[a].uid != Firings(ts, now)[b].uid
  {
    if ts != [] {
      var n := |ts| - 1;
      FiringsAre(ts[..n], next, now);
      var fs, all := Firings(ts[..n], now), Firings(ts, now);
      forall f | f in all ensures exists i :: FiredBy(ts, now, f, i) {
        if f in fs {
          var i :| FiredBy(ts[..n], now, f, i);
          assert FiredBy(ts, now, f, i);
        } else {
          assert FiredBy(ts, now, f, n);
        }
      }
      forall a, b | 0 <= a < b < |all| ensures all[a].uid != all[b].uid {
        assert all[a] == fs[a] && fs[a] in fs;
        if b < |fs| {
          assert all[b] == fs[b];
        } else {
          var i :| FiredBy(ts[..n], now, fs[a], i);
          assert all[b].uid == ts[n].uid;
        }
      }
    }
  }

  /** Firing the due jobs keeps the log spaced. */
  lemma {:induction false} PassSpaced(st: State, now: int)
    requires Inv(st)
    ensures Spaced(st.log + Firings(st.jobs, now))
  {
    hide Addressed;
    var fs := Firings(st.jobs, now);
    var log := st.log + fs;
    FiringsAre(st.jobs, st.next, now);
    forall a, b | 0 <= a < b < |log| && log[a].uid == log[b].uid
      ensures log[a].kind == Every && log[b].kind == Every && log[a].interval == log[b].interval
              && log[a].time + log[a].interval <= log[b].time
    {
      if b < |st.log| {
        assert log[a] == st.log[a] && log[b] == st.log[b];
      } else {
        assert log[b] in fs;
        var i :| FiredBy(st.jobs, now, log[b], i);
        if a < |st.log| {
          assert Good(st.jobs[i], st.log) && log[a] in st.log;
        }
      }
    }
  }

  predicate SurvivedFrom(ts: seq<Tracked>, now: int, p: Tracked, i: int) {
    0 <= i < |ts| && p in Survivors(ts[i], now)
  }

  lemma {:induction false} SurvivorsOne(t: Tracked, now: int)
    ensures |Survivors(t, now)| <= 1 && forall p :: p in Survivors(t, now) ==> p.uid == t.uid
  {
  }

  /** Each survivor is one of the jobs, fired now if it was due. */
  lemma {:induction false} PassTrackedAre(ts: seq<Tracked>, now: int)
    ensures |PassTracked(ts, now)| <= |ts|
    ensures forall p :: p in PassTracked(ts, now) ==> exists i :: SurvivedFrom(ts, now, p, i)
  {
    hide Survivors;
    if ts != [] {
      var n := |ts| - 1;
      PassTrackedAre(ts[..n], now);
      SurvivorsOne(ts[n], now);
      forall p | p in PassTracked(ts, now) ensures exists i :: SurvivedFrom(ts, now, p, i) {
        if p in PassTracked(ts[..n], now) {
          var i :| SurvivedFrom(ts[..n], now, p, i);
          assert SurvivedFrom(ts, now, p, i);
        } else {
          assert SurvivedFrom(ts, now, p, n);
        }
      }
    }
  }

  /** No number is given twice. */
  lemma {:induction false} PassNumbered(ts: seq<Tracked>, next: nat, now: int)
    requires Numbered(ts, next)
    ensures Numbered(PassTracked(ts, now), next)
  {
    hide Survivors;
    if ts != [] {
      var n := |ts| - 1;
      PassNumbered(ts[..n], next, now);
      SurvivorsOne(ts[n], now);
      var ps, all := PassTracked(ts[..n], now), PassTracked(ts, now);
      PassTrackedAre(ts[..n], now);
      forall a | 0 <= a < |ps| ensures ps[a].uid != ts[n].uid {
        assert ps[a] in ps;
        var i :| SurvivedFrom(ts[..n], now, ps[a], i);
        SurvivorsOne(ts[i], now);
      }
      forall a | 0 <= a < |all| ensures all[a].uid == if a < |ps| then ps[a].uid else ts[n].uid {
        if a >= |ps| { assert all[a] in Survivors(ts[n], now); }
      }
    }
  }

  lemma {:induction false} PassGood(st: State, now: int, i: nat, p: Tracked)
    requires Inv(st) && i < |st.jobs| && p in Survivors(st.jobs[i], now)
    ensures Good(p, st.log + Firings(st.jobs, now))
  {
    hide Addressed;
    var t, fs := st.jobs[i], Firings(st.jobs, now);
    assert Good(t, st.log);
    assert p.uid == t.uid && p.job.channel == t.job.channel && p.job.chatId == t.job.chatId;
    assert Addressed(p.job) by { AddressedSame(t.job, p.job); }
    FiringsAre(st.jobs, st.next, now);
    forall f | f in st.log + fs && f.uid == p.uid
      ensures f.kind == p.job.kind && f.interval == p.job.interval && f.time <= p.job.lastRun && 0 < p.job.lastRun
    {
      if f in fs {
        var j :| FiredBy(st.jobs, now, f, j);
        assert i == j;
      }
    }
  }

  lemma {:induction false} AddressedSame(a: Job, b: Job)
    requires Addressed(a) && a.channel == b.channel && a.chatId == b.chatId
    ensures Addressed(b)
  {
  }

  lemma {:induction false} PassInv(st: State, now: int)
    requires Inv(st)
    ensures Inv(Step(st, PassAt(now)))
  {
    hide Good;
    var st' := Step(st, PassAt(now));
    PassTrackedAre(st.jobs, now);
    PassNumbered(st.jobs, st.next, now);
    PassSpaced(st, now);
    FiringsAre(st.jobs, st.next, now);
    forall f | f in st'.log ensures f.uid < st'.next {
      if f !in st.log {
        var i :| FiredBy(st.jobs, now, f, i);
      }
    }
    forall k | 0 <= k < |st'.jobs| ensures Good(st'.jobs[k], st'.log) {
      assert st'.jobs[k] in st'.jobs;
      var i :| SurvivedFrom(st.jobs, now, st'.jobs[k], i);
      PassGood(st, now, i, st'.jobs[k]);
    }
  }

  lemma {:induction false} AddInv(st: State, job: Job, id: string, now: int)
    requires Inv(st)
    ensures Inv(Step(st, Add(job, id, now)))
  {
    hide Sanitize;
    SanitizedIsAddressed(job.(id := id));
    var st' := Step(st, Add(job, id, now));
    var s := Sanitize(job.(id := id));
    assert Addressed(Prepared(job, id, now)) by { AddressedSame(s, Prepared(job, id, now)); }
    forall k | 0 <= k < |st'.jobs| ensures Good(st'.jobs[k], st'.log) {
      if k < |st.jobs| { assert Good(st.jobs[k], st.log); }
    }
  }

  lemma {:induction false} StartInv(st: State, now: int)
    requires Inv(st)
    ensures Inv(Step(st, StartAt(now)))
  {
    var st' := Step(st, StartAt(now));
    forall k | 0 <= k < |st'.jobs| ensures Good(st'.jobs[k], st'.log) {
      assert Good(st.jobs[k], st.log);
      AddressedSame(st.jobs[k].job, st'.jobs[k].job);
    }
  }

  /** Every step keeps the invariant. */
  lemma {:induction false} StepInv(st: State, ev: Event)
    requires Inv(st)
    ensures Inv(Step(st, ev))
  {
    match ev
    case PassAt(now) => PassInv(st, now);
    case Add(job, id, now) => AddInv(st, job, id, now);
    case Remove(id) =>
    case StartAt(now) => StartInv(st, now);
  }

  /**
    Over any run: at most 16 jobs, all of them deliverable; a one-shot job fires at most once; two
    firings of a recurring job are at least its interval apart.
    */
  lemma {:induction false} RunInv(st: State, evs: seq<Event>)
    requires Inv(st)
    ensures Inv(Run(st, evs))
    decreases |evs|
  {
    if evs != [] {
      StepInv(st, evs[0]);
      RunInv(Step(st, evs[0]), evs[1..]);
    }
  }

  lemma {:induction false} AnyRun(evs: seq<Event>)
    ensures var st := Run(START, evs);
      && |st.jobs| <= MAX_JOBS && (forall t :: t in st.jobs ==> Addressed(t.job))
      && Spaced(st.log)
  {
    RunInv(START, evs);
    var st := Run(START, evs);
    forall t | t in st.jobs ensures Addressed(t.job) {
      var i :| 0 <= i < |st.jobs| && st.jobs[i] == t;
      assert Good(st.jobs[i], st.log);
    }
  }
}
