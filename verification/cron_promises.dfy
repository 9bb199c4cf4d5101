/** What whoever adds a job can count on: when it fires and what is pushed, in terms of the request alone. */
module CronPromises {
  import opened Basics
  import opened Cron
  import opened CronRuns

  /** A job as it was handed in, and when. */
  datatype Request = Request(job: Job, at: int)

  /** The accepted requests of a run; request `n` is the job with number `n`. */
  function Requests(st: State, evs: seq<Event>): seq<Request>
    decreases |evs|
  {
    if evs == [] then [] else Accepted(st, evs[0]) + Requests(Step(st, evs[0]), evs[1..])
  }

  function Accepted(st: State, ev: Event): seq<Request> {
    if ev.Add? && |st.jobs| < MAX_JOBS then [Request(ev.job, ev.now)] else []
  }

  /** The time of the first firing: none for a one-shot job whose time has passed. */
  function FirstRun(r: Request): Option<int> {
    if r.job.kind == Every then Some(r.at + r.job.interval)
    else if r.at < r.job.atEpoch then Some(r.job.atEpoch)
    else None
  }

  /** The pushed message: the job's text to the job's own channel and chat, or to a fallback where these name nobody. */
  predicate Delivers(m: Message, job: Job) {
    && m.content == job.message
    && (job.channel == "telegram" && (job.chatId == "" || job.chatId == "cron") ==> m.channel == "system" && m.chatId == "cron")
    && (job.channel == "telegram" && job.chatId != "" && job.chatId != "cron" ==> m.channel == "telegram" && m.chatId == job.chatId)
    && (job.channel != "telegram" ==> m.channel == (if job.channel == "" then "system" else job.channel))
    && (job.channel != "telegram" ==> m.chatId == (if job.chatId == "" then "cron" else job.chatId))
  }

  /** The job in the table is the requested one; as long as it has not fired, it waits for its first run. */
  ghost predicate Waits(job: Job, r: Request) {
    && job.kind == r.job.kind && job.interval == r.job.interval && job.atEpoch == r.job.atEpoch
    && job.deleteAfterRun == r.job.deleteAfterRun && Delivers(MessageOf(job), r.job)
    && (FirstRun(r) == None ==> !job.enabled)
    && (FirstRun(r).Some? && job.nextRun > 0 ==> FirstRun(r).value <= job.nextRun)
    && (FirstRun(r).Some? && FirstRun(r).value > 0 && job.lastRun == 0 ==> job.enabled && job.nextRun == FirstRun(r).value)
  }

  /** No firing before the first run, and the right message. */
  ghost predicate Keeps(f: Firing, r: Request) {
    FirstRun(r).Some? && FirstRun(r).value <= f.time && Delivers(f.message, r.job)
  }

  ghost predicate HasFired(uid: nat, log: seq<Firing>) { exists k :: 0 <= k < |log| && log[k].uid == uid }

  ghost predicate Promised(st: State, rs: seq<Request>) {
    && st.next == |rs|
    && (forall i :: 0 <= i < |st.jobs| ==>
          && st.jobs[i].uid < |rs| && Waits(st.jobs[i].job, rs[st.jobs[i].uid])
          && (st.jobs[i].job.lastRun != 0 ==> HasFired(st.jobs[i].uid, st.log)))
    && forall k :: 0 <= k < |st.log| ==> st.log[k].uid < |rs| && Keeps(st.log[k], rs[st.log[k].uid])
  }

  // ---------------------------------------------------------------------------------------------
  // One job

  lemma {:induction false} SanitizeDelivers(job: Job)
    ensures Delivers(MessageOf(Sanitize(job)), job)
    ensures Sanitize(job).(channel := job.channel, chatId := job.chatId) == job
  {
    assert "system"[0] != "telegram"[0];
  }

  lemma {:induction false} PreparedWaits(job: Job, id: string, now: int)
    ensures Waits(Prepared(job, id, now), Request(job, now)) && Prepared(job, id, now).lastRun == 0
  {
    hide Sanitize, Delivers;
    SanitizeDelivers(job.(id := id));
    assert Delivers(MessageOf(Sanitize(job.(id := id))), job) by { SameRequest(MessageOf(Sanitize(job.(id := id))), job, id); }
  }

  lemma {:induction false} SameRequest(m: Message, job: Job, id: string)
    ensures Delivers(m, job.(id := id)) == Delivers(m, job)
  {
  }

  lemma {:induction false} RestartedWaits(job: Job, now: int, r: Request)
    requires Waits(job, r) && Rested(job)
    ensures Waits(Restarted(job, now), r) && Restarted(job, now).lastRun == job.lastRun
  {
  }

  lemma {:induction false} SurvivorWaits(t: Tracked, now: int, p: Tracked, r: Request)
    requires Waits(t.job, r) && p in Survivors(t, now)
    ensures p.uid == t.uid && Waits(p.job, r)
    ensures if Due(t.job, now) then p.job.lastRun == now else p == t
  {
  }

  lemma {:induction false} DueKeeps(t: Tracked, now: int, r: Request)
    requires Waits(t.job, r) && Due(t.job, now)
    ensures Keeps(FiringOf(t, now), r)
  {
  }

  // ---------------------------------------------------------------------------------------------
  // Steps and runs

  lemma {:induction false} DueFires(ts: seq<Tracked>, now: int, i: nat)
    requires i < |ts| && Due(ts[i].job, now)
    ensures FiringOf(ts[i], now) in Firings(ts, now)
  {
    var n := |ts| - 1;
    if i < n { DueFires(ts[..n], now, i); }
  }

  lemma {:induction false} FiredMore(uid: nat, log: seq<Firing>, fs: seq<Firing>)
    requires HasFired(uid, log) || exists f :: f in fs && f.uid == uid
    ensures HasFired(uid, log + fs)
  {
    if HasFired(uid, log) {
      var k :| 0 <= k < |log| && log[k].uid == uid;
      assert (log + fs)[k].uid == uid;
    } else {
      var f :| f in fs && f.uid == uid;
      var k :| 0 <= k < |fs| && fs[k] == f;
      assert (log + fs)[|log| + k].uid == uid;
    }
  }

  lemma {:induction false} PassPromised(st: State, now: int, rs: seq<Request>)
    requires Inv(st) && Promised(st, rs)
    ensures Promised(Step(st, PassAt(now)), rs)
  {
    hide Waits, Keeps, Survivors, HasFired, Due;
    var st' := Step(st, PassAt(now));
    var fs := Firings(st.jobs, now);
    PassTrackedAre(st.jobs, now);
    FiringsAre(st.jobs, st.next, now);
    forall i | 0 <= i < |st'.jobs|
      ensures st'.jobs[i].uid < |rs| && Waits(st'.jobs[i].job, rs[st'.jobs[i].uid])
              && (st'.jobs[i].job.lastRun != 0 ==> HasFired(st'.jobs[i].uid, st'.log))
    {
      assert st'.jobs[i] in st'.jobs;
      var j :| SurvivedFrom(st.jobs, now, st'.jobs[i], j);
      SurvivorWaits(st.jobs[j], now, st'.jobs[i], rs[st.jobs[j].uid]);
      if Due(st.jobs[j].job, now) { DueFires(st.jobs, now, j); }
      if st'.jobs[i].job.lastRun != 0 { FiredMore(st'.jobs[i].uid, st.log, fs); }
    }
    forall k | 0 <= k < |st'.log| ensures st'.log[k].uid < |rs| && Keeps(st'.log[k], rs[st'.log[k].uid]) {
      if k >= |st.log| {
        assert st'.log[k] in fs;
        var i :| FiredBy(st.jobs, now, st'.log[k], i);
        DueKeeps(st.jobs[i], now, rs[st.jobs[i].uid]);
      }
    }
  }

  lemma {:induction false} StepPromised(st: State, ev: Event, rs: seq<Request>)
    requires Inv(st) && Promised(st, rs)
    ensures Promised(Step(st, ev), rs + Accepted(st, ev))
  {
    hide Waits, Keeps, HasFired;
    assert rs + [] == rs;
    match ev
    case PassAt(now) => PassPromised(st, now, rs);
    case Add(job, id, now) => PreparedWaits(job, id, now);
    case Remove(id) =>
    case StartAt(now) =>
      forall i | 0 <= i < |st.jobs| ensures var t := Step(st, ev).jobs[i]; Waits(t.job, rs[t.uid]) && t.job.lastRun == st.jobs[i].job.lastRun {
        assert Good(st.jobs[i], st.log);
        RestartedWaits(st.jobs[i].job, now, rs[st.jobs[i].uid]);
      }
  }

  lemma {:induction false} RunPromised(st: State, evs: seq<Event>, rs: seq<Request>)
    requires Inv(st) && Promised(st, rs)
    ensures Promised(Run(st, evs), rs + Requests(st, evs))
    decreases |evs|
  {
    hide Promised, Inv, Step, Accepted;
    if evs == [] {
      assert rs + [] == rs;
    } else {
      StepInv(st, evs[0]);
      StepPromised(st, evs[0], rs);
      RunPromised(Step(st, evs[0]), evs[1..], rs + Accepted(st, evs[0]));
      assert rs + Accepted(st, evs[0]) + Requests(Step(st, evs[0]), evs[1..]) == rs + Requests(st, evs);
    }
  }

  /**
    Over any run: a one-shot job never fires before its time, nor at all if that had passed when it was
    added; a recurring job first fires a full interval after it was added; every firing pushes the job's
    own message to the job's own destination.
    */
  lemma {:induction false} FiringsKeepPromises(evs: seq<Event>)
    ensures var log, rs := Run(START, evs).log, Requests(START, evs);
      forall k :: 0 <= k < |log| ==>
        && log[k].uid < |rs| && Delivers(log[k].message, rs[log[k].uid].job)
        && match rs[log[k].uid]
           case Request(job, at) =>
             if job.kind == Every then at + job.interval <= log[k].time else at < job.atEpoch <= log[k].time
  {
    hide Delivers, Waits;
    RunPromised(START, evs, []);
    assert [] + Requests(START, evs) == Requests(START, evs);
    var log, rs := Run(START, evs).log, Requests(START, evs);
    forall k | 0 <= k < |log| ensures log[k].uid < |rs| && Keeps(log[k], rs[log[k].uid]) { }
  }

  /** And no job is forgotten: after a pass, every job still in the table whose first run has come has fired. */
  lemma {:induction false} DueJobsHaveFired(evs: seq<Event>, now: int, t: Tracked)
    requires t in Run(START, evs + [PassAt(now)]).jobs
    ensures var rs := Requests(START, evs + [PassAt(now)]);
      && t.uid < |rs|
      && var job, at := rs[t.uid].job, rs[t.uid].at;
         var first := if job.kind == Every then at + job.interval else job.atEpoch;
         0 < first <= now && (job.kind == At ==> at < first) ==> HasFired(t.uid, Run(START, evs + [PassAt(now)]).log)
  {
    var st, st', rs := Run(START, evs), Run(START, evs + [PassAt(now)]), Requests(START, evs + [PassAt(now)]);
    assert Promised(START, []);
    hide Delivers, Promised, HasFired;
    RunPromised(START, evs + [PassAt(now)], []);
    assert [] + rs == rs;
    RunMore(START, evs, PassAt(now));
    NotDueAfterPass(st, now, t, rs);
  }

  lemma {:induction false} RunMore(st: State, evs: seq<Event>, ev: Event)
    ensures Run(st, evs + [ev]) == Step(Run(st, evs), ev)
    decreases |evs|
  {
    hide Step;
    if evs == [] {
      assert ([] + [ev])[1..] == [];
      assert Run(st, [ev]) == Run(Step(st, ev), []);
    } else {
      RunMore(Step(st, evs[0]), evs[1..], ev);
      assert (evs + [ev])[1..] == evs[1..] + [ev];
    }
  }

  lemma {:induction false} NotDueAfterPass(st: State, now: int, t: Tracked, rs: seq<Request>)
    requires Promised(Step(st, PassAt(now)), rs) && t in Step(st, PassAt(now)).jobs
    ensures t.uid < |rs|
    ensures FirstRun(rs[t.uid]).Some? && 0 < FirstRun(rs[t.uid]).value <= now ==> HasFired(t.uid, Step(st, PassAt(now)).log)
  {
    hide HasFired;
    var st' := Step(st, PassAt(now));
    PassTrackedAre(st.jobs, now);
    var i :| 0 <= i < |st'.jobs| && st'.jobs[i] == t;
    var j :| SurvivedFrom(st.jobs, now, t, j);
    assert Waits(t.job, rs[t.uid]);
  }

  /** The firings of a pass are the messages it pushes. */
  lemma {:induction false} FiringsArePushes(ts: seq<Tracked>, now: int)
    ensures |Firings(ts, now)| == |Pushes(Jobs(ts), now)|
    ensures forall k :: 0 <= k < |Firings(ts, now)| ==> Firings(ts, now)[k].message == Pushes(Jobs(ts), now)[k]
  {
    if ts != [] {
      FiringsArePushes(ts[..|ts| - 1], now);
      assert Jobs(ts)[..|ts| - 1] == Jobs(ts[..|ts| - 1]);
    }
  }
}
