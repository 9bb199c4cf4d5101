/** The cron job table: firing due jobs with deletion during the scan, and what holds over whole runs. */
module Cron {
  import opened Basics

  const MAX_JOBS := 16

  datatype Kind = Every | At

  datatype Job = Job(id: string, name: string, enabled: bool, kind: Kind, interval: nat, atEpoch: int,
                     message: string, channel: string, chatId: string, lastRun: int, nextRun: int,
                     deleteAfterRun: bool)

  datatype Message = Message(channel: string, chatId: string, content: string)

  // ---------------------------------------------------------------------------------------------
  // One pass over the table

  predicate Due(job: Job, now: int) { job.enabled && 0 < job.nextRun <= now }

  /** The job after it fired; None when it is deleted. */
  function Fired(job: Job, now: int): Option<Job> {
    if job.kind == Every then Some(job.(lastRun := now, nextRun := now + job.interval))
    else if job.deleteAfterRun then None
    else Some(job.(lastRun := now, enabled := false, nextRun := 0))
  }

  function AfterPass(job: Job, now: int): seq<Job> {
    if !Due(job, now) then [job] else if Fired(job, now).Some? then [Fired(job, now).value] else []
  }

  /** The table after a pass: survivors in their order. */
  function Pass(jobs: seq<Job>, now: int): seq<Job> {
    if jobs == [] then [] else Pass(jobs[..|jobs| - 1], now) + AfterPass(jobs[|jobs| - 1], now)
  }

  function MessageOf(job: Job): Message { Message(job.channel, job.chatId, job.message) }

  /** One message for every job due at the start of the pass, in table order. */
  function Pushes(jobs: seq<Job>, now: int): seq<Message> {
    if jobs == [] then []
    else
      Pushes(jobs[..|jobs| - 1], now)
      + (if Due(jobs[|jobs| - 1], now) then [MessageOf(jobs[|jobs| - 1])] else [])
  }

  // ---------------------------------------------------------------------------------------------
  // Adding, removing, starting

  function Sanitize(job: Job): Job {
    var j := if job.channel == "" then job.(channel := "system") else job;
    if j.channel == "telegram" then
      if j.chatId == "" || j.chatId == "cron" then j.(channel := "system", chatId := "cron") else j
    else if j.chatId == "" then j.(chatId := "cron")
    else j
  }

  /** The job can be delivered: it has a destination, and telegram jobs have a real chat. */
  predicate Addressed(job: Job) {
    job.channel != "" && job.chatId != "" && !(job.channel == "telegram" && job.chatId == "cron")
  }

  lemma {:induction false} SanitizedIsAddressed(job: Job)
    ensures Addressed(Sanitize(job))
    ensures Addressed(job) ==> Sanitize(job) == job
  {
    assert "system"[0] != "telegram"[0];
  }

  function InitialRun(job: Job, now: int): Job {
    if job.kind == Every then job.(nextRun := now + job.interval)
    else if job.atEpoch > now then job.(nextRun := job.atEpoch)
    else job.(nextRun := 0, enabled := false)
  }

  function Prepared(job: Job, id: string, now: int): Job {
    InitialRun(Sanitize(job.(id := id)).(enabled := true, lastRun := 0), now)
  }

  function IndexOfId(jobs: seq<Job>, id: string): (k: nat)
    ensures k <= |jobs| && (k < |jobs| ==> jobs[k].id == id) && forall i :: 0 <= i < k ==> jobs[i].id != id
  {
    if jobs == [] || jobs[0].id == id then 0 else 1 + IndexOfId(jobs[1..], id)
  }

  function Without(jobs: seq<Job>, k: nat): seq<Job>
    requires k < |jobs|
  {
    jobs[..k] + jobs[k + 1..]
  }

  function Restarted(job: Job, now: int): Job {
    if job.enabled && job.nextRun <= 0 then
      if job.kind == Every then job.(nextRun := now + job.interval)
      else if job.atEpoch > now then job.(nextRun := job.atEpoch)
      else job
    else job
  }

  function RestartAll(jobs: seq<Job>, now: int): (r: seq<Job>)
    ensures |r| == |jobs| && forall i :: 0 <= i < |r| ==> r[i] == Restarted(jobs[i], now)
  {
    seq(|jobs|, i requires 0 <= i < |jobs| => Restarted(jobs[i], now))
  }

  // ---------------------------------------------------------------------------------------------
  // The scan: `i` is the position in the changing table, `k` the position in the table at its start

  ghost predicate Scanning(all: seq<Job>, cur: seq<Job>, i: nat, k: nat, now: int, pushed: seq<Message>) {
    && i <= |cur| && k <= |all| && cur[..i] == Pass(all[..k], now) && cur[i..] == all[k..]
    && pushed == Pushes(all[..k], now)
  }

  /** The table after looking at entry `i`. */
  function Scanned(cur: seq<Job>, i: nat, now: int): seq<Job>
    requires i < |cur|
  {
    if !Due(cur[i], now) then cur
    else if Fired(cur[i], now).Some? then cur[i := Fired(cur[i], now).value]
    else Without(cur, i)
  }

  lemma {:induction false} ScanStep(all: seq<Job>, cur: seq<Job>, i: nat, k: nat, now: int, pushed: seq<Message>)
    requires Scanning(all, cur, i, k, now, pushed) && i < |cur|
    ensures var cur', i' := Scanned(cur, i, now), if Due(cur[i], now) && Fired(cur[i], now).None? then i else i + 1;
            var pushed' := if Due(cur[i], now) then pushed + [MessageOf(cur[i])] else pushed;
            k < |all| && Scanning(all, cur', i', k + 1, now, pushed') && |cur'| - i' == |cur| - i - 1
  {
    hide Fired, Due;
    assert cur[i..][0] == cur[i] && all[k..][0] == all[k];
    assert all[..k + 1][..k] == all[..k];
    var cur' := Scanned(cur, i, now);
    assert cur[i..][1..] == all[k..][1..];
    assert all[k..][1..] == all[k + 1..] && cur[i..][1..] == cur[i + 1..];
    if |cur'| == |cur| {
      assert cur'[..i + 1] == cur[..i] + [cur'[i]];
      assert cur'[i + 1..] == cur[i + 1..];
    } else {
      assert cur'[..i] == cur[..i] && cur'[i..] == cur[i + 1..];
    }
  }

  // ---------------------------------------------------------------------------------------------
  // The table in place

  datatype AddResult = Added | Full

  class Table {
    const jobs: array<Job>
    var count: nat

    ghost predicate Valid()
      reads this
    {
      jobs.Length == MAX_JOBS && count <= MAX_JOBS
    }

    ghost function Contents(): seq<Job>
      requires Valid()
      reads this, jobs
    {
      jobs[..count]
    }

    constructor (blank: Job)
      ensures Valid() && Contents() == [] && fresh(jobs)
    {
      jobs := new Job[MAX_JOBS](_ => blank);
      count := 0;
    }

    /** Removes entry `k` by shifting the later ones down. */
    method Delete(k: nat)
      requires Valid() && k < count
      modifies this`count, jobs
      ensures Valid() && count == old(count) - 1 && Contents() == Without(old(Contents()), k)
    {
      for j := k to count - 1
        invariant count == old(count)
        invariant forall i :: 0 <= i < k ==> jobs[i] == old(jobs[i])
        invariant forall i :: k <= i < j ==> jobs[i] == old(jobs[i + 1])
        invariant forall i :: j <= i < count ==> jobs[i] == old(jobs[i])
      {
        jobs[j] := jobs[j + 1];
      }
      count := count - 1;
    }

    /** Fires every due job once; jobs are deleted while the scan goes on. */
    method ProcessDueJobs(now: int) returns (pushed: seq<Message>)
      requires Valid()
      modifies this`count, jobs
      ensures Valid() && Contents() == Pass(old(Contents()), now) && pushed == Pushes(old(Contents()), now)
    {
      pushed := [];
      ghost var all, k := Contents(), 0;
      var i := 0;
      while i < count
        invariant Valid() && Scanning(all, Contents(), i, k, now, pushed)
        decreases |all| - k
      {
        var job := jobs[i];
        ghost var before := Contents();
        ScanStep(all, before, i, k, now, pushed);
        k := k + 1;
        if !Due(job, now) {
          i := i + 1;
          continue;
        }
        pushed := pushed + [MessageOf(job)];
        if job.kind == At && job.deleteAfterRun {
          Delete(i);
        } else {
          jobs[i] := Fired(job, now).value;
          i := i + 1;
          assert Contents() == Scanned(before, i - 1, now);
        }
      }
      assert k == |all| by { assert |Contents()[i..]| == |all[k..]|; }
      assert all[..k] == all && Contents()[..i] == Contents();
    }

    method AddJob(job: Job, id: string, now: int) returns (r: AddResult)
      requires Valid()
      modifies this`count, jobs
      ensures Valid() && (r == Full <==> old(count) == MAX_JOBS)
      ensures Contents() == if r == Full then old(Contents()) else old(Contents()) + [Prepared(job, id, now)]
    {
      if count >= MAX_JOBS { return Full; }
      jobs[count] := Prepared(job, id, now);
      count := count + 1;
      return Added;
    }

    method RemoveJob(id: string) returns (found: bool)
      requires Valid()
      modifies this`count, jobs
      ensures Valid()
      ensures found <==> id != "" && exists j :: j in old(Contents()) && j.id == id
      ensures Contents() == if found then Without(old(Contents()), IndexOfId(old(Contents()), id)) else old(Contents())
    {
      if id == "" { return false; }
      for i := 0 to count
        invariant Valid() && unchanged(this) && unchanged(jobs)
        invariant forall j :: 0 <= j < i ==> jobs[j].id != id
      {
        if jobs[i].id == id {
          assert Contents()[i].id == id;
          assert IndexOfId(Contents(), id) == i;
          Delete(i);
          return true;
        }
      }
      return false;
    }

    method Start(now: int)
      requires Valid()
      modifies jobs
      ensures Valid() && count == old(count)
      ensures Contents() == RestartAll(old(Contents()), now)
    {
      for i := 0 to count
        invariant forall j :: 0 <= j < i ==> jobs[j] == Restarted(old(jobs[j]), now)
        invariant forall j :: i <= j < count ==> jobs[j] == old(jobs[j])
      {
        jobs[i] := Restarted(jobs[i], now);
      }
    }
  }

  // ---------------------------------------------------------------------------------------------
  // What a pass does to each job

  ghost predicate Increasing(at: seq<nat>, n: nat) {
    (forall k :: 0 <= k < |at| ==> at[k] < n) && forall k, l :: 0 <= k < l < |at| ==> at[k] < at[l]
  }

  /** The positions whose job passes `keep`, in order. */
  ghost function Where(jobs: seq<Job>, keep: Job -> bool): (at: seq<nat>)
    ensures Increasing(at, |jobs|)
    ensures forall i :: 0 <= i < |jobs| ==> (i in at <==> keep(jobs[i]))
  {
    if jobs == [] then [] else
    var n, at := |jobs| - 1, Where(jobs[..|jobs| - 1], keep);
    assert forall i :: 0 <= i < n ==> jobs[..n][i] == jobs[i];
    if keep(jobs[n]) then at + [n] else at
  }

  /** A pass pushes for exactly the due positions, each once and in table order. */
  lemma {:induction false} PushesInOrder(jobs: seq<Job>, now: int)
    ensures var at := Where(jobs, (j: Job) => Due(j, now));
            |Pushes(jobs, now)| == |at| && forall k :: 0 <= k < |at| ==> Pushes(jobs, now)[k] == MessageOf(jobs[at[k]])
  {
    if jobs != [] {
      PushesInOrder(jobs[..|jobs| - 1], now);
    }
  }

  predicate Dropped(job: Job, now: int) { Due(job, now) && job.kind == At && job.deleteAfterRun }

  lemma {:induction false} AfterPassSize(job: Job, now: int)
    ensures |AfterPass(job, now)| == if Dropped(job, now) then 0 else 1
  {
  }

  /** It drops exactly the due one-shot jobs marked for deletion; the others keep their order. */
  lemma {:induction false} SurvivorsInOrder(jobs: seq<Job>, now: int)
    ensures |Pass(jobs, now)| == |Where(jobs, (j: Job) => !Dropped(j, now))|
    ensures forall k :: 0 <= k < |Pass(jobs, now)| ==>
              [Pass(jobs, now)[k]] == AfterPass(jobs[Where(jobs, (j: Job) => !Dropped(j, now))[k]], now)
  {
    hide AfterPass, Dropped;
    if jobs != [] {
      var n := |jobs| - 1;
      SurvivorsInOrder(jobs[..n], now);
      AfterPassSize(jobs[n], now);
    }
  }
}
