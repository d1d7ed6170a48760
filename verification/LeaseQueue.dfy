/**
 * The job queues: email outbox, invoice jobs and WhatsApp jobs. A worker claims a row with a fresh
 * token and a lease of ten minutes; a row is settled only by whoever still holds its token.
 */
module LeaseQueue {
  import opened Prelude
  import opened Webhooks

  type Id = nat
  type Token = nat
  type Worker = nat

  datatype Kind = InvoiceJobs | EmailOutbox | WhatsAppJobs

  /** mark is lease_until for invoice and WhatsApp jobs and claimed_at for emails. Times are seconds. */
  datatype Job = Job(status: Status, attempts: nat, nextAttempt: Option<int>, mark: Option<int>, token: Option<Token>)

  const LEASE: int := 600
  const NewJob := Job(Pending, 0, None, None, None)

  function MarkAt(kind: Kind, now: int): int {
    if kind == EmailOutbox then now else now + LEASE
  }

  predicate LeaseExpired(kind: Kind, job: Job, now: int) {
    job.mark.Some? && (if kind == EmailOutbox then job.mark.value < now - LEASE else job.mark.value < now)
  }

  predicate Due(job: Job, now: int) {
    job.nextAttempt.None? || job.nextAttempt.value <= now
  }

  predicate Claimable(kind: Kind, job: Job, now: int) {
    (job.status == Pending && Due(job, now)) || (job.status == Processing && LeaseExpired(kind, job, now))
  }

  function Claimed(kind: Kind, job: Job, now: int, token: Token): Job {
    job.(status := Processing, mark := Some(MarkAt(kind, now)), token := Some(token))
  }

  /** min(60, 2 ** attempts) minutes. */
  function Backoff(attempts: nat): int {
    60 * Minimum(60, Power2(attempts))
  }

  /** The row test of a finish: the token, and for emails also the status. */
  predicate Holds(kind: Kind, job: Job, token: Token) {
    job.token == Some(token) && (kind == EmailOutbox ==> job.status == Processing)
  }

  /** What a worker reports: emails and invoices succeed or fail; a WhatsApp send ends in a status, retryable or not. */
  datatype Outcome = Success | Error | Final(status: Status, retryable: bool)

  predicate Fits(kind: Kind, outcome: Outcome) {
    if kind == WhatsAppJobs then outcome.Final? && outcome.status in {Accepted, Failed, Unknown}
    else outcome.Success? || outcome.Error?
  }

  function Retried(job: Job, now: int): Job {
    job.(status := Pending, attempts := job.attempts + 1, nextAttempt := Some(now + Backoff(job.attempts + 1)),
         mark := None, token := None)
  }

  function Settled(kind: Kind, max: nat, job: Job, now: int, outcome: Outcome): Job
    requires Fits(kind, outcome)
  {
    var tried := job.attempts + 1;
    match outcome
    case Success =>
      job.(status := if kind == EmailOutbox then Sent else Ready, mark := None, token := None)
    case Error =>
      if tried >= max then
        job.(status := Failed, attempts := tried, nextAttempt := None, mark := None, token := None)
      else Retried(job, now)
    case Final(status, retryable) =>
      if retryable && tried < max then Retried(job, now)
      else job.(status := status, attempts := tried, nextAttempt := None, mark := None, token := None)
  }

  /**
   * What a finish makes of a row: the claim is given up; a success is final; anything else costs an attempt, and
   * is tried again after its delay while it may be, and otherwise ends in failure or in the status sent back.
   */
  predicate IsOutcome(kind: Kind, max: nat, before: Job, after: Job, now: int, outcome: Outcome) {
    && after.mark.None? && after.token.None?
    && match outcome
       case Success =>
         && after.attempts == before.attempts && after.nextAttempt == before.nextAttempt
         && after.status == (if kind == EmailOutbox then Sent else Ready)
       case Error =>
         && after.attempts == before.attempts + 1
         && (if after.attempts < max then after.status == Pending && after.nextAttempt == Some(now + Backoff(after.attempts))
             else after.status == Failed && after.nextAttempt == None)
       case Final(status, retryable) =>
         && after.attempts == before.attempts + 1
         && (if retryable && after.attempts < max then after.status == Pending && after.nextAttempt == Some(now + Backoff(after.attempts))
             else after.status == status && after.nextAttempt == None)
  }

  /** The delays in seconds: two minutes after the first failure, doubling up to an hour. */
  lemma BackoffIs(attempts: nat)
    requires attempts >= 1
    ensures Backoff(attempts) == if attempts == 1 then 120 else if attempts == 2 then 240 else if attempts == 3 then 480
      else if attempts == 4 then 960 else if attempts == 5 then 1920 else 3600
  {
    assert Power2(2) == 4 && Power2(3) == 8;
    assert Power2(4) == 16 && Power2(5) == 32;
    if attempts >= 6 { Power2Grows(6, attempts); }
  }

  lemma {:induction false} Power2Grows(m: nat, n: nat)
    requires m <= n
    ensures Power2(m) <= Power2(n)
  {
    if m < n { Power2Grows(m, n - 1); }
  }

  function Deferred(job: Job, now: int): Job {
    job.(status := Pending, nextAttempt := Some(now + 5), mark := None, token := None)
  }

  function Restarted(job: Job): Job {
    if job.status == Failed then job.(status := Pending, attempts := 0, nextAttempt := None) else job
  }

  datatype Target = Target(job: Id, token: Token)

  /** The table of one queue, updated in place by its workers. */
  class JobTable {
    const kind: Kind
    const maxAttempts: nat
    var jobs: map<Id, Job>

    constructor (kind: Kind, maxAttempts: nat)
      ensures this.kind == kind && this.maxAttempts == maxAttempts && jobs == map[]
    {
      this.kind, this.maxAttempts, jobs := kind, maxAttempts, map[];
    }

    /** Claims the rows the query selected, giving each a token of its own. */
    method Claim(now: int, rows: seq<Id>, tokens: seq<Token>) returns (targets: seq<Target>)
      requires |rows| == |tokens| && Distinct(rows)
      requires forall i :: 0 <= i < |rows| ==> rows[i] in jobs && Claimable(kind, jobs[rows[i]], now)
      modifies this
      ensures jobs.Keys == old(jobs).Keys
      ensures forall i :: 0 <= i < |rows| ==> jobs[rows[i]] == Claimed(kind, old(jobs)[rows[i]], now, tokens[i])
      ensures forall i :: 0 <= i < |rows| ==>
        && jobs[rows[i]].status == Processing && jobs[rows[i]].token == Some(tokens[i])
        && jobs[rows[i]].mark == Some(if kind == EmailOutbox then now else now + 600)
        && jobs[rows[i]].attempts == old(jobs)[rows[i]].attempts && jobs[rows[i]].nextAttempt == old(jobs)[rows[i]].nextAttempt
      ensures forall id :: id in jobs && id !in rows ==> jobs[id] == old(jobs)[id]
      ensures |targets| == |rows| && forall i :: 0 <= i < |rows| ==> targets[i] == Target(rows[i], tokens[i])
    {
      targets := [];
      for k := 0 to |rows|
        invariant jobs.Keys == old(jobs).Keys
        invariant forall i :: 0 <= i < k ==> jobs[rows[i]] == Claimed(kind, old(jobs)[rows[i]], now, tokens[i])
        invariant forall id :: id in jobs && id !in rows[..k] ==> jobs[id] == old(jobs)[id]
        invariant |targets| == k && forall i :: 0 <= i < k ==> targets[i] == Target(rows[i], tokens[i])
      {
        assert rows[k] !in rows[..k];
        var job := jobs[rows[k]];
        job := job.(status := Processing);
        job := job.(mark := Some(MarkAt(kind, now)));
        job := job.(token := Some(tokens[k]));
        jobs := jobs[rows[k] := job];
        targets := targets + [Target(rows[k], tokens[k])];
      }
    }

    method Finish(target: Target, now: int, outcome: Outcome)
      requires Fits(kind, outcome)
      modifies this
      ensures jobs == if target.job in old(jobs) && Holds(kind, old(jobs)[target.job], target.token)
        then old(jobs)[target.job := Settled(kind, maxAttempts, old(jobs)[target.job], now, outcome)]
        else old(jobs)
      ensures target.job in jobs && Holds(kind, old(jobs)[target.job], target.token) ==>
        IsOutcome(kind, maxAttempts, old(jobs)[target.job], jobs[target.job], now, outcome)
    {
      if target.job !in jobs || jobs[target.job].token != Some(target.token) {
        return;
      }
      var job := jobs[target.job];
      if kind == EmailOutbox && job.status != Processing {
        return;
      }
      job := job.(mark := None, token := None);
      if outcome == Success {
        job := job.(status := if kind == EmailOutbox then Sent else Ready);
      } else {
        job := job.(attempts := job.attempts + 1);
        var retry := if outcome.Final? then outcome.retryable && job.attempts < maxAttempts
                     else !(job.attempts >= maxAttempts);
        if retry {
          job := job.(status := Pending, nextAttempt := Some(now + Backoff(job.attempts)));
        } else {
          job := job.(status := if outcome.Final? then outcome.status else Failed, nextAttempt := None);
        }
      }
      jobs := jobs[target.job := job];
    }

    method Defer(target: Target, now: int)
      modifies this
      ensures jobs == if target.job in old(jobs) && old(jobs)[target.job].token == Some(target.token)
        then old(jobs)[target.job := Deferred(old(jobs)[target.job], now)]
        else old(jobs)
      ensures target.job in jobs && old(jobs)[target.job].token == Some(target.token) ==>
        jobs[target.job] == Job(Pending, old(jobs)[target.job].attempts, Some(now + 5), None, None)
    {
      if target.job in jobs && jobs[target.job].token == Some(target.token) {
        jobs := jobs[target.job := jobs[target.job].(status := Pending, nextAttempt := Some(now + 5), mark := None, token := None)];
      }
    }
  }

  // ---- every interleaving of claims, stalls, expiries and finishes ----

  datatype Event =
    | Claim(job: Id, token: Token, from: int, until: int)
    | Settle(job: Id, token: Token)

  /** deliveries holds the delivery rows' statuses of the WhatsApp queue; workers the targets still in memory. */
  datatype System = System(
    kind: Kind, max: nat, now: int, jobs: map<Id, Job>, deliveries: map<Id, Status>,
    workers: map<Worker, Target>, log: seq<Event>)

  datatype Step =
    | Tick(elapsed: nat)
    | Enqueue(job: Id)
    | Take(worker: Worker, job: Id, token: Token)
    | Finish(worker: Worker, outcome: Outcome)
    | Postpone(worker: Worker)
    | Crash(worker: Worker)
    | Report(job: Id, status: Status)
    | Restart(job: Id)

  predicate FreshToken(log: seq<Event>, token: Token) {
    forall i :: 0 <= i < |log| ==> log[i].token != token
  }

  predicate Enabled(s: System, step: Step) {
    match step
    case Tick(_) => true
    case Enqueue(job) => job !in s.jobs
    case Take(worker, job, token) =>
      worker !in s.workers && job in s.jobs && Claimable(s.kind, s.jobs[job], s.now) && FreshToken(s.log, token)
    case Finish(worker, outcome) => worker in s.workers && Fits(s.kind, outcome)
    case Postpone(worker) => worker in s.workers && s.kind == WhatsAppJobs
    case Crash(worker) => worker in s.workers
    case Report(job, status) => s.kind == WhatsAppJobs && job in s.jobs && job in s.deliveries && Reportable(status)
    case Restart(job) => s.kind == InvoiceJobs && job in s.jobs
  }

  /** The row of a worker's target still carries its token. */
  predicate Current(s: System, target: Target) {
    target.job in s.jobs && Holds(s.kind, s.jobs[target.job], target.token)
  }

  function Released(s: System, target: Target, job: Job): System {
    var status := if s.kind == WhatsAppJobs then s.deliveries[target.job := job.status] else s.deliveries;
    s.(jobs := s.jobs[target.job := job], deliveries := status, log := s.log + [Settle(target.job, target.token)])
  }

  function Apply(s: System, step: Step): System
    requires Enabled(s, step)
  {
    match step
    case Tick(elapsed) => s.(now := s.now + elapsed)
    case Enqueue(job) => s.(jobs := s.jobs[job := NewJob], deliveries := s.deliveries[job := Pending])
    case Take(worker, job, token) =>
      s.(jobs := s.jobs[job := Claimed(s.kind, s.jobs[job], s.now, token)],
         workers := s.workers[worker := Target(job, token)],
         log := s.log + [Claim(job, token, s.now, s.now + LEASE)])
    case Finish(worker, outcome) =>
      var target := s.workers[worker];
      var left := s.(workers := s.workers - {worker});
      if Current(s, target) then Released(left, target, Settled(s.kind, s.max, s.jobs[target.job], s.now, outcome))
      else left
    case Postpone(worker) =>
      var target := s.workers[worker];
      var left := s.(workers := s.workers - {worker});
      if Current(s, target) then
        Released(left, target, Deferred(s.jobs[target.job], s.now)).(deliveries := s.deliveries)
      else left
    case Crash(worker) => s.(workers := s.workers - {worker})
    case Report(job, status) =>
      if Applies(s.deliveries[job], status) then
        s.(deliveries := s.deliveries[job := status], jobs := s.jobs[job := s.jobs[job].(status := status)])
      else s
    case Restart(job) => s.(jobs := s.jobs[job := Restarted(s.jobs[job])])
  }

  function Start(kind: Kind, max: nat): System {
    System(kind, max, 0, map[], map[], map[], [])
  }

  predicate Legal(s: System, steps: seq<Step>)
    decreases |steps|
  {
    steps == [] || (Enabled(s, steps[0]) && Legal(Apply(s, steps[0]), steps[1..]))
  }

  function Run(s: System, steps: seq<Step>): System
    requires Legal(s, steps)
    decreases |steps|
  {
    if steps == [] then s else Run(Apply(s, steps[0]), steps[1..])
  }

  // ---- what the log of a run says ----

  /** The claim at index i is settled somewhere between i and j. */
  predicate SettledBetween(log: seq<Event>, i: nat, j: nat)
    requires i < j <= |log| && log[i].Claim?
  {
    exists k :: i < k < j && log[k] == Settle(log[i].job, log[i].token)
  }

  /** Two leases of one job never overlap: the earlier is settled, or has run out, before the later begins. */
  predicate Exclusive(log: seq<Event>) {
    forall i, j :: 0 <= i < j < |log| && log[i].Claim? && log[j].Claim? && log[i].job == log[j].job ==>
      SettledBetween(log, i, j) || log[i].until < log[j].from
  }

  /** Tokens are never reused, and no token is settled twice. */
  predicate TokensUsedOnce(log: seq<Event>) {
    forall i, j :: 0 <= i < j < |log| && log[i].Claim? == log[j].Claim? ==> log[i].token != log[j].token
  }

  /** Only the latest claim of a job is ever settled. */
  predicate Fenced(log: seq<Event>) {
    forall k :: 0 <= k < |log| && log[k].Settle? ==>
      exists i :: && 0 <= i < k && log[i].Claim? && log[i].job == log[k].job && log[i].token == log[k].token
                  && forall j :: i < j < k && log[j].Claim? ==> log[j].job != log[k].job
  }

  /** The log entry that put the token on the job, with nothing of the job's after it. */
  predicate IsHeldBy(log: seq<Event>, kind: Kind, id: Id, job: Job, i: nat) {
    && i < |log| && log[i].Claim? && log[i].job == id && job.token == Some(log[i].token)
    && job.mark == Some(if kind == EmailOutbox then log[i].until - LEASE else log[i].until)
    && (forall j :: i < j < |log| && log[j].Claim? ==> log[j].job != id)
    && (forall k :: 0 <= k < |log| && log[k].Settle? ==> log[k].token != log[i].token)
  }

  predicate Traced(s: System) {
    && (forall id :: id in s.jobs && s.jobs[id].token.Some? ==>
          exists i :: 0 <= i < |s.log| && IsHeldBy(s.log, s.kind, id, s.jobs[id], i))
    && (forall id :: id in s.jobs ==> (s.jobs[id].token.Some? <==> s.jobs[id].mark.Some?))
    && (forall id :: id in s.jobs && s.kind == WhatsAppJobs ==> id in s.deliveries)
  }

  /** A claim that is neither settled nor run out is the one its job carries. */
  predicate Accounted(s: System) {
    forall i :: 0 <= i < |s.log| && s.log[i].Claim? ==>
      && s.log[i].job in s.jobs && s.log[i].from <= s.now
      && (|| SettledBetween(s.log, i, |s.log|)
          || s.log[i].until < s.now
          || s.jobs[s.log[i].job].token == Some(s.log[i].token))
  }

  /** Workers hold distinct tokens, each taken from a claim of that job. */
  predicate WorkersDistinct(s: System) {
    && (forall v, w :: v in s.workers && w in s.workers && v != w ==> s.workers[v].token != s.workers[w].token)
    && (forall w :: w in s.workers ==>
          exists i :: 0 <= i < |s.log| && s.log[i].Claim? && s.log[i].job == s.workers[w].job && s.log[i].token == s.workers[w].token)
  }

  /** Emails and invoices: processing means claimed, and attempts stay within the budget. */
  predicate WithinBudget(s: System) {
    s.kind != WhatsAppJobs ==> forall id :: id in s.jobs ==>
      var job := s.jobs[id];
      && (job.status == Processing <==> job.token.Some?)
      && (job.status in {Pending, Processing} ==> job.attempts < s.max)
      && (job.status == Failed ==> job.attempts == s.max)
  }

  predicate Inv(s: System) {
    && s.max >= 1
    && TokensUsedOnce(s.log) && Fenced(s.log)
    && Traced(s) && WorkersDistinct(s) && WithinBudget(s)
  }

  /** The lease guarantees: no overlap so far, and the rows still know of every lease that matters. */
  predicate Tidy(s: System) {
    Accounted(s) && Exclusive(s.log)
  }

  /** The claim of a pending row that still carries a lease which has not run out. */
  predicate Cuts(s: System, step: Step) {
    && step.Take? && step.job in s.jobs && s.jobs[step.job].status == Pending
    && s.jobs[step.job].mark.Some? && !LeaseExpired(s.kind, s.jobs[step.job], s.now)
  }

  /** No pending row still carries a token. */
  predicate Clean(s: System) {
    forall id :: id in s.jobs && s.jobs[id].status == Pending ==> s.jobs[id].token.None?
  }

  /** A report that makes a held row claimable again. */
  predicate Harmful(s: System, step: Step) {
    && step.Report? && step.status == Pending && step.job in s.jobs && step.job in s.deliveries
    && Applies(s.deliveries[step.job], Pending) && s.jobs[step.job].token.Some?
  }

  // ---- each step keeps the invariant ----

  /** Steps that neither claim nor settle: the log stays, and no job gains or loses a token. */
  lemma QuietStep(s: System, step: Step)
    requires Inv(s) && Enabled(s, step) && (step.Tick? || step.Crash? || step.Enqueue? || step.Report? || step.Restart?)
    ensures Inv(Apply(s, step))
  {
    var t := Apply(s, step);
    forall id | id in t.jobs && t.jobs[id].token.Some?
      ensures exists i :: 0 <= i < |t.log| && IsHeldBy(t.log, t.kind, id, t.jobs[id], i)
    {
      assert id in s.jobs && s.jobs[id].token == t.jobs[id].token && s.jobs[id].mark == t.jobs[id].mark;
      var i :| 0 <= i < |s.log| && IsHeldBy(s.log, s.kind, id, s.jobs[id], i);
      assert IsHeldBy(t.log, t.kind, id, t.jobs[id], i);
    }
    assert Traced(t);
  }

  lemma TakeKeepsLog(s: System, worker: Worker, job: Id, token: Token)
    requires Inv(s) && Enabled(s, Take(worker, job, token))
    ensures var t := Apply(s, Take(worker, job, token)); TokensUsedOnce(t.log) && Fenced(t.log)
  {
    var t := Apply(s, Take(worker, job, token));
    forall k | 0 <= k < |t.log| && t.log[k].Settle?
      ensures exists i :: && 0 <= i < k && t.log[i].Claim? && t.log[i].job == t.log[k].job && t.log[i].token == t.log[k].token
                          && forall j :: i < j < k && t.log[j].Claim? ==> t.log[j].job != t.log[k].job
    {
      assert t.log[k] == s.log[k];
      var i :| && 0 <= i < k && s.log[i].Claim? && s.log[i].job == s.log[k].job && s.log[i].token == s.log[k].token
               && forall j :: i < j < k && s.log[j].Claim? ==> s.log[j].job != s.log[k].job;
      assert t.log[i] == s.log[i];
    }
  }

  lemma TakeKeepsInv(s: System, worker: Worker, job: Id, token: Token)
    requires Inv(s) && Enabled(s, Take(worker, job, token))
    ensures Inv(Apply(s, Take(worker, job, token)))
  {
    var t := Apply(s, Take(worker, job, token));
    var n := |s.log|;
    TakeKeepsLog(s, worker, job, token);
    forall id | id in t.jobs && t.jobs[id].token.Some?
      ensures exists i :: 0 <= i < |t.log| && IsHeldBy(t.log, t.kind, id, t.jobs[id], i)
    {
      if id == job {
        assert IsHeldBy(t.log, t.kind, id, t.jobs[id], n);
      } else {
        var i :| 0 <= i < n && IsHeldBy(s.log, s.kind, id, s.jobs[id], i);
        assert IsHeldBy(t.log, t.kind, id, t.jobs[id], i);
      }
    }
    assert Traced(t);
    TakeKeepsWorkers(s, worker, job, token);
  }

  lemma TakeKeepsWorkers(s: System, worker: Worker, job: Id, token: Token)
    requires WorkersDistinct(s) && Enabled(s, Take(worker, job, token))
    ensures WorkersDistinct(Apply(s, Take(worker, job, token)))
  {
    var t := Apply(s, Take(worker, job, token));
    forall w | w in t.workers
      ensures exists i :: 0 <= i < |t.log| && t.log[i].Claim? && t.log[i].job == t.workers[w].job && t.log[i].token == t.workers[w].token
      ensures w != worker ==> t.workers[w].token != token
    {
      if w == worker {
        assert t.log[|s.log|].job == t.workers[w].job;
      } else {
        var i :| 0 <= i < |s.log| && s.log[i].Claim? && s.log[i].job == s.workers[w].job && s.log[i].token == s.workers[w].token;
        assert t.log[i] == s.log[i];
      }
    }
  }

  /** The log of a settlement by the claim that holds the row. */
  lemma SettlingKeepsLog(log: seq<Event>, kind: Kind, id: Id, job: Job, h: nat)
    requires TokensUsedOnce(log) && Fenced(log) && IsHeldBy(log, kind, id, job, h)
    ensures var after := log + [Settle(id, log[h].token)]; TokensUsedOnce(after) && Fenced(after)
  {
    var after, n := log + [Settle(id, log[h].token)], |log|;
    forall k | 0 <= k < |after| && after[k].Settle?
      ensures exists i :: && 0 <= i < k && after[i].Claim? && after[i].job == after[k].job && after[i].token == after[k].token
                          && forall j :: i < j < k && after[j].Claim? ==> after[j].job != after[k].job
    {
      if k == n {
        assert after[h] == log[h];
      } else {
        var i :| && 0 <= i < k && log[i].Claim? && log[i].job == log[k].job && log[i].token == log[k].token
                 && forall j :: i < j < k && log[j].Claim? ==> log[j].job != log[k].job;
        assert after[i] == log[i];
      }
    }
  }

  lemma HeldStays(log: seq<Event>, kind: Kind, id: Id, job: Job, i: nat, more: Event)
    requires IsHeldBy(log, kind, id, job, i) && more.Settle? && more.token != log[i].token
    ensures IsHeldBy(log + [more], kind, id, job, i)
  {
  }

  /** The system once a worker has put down the row it held. */
  function PutDown(s: System, worker: Worker, job: Job, deliveries: map<Id, Status>): System
    requires worker in s.workers
  {
    var target := s.workers[worker];
    s.(workers := s.workers - {worker}, jobs := s.jobs[target.job := job],
       deliveries := deliveries, log := s.log + [Settle(target.job, target.token)])
  }

  lemma ReleaseKeepsTraces(s: System, worker: Worker, job: Job, deliveries: map<Id, Status>)
    requires TokensUsedOnce(s.log) && Traced(s) && worker in s.workers && Current(s, s.workers[worker])
    requires job.token.None? && job.mark.None? && s.deliveries.Keys <= deliveries.Keys
    ensures Traced(PutDown(s, worker, job, deliveries))
  {
    var target, t := s.workers[worker], PutDown(s, worker, job, deliveries);
    var h :| 0 <= h < |s.log| && IsHeldBy(s.log, s.kind, target.job, s.jobs[target.job], h);
    forall id | id in t.jobs && t.jobs[id].token.Some?
      ensures exists i :: 0 <= i < |t.log| && IsHeldBy(t.log, t.kind, id, t.jobs[id], i)
    {
      var i :| 0 <= i < |s.log| && IsHeldBy(s.log, s.kind, id, s.jobs[id], i);
      assert s.log[i].token != s.log[h].token;
      HeldStays(s.log, s.kind, id, s.jobs[id], i, Settle(target.job, target.token));
    }
  }

  lemma ReleaseKeepsWorkers(s: System, worker: Worker, job: Job, deliveries: map<Id, Status>)
    requires WorkersDistinct(s) && worker in s.workers
    ensures WorkersDistinct(PutDown(s, worker, job, deliveries))
  {
    var t := PutDown(s, worker, job, deliveries);
    forall w | w in t.workers
      ensures exists i :: 0 <= i < |t.log| && t.log[i].Claim? && t.log[i].job == t.workers[w].job && t.log[i].token == t.workers[w].token
    {
      var i :| 0 <= i < |s.log| && s.log[i].Claim? && s.log[i].job == s.workers[w].job && s.log[i].token == s.workers[w].token;
      assert t.log[i] == s.log[i];
    }
  }

  /** Settling or releasing the row a worker still holds. */
  lemma ReleaseKeepsInv(s: System, worker: Worker, job: Job, deliveries: map<Id, Status>)
    requires Inv(s) && worker in s.workers && Current(s, s.workers[worker])
    requires job.token.None? && job.mark.None? && s.deliveries.Keys <= deliveries.Keys
    requires WithinBudget(s.(jobs := s.jobs[s.workers[worker].job := job]))
    ensures Inv(PutDown(s, worker, job, deliveries))
  {
    var target := s.workers[worker];
    var h :| 0 <= h < |s.log| && IsHeldBy(s.log, s.kind, target.job, s.jobs[target.job], h);
    SettlingKeepsLog(s.log, s.kind, target.job, s.jobs[target.job], h);
    ReleaseKeepsTraces(s, worker, job, deliveries);
    ReleaseKeepsWorkers(s, worker, job, deliveries);
  }

  lemma StepKeepsInv(s: System, step: Step)
    requires Inv(s) && Enabled(s, step)
    ensures Inv(Apply(s, step))
  {
    match step
    case Take(worker, job, token) => TakeKeepsInv(s, worker, job, token);
    case Finish(worker, outcome) =>
      var target := s.workers[worker];
      if Current(s, target) {
        var job := Settled(s.kind, s.max, s.jobs[target.job], s.now, outcome);
        ReleaseKeepsInv(s, worker, job, Apply(s, step).deliveries);
      }
    case Postpone(worker) =>
      var target := s.workers[worker];
      if Current(s, target) {
        ReleaseKeepsInv(s, worker, Deferred(s.jobs[target.job], s.now), s.deliveries);
      }
    case _ => QuietStep(s, step);
  }

  // ---- the leases themselves ----

  lemma SettledStays(log: seq<Event>, more: Event, i: nat, j: nat)
    requires i < j <= |log| && log[i].Claim? && SettledBetween(log, i, j)
    ensures SettledBetween(log + [more], i, j) && SettledBetween(log + [more], i, |log| + 1)
  {
    var k :| i < k < j && log[k] == Settle(log[i].job, log[i].token);
    assert (log + [more])[k] == log[k];
  }

  /** The only claim a row that may be taken without a cut can still be under has run out. */
  lemma ClaimableIsFree(s: System, worker: Worker, job: Id, token: Token, i: nat)
    requires Inv(s) && Accounted(s) && Enabled(s, Take(worker, job, token)) && !Cuts(s, Take(worker, job, token))
    requires i < |s.log| && s.log[i].Claim? && s.log[i].job == job
    ensures SettledBetween(s.log, i, |s.log|) || s.log[i].until < s.now
  {
    if s.jobs[job].token == Some(s.log[i].token) {
      var h :| 0 <= h < |s.log| && IsHeldBy(s.log, s.kind, job, s.jobs[job], h);
      assert h == i;
    }
  }

  lemma TakeKeepsTidy(s: System, worker: Worker, job: Id, token: Token)
    requires Inv(s) && Tidy(s) && Enabled(s, Take(worker, job, token)) && !Cuts(s, Take(worker, job, token))
    ensures Tidy(Apply(s, Take(worker, job, token)))
  {
    var t := Apply(s, Take(worker, job, token));
    var n := |s.log|;
    forall i | 0 <= i < n && t.log[i].Claim?
      ensures SettledBetween(s.log, i, n) ==> SettledBetween(t.log, i, n) && SettledBetween(t.log, i, n + 1)
      ensures t.log[i].job == job ==> SettledBetween(s.log, i, n) || s.log[i].until < s.now
    {
      if SettledBetween(s.log, i, n) { SettledStays(s.log, t.log[n], i, n); }
      if s.log[i].job == job { ClaimableIsFree(s, worker, job, token, i); }
    }
    forall i, j | 0 <= i < j < |t.log| && t.log[i].Claim? && t.log[j].Claim? && t.log[i].job == t.log[j].job
      ensures SettledBetween(t.log, i, j) || t.log[i].until < t.log[j].from
    {
      if j < n && SettledBetween(s.log, i, j) { SettledStays(s.log, t.log[n], i, j); }
    }
    assert Accounted(t);
  }

  lemma ReleaseKeepsTidy(s: System, t: System, worker: Worker)
    requires Inv(s) && Tidy(s) && worker in s.workers && Current(s, s.workers[worker])
    requires var target := s.workers[worker];
      && t.now == s.now && t.log == s.log + [Settle(target.job, target.token)]
      && t.jobs.Keys == s.jobs.Keys && t.jobs[target.job].token.None?
      && forall id :: id in s.jobs && id != target.job ==> t.jobs[id] == s.jobs[id]
    ensures Tidy(t)
  {
    var target, n := s.workers[worker], |s.log|;
    forall i | 0 <= i < |t.log| && t.log[i].Claim?
      ensures SettledBetween(t.log, i, |t.log|) || t.log[i].until < t.now || t.jobs[t.log[i].job].token == Some(t.log[i].token)
    {
      assert t.log[i] == s.log[i];
      if SettledBetween(s.log, i, n) {
        SettledStays(s.log, t.log[n], i, n);
      } else if s.log[i].job == target.job && s.log[i].token == target.token {
        assert t.log[n] == Settle(t.log[i].job, t.log[i].token);
      }
    }
    forall i, j | 0 <= i < j < |t.log| && t.log[i].Claim? && t.log[j].Claim? && t.log[i].job == t.log[j].job
      ensures SettledBetween(t.log, i, j) || t.log[i].until < t.log[j].from
    {
      if SettledBetween(s.log, i, j) { SettledStays(s.log, t.log[n], i, j); }
    }
  }

  lemma FinishKeepsTidy(s: System, step: Step)
    requires Inv(s) && Tidy(s) && Enabled(s, step) && (step.Finish? || step.Postpone?)
    ensures Tidy(Apply(s, step))
  {
    if Current(s, s.workers[step.worker]) {
      ReleaseKeepsTidy(s, Apply(s, step), step.worker);
    } else {
      assert Apply(s, step) == s.(workers := s.workers - {step.worker});
    }
  }

  lemma QuietKeepsTidy(s: System, step: Step)
    requires Inv(s) && Tidy(s) && Enabled(s, step)
    requires step.Tick? || step.Crash? || step.Enqueue? || step.Report? || step.Restart?
    ensures Tidy(Apply(s, step))
  {
    assert Apply(s, step).log == s.log;
  }

  /** Every step but a cut keeps the leases exclusive. */
  lemma StepKeepsTidy(s: System, step: Step)
    requires Inv(s) && Tidy(s) && Enabled(s, step) && !Cuts(s, step)
    ensures Tidy(Apply(s, step))
  {
    match step
    case Take(worker, job, token) => TakeKeepsTidy(s, worker, job, token);
    case Finish(_, _) => FinishKeepsTidy(s, step);
    case Postpone(_) => FinishKeepsTidy(s, step);
    case _ => QuietKeepsTidy(s, step);
  }

  /** A cut does make two leases overlap. */
  lemma CutOverlaps(s: System, step: Step)
    requires Inv(s) && Enabled(s, step) && Cuts(s, step)
    ensures !Exclusive(Apply(s, step).log)
  {
    var n, log := |s.log|, Apply(s, step).log;
    var h :| 0 <= h < n && IsHeldBy(s.log, s.kind, step.job, s.jobs[step.job], h);
    assert log[h] == s.log[h] && log[n].Claim?;
    assert !SettledBetween(log, h, n);
  }

  /** While reports are harmless no pending row carries a token. */
  lemma StepKeepsClean(s: System, step: Step)
    requires Inv(s) && Clean(s) && Enabled(s, step) && !Harmful(s, step)
    ensures Clean(Apply(s, step))
  {
  }

  // ---- over whole runs ----

  predicate Harmless(s: System, steps: seq<Step>)
    requires Legal(s, steps)
    decreases |steps|
  {
    steps == [] || (!Harmful(s, steps[0]) && Harmless(Apply(s, steps[0]), steps[1..]))
  }

  predicate NeverCuts(s: System, steps: seq<Step>)
    requires Legal(s, steps)
    decreases |steps|
  {
    steps == [] || (!Cuts(s, steps[0]) && NeverCuts(Apply(s, steps[0]), steps[1..]))
  }

  lemma {:induction false} RunKeepsInv(s: System, steps: seq<Step>)
    requires Inv(s) && Legal(s, steps)
    ensures Inv(Run(s, steps))
    decreases |steps|
  {
    if steps != [] {
      StepKeepsInv(s, steps[0]);
      RunKeepsInv(Apply(s, steps[0]), steps[1..]);
    }
  }

  lemma {:induction false} LogGrows(s: System, steps: seq<Step>)
    requires Legal(s, steps)
    ensures s.log <= Run(s, steps).log
    decreases |steps|
  {
    if steps != [] {
      assert s.log <= Apply(s, steps[0]).log;
      LogGrows(Apply(s, steps[0]), steps[1..]);
    }
  }

  lemma PrefixIsExclusive(early: seq<Event>, late: seq<Event>)
    requires early <= late && Exclusive(late)
    ensures Exclusive(early)
  {
    forall i, j | 0 <= i < j < |early| && early[i].Claim? && early[j].Claim? && early[i].job == early[j].job
      ensures SettledBetween(early, i, j) || early[i].until < early[j].from
    {
      assert late[i] == early[i] && late[j] == early[j];
      if SettledBetween(late, i, j) {
        var k :| i < k < j && late[k] == Settle(late[i].job, late[i].token);
        assert early[k] == late[k];
      }
    }
  }

  /** From any state whose leases are in order, a run keeps them apart if and only if it never cuts one. */
  lemma {:induction false} ExclusiveUnlessCut(s: System, steps: seq<Step>)
    requires Inv(s) && Tidy(s) && Legal(s, steps)
    ensures Exclusive(Run(s, steps).log) <==> NeverCuts(s, steps)
    decreases |steps|
  {
    if steps != [] {
      StepKeepsInv(s, steps[0]);
      if Cuts(s, steps[0]) {
        CutOverlaps(s, steps[0]);
        LogGrows(Apply(s, steps[0]), steps[1..]);
        if Exclusive(Run(s, steps).log) { PrefixIsExclusive(Apply(s, steps[0]).log, Run(s, steps).log); }
      } else {
        StepKeepsTidy(s, steps[0]);
        ExclusiveUnlessCut(Apply(s, steps[0]), steps[1..]);
      }
    }
  }

  lemma StartIsTidy(kind: Kind, max: nat)
    requires max >= 1
    ensures Inv(Start(kind, max)) && Tidy(Start(kind, max)) && Clean(Start(kind, max))
  {
  }

  /** An email or invoice row that is pending carries no lease, so claiming it cuts none. */
  lemma {:induction false} OnlyWhatsAppCuts(s: System, steps: seq<Step>)
    requires Inv(s) && s.kind != WhatsAppJobs && Legal(s, steps)
    ensures NeverCuts(s, steps)
    decreases |steps|
  {
    if steps != [] {
      StepKeepsInv(s, steps[0]);
      OnlyWhatsAppCuts(Apply(s, steps[0]), steps[1..]);
    }
  }

  lemma {:induction false} HarmlessNeverCuts(s: System, steps: seq<Step>)
    requires Inv(s) && Clean(s) && Legal(s, steps) && Harmless(s, steps)
    ensures NeverCuts(s, steps)
    decreases |steps|
  {
    if steps != [] {
      StepKeepsInv(s, steps[0]);
      StepKeepsClean(s, steps[0]);
      HarmlessNeverCuts(Apply(s, steps[0]), steps[1..]);
    }
  }

  /**
   * Fencing, for every run of every queue: tokens are used once, a claim is settled at most once and
   * only while it is the latest of its job, workers hold distinct tokens, and the budget holds.
   */
  lemma FencingHolds(kind: Kind, max: nat, steps: seq<Step>)
    requires max >= 1 && Legal(Start(kind, max), steps)
    ensures var s := Run(Start(kind, max), steps);
      TokensUsedOnce(s.log) && Fenced(s.log) && WorkersDistinct(s) && WithinBudget(s)
  {
    StartIsTidy(kind, max);
    RunKeepsInv(Start(kind, max), steps);
  }

  /**
   * For every run of every queue: the leases of each job stay apart if and only if no claim in the run
   * hits a pending row that still carries an unexpired lease.
   */
  lemma OverlapExactly(kind: Kind, max: nat, steps: seq<Step>)
    requires max >= 1 && Legal(Start(kind, max), steps)
    ensures Exclusive(Run(Start(kind, max), steps).log) <==> NeverCuts(Start(kind, max), steps)
  {
    StartIsTidy(kind, max);
    ExclusiveUnlessCut(Start(kind, max), steps);
  }

  /** Leases of one email or invoice job never overlap, in any run. */
  lemma LeasesAreExclusive(kind: Kind, max: nat, steps: seq<Step>)
    requires max >= 1 && kind != WhatsAppJobs && Legal(Start(kind, max), steps)
    ensures Exclusive(Run(Start(kind, max), steps).log)
  {
    StartIsTidy(kind, max);
    OnlyWhatsAppCuts(Start(kind, max), steps);
    OverlapExactly(kind, max, steps);
  }

  /** WhatsApp leases never overlap in a run without a report that puts a held row back to pending. */
  lemma WhatsAppLeasesAreExclusive(max: nat, steps: seq<Step>)
    requires max >= 1 && Legal(Start(WhatsAppJobs, max), steps) && Harmless(Start(WhatsAppJobs, max), steps)
    ensures Exclusive(Run(Start(WhatsAppJobs, max), steps).log)
  {
    StartIsTidy(WhatsAppJobs, max);
    HarmlessNeverCuts(Start(WhatsAppJobs, max), steps);
    OverlapExactly(WhatsAppJobs, max, steps);
  }

  lemma OneStep(s: System, step: Step, steps: seq<Step>)
    requires Enabled(s, step) && Legal(Apply(s, step), steps)
    ensures Legal(s, [step] + steps) && Run(s, [step] + steps) == Run(Apply(s, step), steps)
  {
    assert ([step] + steps)[1..] == steps;
  }

  /** A claim, a report "pending", and another claim leave two workers with unexpired leases of one job. */
  lemma PendingReportOverlapsLeases(max: nat) returns (t: System)
    requires max >= 1
    ensures var steps := [Enqueue(0), Take(1, 0, 11), Step.Report(0, Pending), Take(2, 0, 12)];
      && Legal(Start(WhatsAppJobs, max), steps) && t == Run(Start(WhatsAppJobs, max), steps)
    ensures 1 in t.workers && 2 in t.workers && t.workers[1] == Target(0, 11) && t.workers[2] == Target(0, 12)
    ensures t.log == [Claim(0, 11, 0, 600), Claim(0, 12, 0, 600)] && t.now < 600 && !Exclusive(t.log)
  {
    var s0 := Start(WhatsAppJobs, max);
    var s1 := Apply(s0, Enqueue(0));
    var s2 := Apply(s1, Take(1, 0, 11));
    var s3 := Apply(s2, Step.Report(0, Pending));
    t := Apply(s3, Take(2, 0, 12));
    var last := [Take(2, 0, 12)];
    OneStep(s3, Take(2, 0, 12), []);
    OneStep(s2, Step.Report(0, Pending), last);
    OneStep(s1, Take(1, 0, 11), [Step.Report(0, Pending)] + last);
    OneStep(s0, Enqueue(0), [Take(1, 0, 11)] + ([Step.Report(0, Pending)] + last));
    assert [Enqueue(0)] + ([Take(1, 0, 11)] + ([Step.Report(0, Pending)] + last))
        == [Enqueue(0), Take(1, 0, 11), Step.Report(0, Pending), Take(2, 0, 12)];
    assert !SettledBetween(t.log, 0, 1);
  }

  /** A worker whose token is gone changes nothing by finishing. */
  lemma StaleFinishIsInert(s: System, worker: Worker, outcome: Outcome)
    requires Inv(s) && Enabled(s, Finish(worker, outcome))
    requires s.workers[worker].job in s.jobs && s.jobs[s.workers[worker].job].token != Some(s.workers[worker].token)
    ensures var t := Apply(s, Finish(worker, outcome)); t.jobs == s.jobs && t.deliveries == s.deliveries && t.log == s.log
  {
  }

  /** After a job is claimed again, or settled, the earlier worker is stale. */
  lemma OneCurrentWorker(s: System, v: Worker, w: Worker)
    requires Inv(s) && v in s.workers && w in s.workers && v != w && s.workers[v].job == s.workers[w].job
    ensures !(Current(s, s.workers[v]) && Current(s, s.workers[w]))
  {
  }

  // ---- what a settlement decides, and for how long ----

  /** A finish by the worker that holds the row decides it, the delivery goes the same way, and no other job changes. */
  lemma FinishDecides(s: System, worker: Worker, outcome: Outcome)
    requires Enabled(s, Finish(worker, outcome)) && Current(s, s.workers[worker])
    ensures var id, t := s.workers[worker].job, Apply(s, Finish(worker, outcome));
      && t.jobs.Keys == s.jobs.Keys && IsOutcome(s.kind, s.max, s.jobs[id], t.jobs[id], s.now, outcome)
      && (forall other :: other in s.jobs && other != id ==> t.jobs[other] == s.jobs[other])
      && t.deliveries == (if s.kind == WhatsAppJobs then s.deliveries[id := t.jobs[id].status] else s.deliveries)
  {
  }

  /** A claimed row becomes claimable again exactly when ten minutes have gone by without an answer. */
  lemma ReclaimedExactly(s: System, worker: Worker, job: Id, token: Token, elapsed: nat)
    requires Enabled(s, Take(worker, job, token))
    ensures var t := Apply(Apply(s, Take(worker, job, token)), Tick(elapsed));
      Claimable(s.kind, t.jobs[job], t.now) <==> elapsed > 600
  {
  }

  /** A report or a restart that puts a job back into the queue. */
  predicate Revives(s: System, step: Step, job: Id) {
    || (step.Report? && step.job == job && step.status == Pending && job in s.deliveries && Applies(s.deliveries[job], Pending))
    || (step.Restart? && step.job == job && job in s.jobs && s.jobs[job].status == Failed)
  }

  predicate NeverRevived(s: System, steps: seq<Step>, job: Id)
    requires Legal(s, steps)
    decreases |steps|
  {
    steps == [] || (!Revives(s, steps[0], job) && NeverRevived(Apply(s, steps[0]), steps[1..], job))
  }

  predicate NeverTaken(steps: seq<Step>, job: Id) {
    forall i :: 0 <= i < |steps| && steps[i].Take? ==> steps[i].job != job
  }

  /** Neither waiting nor under a claim. */
  predicate AtRest(s: System, job: Id) {
    job in s.jobs && s.jobs[job].status != Pending && s.jobs[job].token.None? && s.jobs[job].mark.None?
  }

  lemma StepLeavesAtRest(s: System, step: Step, job: Id)
    requires Enabled(s, step) && AtRest(s, job) && !Revives(s, step, job)
    ensures AtRest(Apply(s, step), job) && (step.Take? ==> step.job != job)
    ensures s.kind != WhatsAppJobs && s.jobs[job].status != Failed ==> Apply(s, step).jobs[job].status != Failed
  {
  }

  lemma {:induction false} RestsUntilRevived(s: System, steps: seq<Step>, job: Id)
    requires Legal(s, steps) && AtRest(s, job) && NeverRevived(s, steps, job)
    ensures NeverTaken(steps, job) && AtRest(Run(s, steps), job)
    decreases |steps|
  {
    if steps != [] {
      StepLeavesAtRest(s, steps[0], job);
      RestsUntilRevived(Apply(s, steps[0]), steps[1..], job);
      assert forall i :: 0 < i < |steps| ==> steps[i] == steps[1..][i - 1];
    }
  }

  lemma {:induction false} NothingRevives(s: System, steps: seq<Step>, job: Id)
    requires Legal(s, steps) && AtRest(s, job) && s.kind != WhatsAppJobs
    requires s.kind == EmailOutbox || s.jobs[job].status != Failed
    ensures NeverRevived(s, steps, job)
    decreases |steps|
  {
    if steps != [] {
      assert !Revives(s, steps[0], job);
      StepLeavesAtRest(s, steps[0], job);
      NothingRevives(Apply(s, steps[0]), steps[1..], job);
    }
  }

  /** The outcome is not tried again. */
  predicate Closes(s: System, job: Job, outcome: Outcome) {
    match outcome
    case Success => true
    case Error => job.attempts + 1 >= s.max
    case Final(_, retryable) => !retryable || job.attempts + 1 >= s.max
  }

  /**
   * A job that was settled for good is never claimed again, unless a report "pending" is applied to it or a failed
   * invoice is asked for again; an email, and an invoice that succeeded, are never claimed again at all.
   */
  lemma SettledForGood(s: System, worker: Worker, outcome: Outcome, steps: seq<Step>)
    requires Enabled(s, Finish(worker, outcome)) && Current(s, s.workers[worker])
    requires Closes(s, s.jobs[s.workers[worker].job], outcome) && Legal(Apply(s, Finish(worker, outcome)), steps)
    ensures var id, t := s.workers[worker].job, Apply(s, Finish(worker, outcome));
      NeverRevived(t, steps, id) || s.kind == EmailOutbox || (s.kind == InvoiceJobs && outcome.Success?) ==> NeverTaken(steps, id)
  {
    var id, t := s.workers[worker].job, Apply(s, Finish(worker, outcome));
    FinishDecides(s, worker, outcome);
    if s.kind == EmailOutbox || (s.kind == InvoiceJobs && outcome.Success?) { NothingRevives(t, steps, id); }
    if NeverRevived(t, steps, id) { RestsUntilRevived(t, steps, id); }
  }

  /** The job waits for a time, under no claim. */
  predicate WaitsFor(s: System, job: Id, until: int) {
    && job in s.jobs && s.jobs[job].nextAttempt == Some(until) && s.jobs[job].token.None? && s.jobs[job].mark.None?
    && (s.kind == InvoiceJobs ==> s.jobs[job].status == Pending)
  }

  lemma {:induction false} TimePasses(s: System, steps: seq<Step>)
    requires Legal(s, steps)
    ensures s.now <= Run(s, steps).now
    decreases |steps|
  {
    if steps != [] { TimePasses(Apply(s, steps[0]), steps[1..]); }
  }

  /** A job that is to be tried again is not claimed before its time, whatever is reported in between. */
  lemma {:induction false} WaitsItsTime(s: System, steps: seq<Step>, job: Id, until: int)
    requires Legal(s, steps) && WaitsFor(s, job, until) && Run(s, steps).now < until
    ensures NeverTaken(steps, job)
    decreases |steps|
  {
    if steps != [] {
      TimePasses(s, steps);
      assert !(steps[0].Take? && steps[0].job == job);
      WaitsItsTime(Apply(s, steps[0]), steps[1..], job, until);
      assert forall i :: 0 < i < |steps| ==> steps[i] == steps[1..][i - 1];
    }
  }

  /** After a failure that may be tried again, the job is not claimed before its delay is over. */
  lemma RetryWaits(s: System, worker: Worker, outcome: Outcome, steps: seq<Step>)
    requires Enabled(s, Finish(worker, outcome)) && Current(s, s.workers[worker])
    requires !Closes(s, s.jobs[s.workers[worker].job], outcome) && Legal(Apply(s, Finish(worker, outcome)), steps)
    ensures var id, t := s.workers[worker].job, Apply(s, Finish(worker, outcome));
      Run(t, steps).now < s.now + Backoff(s.jobs[id].attempts + 1) ==> NeverTaken(steps, id)
  {
    var id, t := s.workers[worker].job, Apply(s, Finish(worker, outcome));
    FinishDecides(s, worker, outcome);
    if Run(t, steps).now < s.now + Backoff(s.jobs[id].attempts + 1) {
      WaitsItsTime(t, steps, id, s.now + Backoff(s.jobs[id].attempts + 1));
    }
  }
}
