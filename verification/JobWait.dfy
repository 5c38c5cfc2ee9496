/** `waitForJob` and `ensureBuildJob`: how the worker attaches to a build Job and polls it. */
module JobWait {
  import opened Common

  const NOT_FOUND_TIMEOUT := 120
  const POLL_INTERVAL := 3

  datatype Reply = Unreachable | Missing | Job(active: nat, succeeded: nat, failed: nat, failureMsg: string)

  /** One round of the poll loop: is the context done, what does the API server answer, how
      long does the answer take, and by how much does the following sleep overrun (seconds). */
  datatype Poll = Poll(cancelled: bool, reply: Reply, latency: nat, oversleep: nat)

  datatype Verdict =
    | Succeeded
    | Cancelled
    | PollError
    | DeletedUnexpectedly
    | NotFoundAfterCreate
    | BuildFailed(msg: string)
    | TimedOut

  predicate HasFailed(j: Reply)
    requires j.Job?
  {
    j.failed >= 1 || j.failureMsg != ""
  }

  /** The time at which the answer to poll i is in. */
  function AnswerAt(env: nat -> Poll, start: int, i: nat): int {
    if i == 0 then start + env(0).latency
    else AnswerAt(env, start, i - 1)
         + (if env(i - 1).reply.Missing? then 1 else POLL_INTERVAL) + env(i - 1).oversleep + env(i).latency
  }

  ghost predicate SeenBefore(env: nat -> Poll, i: nat) {
    exists k: nat :: k < i && env(k).reply.Job?
  }

  /** What poll i decides, in terms of the answers so far and the clock. */
  ghost function Decision(env: nat -> Poll, start: int, i: nat): Option<Verdict> {
    if env(i).cancelled then Some(Cancelled)
    else match env(i).reply
         case Unreachable => Some(PollError)
         case Missing =>
           if SeenBefore(env, i) then Some(DeletedUnexpectedly)
           else if AnswerAt(env, start, i) - AnswerAt(env, start, 0) > NOT_FOUND_TIMEOUT then Some(NotFoundAfterCreate)
           else None
         case Job(active, succeeded, failed, failureMsg) =>
           if succeeded >= 1 then Some(Succeeded)
           else if HasFailed(env(i).reply) then Some(BuildFailed(failureMsg))
           else if AnswerAt(env, start, i) > start + BUILD_TIMEOUT then Some(TimedOut)
           else None
  }

  /** The first poll that can come too late: 121 polls a second apart that find no Job, then
      polls of a running Job, three seconds apart. */
  const LAST_POLL: nat := 381

  ghost predicate Undecided(env: nat -> Poll, start: int, n: nat) {
    forall k: nat :: k < n ==> Decision(env, start, k).None?
  }

  /** While nothing is decided, the Job is missing for at most 121 polls, and every poll that
      finds it costs three seconds. */
  lemma {:induction false} TimePasses(env: nat -> Poll, start: int, i: nat)
    requires Undecided(env, start, i)
    ensures AnswerAt(env, start, 0) >= start
    ensures !SeenBefore(env, i) ==> i <= 121 && AnswerAt(env, start, i) >= AnswerAt(env, start, 0) + i
    ensures SeenBefore(env, i) ==> AnswerAt(env, start, i) >= start + 3 * i - 242
  {
    if i > 0 {
      TimePasses(env, start, i - 1);
      assert Decision(env, start, i - 1).None?;
      assert SeenBefore(env, i) <==> SeenBefore(env, i - 1) || env(i - 1).reply.Job?;
    }
  }

  /** The loop always ends, whatever the API server and the clock do. */
  lemma DecidedInTime(env: nat -> Poll, start: int)
    ensures exists n: nat :: n <= LAST_POLL && Decision(env, start, n).Some?
  {
    if Undecided(env, start, LAST_POLL) {
      TimePasses(env, start, LAST_POLL);
      assert Decision(env, start, LAST_POLL).Some?;
    }
  }

  /** The slowest answers: no Job for as long as that is allowed, then one that never ends. */
  function Slowest(k: nat): Poll {
    Poll(false, if k <= 120 then Missing else Job(1, 0, 0, ""), 0, 0)
  }

  lemma {:induction false} SlowestAnswers(i: nat)
    ensures AnswerAt(Slowest, 0, i) == if i <= 121 then i else 3 * i - 242
  {
    if i > 0 {
      SlowestAnswers(i - 1);
    }
  }

  /** No smaller number of polls would do. */
  lemma SlowestIsUndecided()
    ensures Undecided(Slowest, 0, LAST_POLL) && Decision(Slowest, 0, LAST_POLL) == Some(TimedOut)
  {
    SlowestAnswers(0);
    forall k: nat | k <= LAST_POLL
      ensures Decision(Slowest, 0, k) == if k < LAST_POLL then None else Some(TimedOut)
    {
      SlowestAnswers(k);
    }
  }

  /** What keeps the loop going: the context is alive and the API server answers, and either the
      Job has neither succeeded nor failed within the time for a build, or no poll has ever found
      one and the time for it to show up is not over. */
  lemma UndecidedIff(env: nat -> Poll, start: int, i: nat)
    ensures Decision(env, start, i) == None <==>
            && !env(i).cancelled && !env(i).reply.Unreachable?
            && (env(i).reply.Job? ==>
                  && env(i).reply.succeeded == env(i).reply.failed == 0 && env(i).reply.failureMsg == ""
                  && AnswerAt(env, start, i) <= start + 900)
            && (env(i).reply.Missing? ==>
                  && (forall k: nat :: k < i ==> !env(k).reply.Job?)
                  && AnswerAt(env, start, i) <= AnswerAt(env, start, 0) + 120)
  {
  }

  /** And what a verdict says about the poll that gave it. */
  lemma VerdictMeans(env: nat -> Poll, start: int, n: nat, verdict: Verdict)
    requires Decision(env, start, n) == Some(verdict)
    ensures var p := env(n);
            match verdict
            case Cancelled => p.cancelled
            case PollError => p.reply.Unreachable?
            case Succeeded => p.reply.Job? && p.reply.succeeded >= 1
            case BuildFailed(msg) =>
              p.reply.Job? && p.reply.succeeded == 0 && (p.reply.failed >= 1 || p.reply.failureMsg != "") && msg == p.reply.failureMsg
            case TimedOut =>
              p.reply.Job? && p.reply.succeeded == p.reply.failed == 0 && AnswerAt(env, start, n) > start + 900
            case DeletedUnexpectedly => p.reply.Missing? && exists k: nat :: k < n && env(k).reply.Job?
            case NotFoundAfterCreate =>
              && p.reply.Missing? && (forall k: nat :: k < n ==> !env(k).reply.Job?)
              && AnswerAt(env, start, n) > AnswerAt(env, start, 0) + 120
  {
  }

  /** The verdict is that of the first poll that decides anything. In particular the build
      counts as succeeded only when the Job itself reported a success. */
  method WaitForJob(env: nat -> Poll, start: int) returns (verdict: Verdict, n: nat)
    ensures Decision(env, start, n) == Some(verdict) && n <= LAST_POLL
    ensures Undecided(env, start, n)
    ensures verdict.Succeeded? ==> env(n).reply.Job? && env(n).reply.succeeded >= 1
  {
    var deadline := start + BUILD_TIMEOUT;
    var now := start;
    var seenJob := false;
    var nilSince: Option<int> := None;
    n := 0;
    DecidedInTime(env, start);
    ghost var last: nat :| last <= LAST_POLL && Decision(env, start, last).Some?;
    while true
      invariant n <= last && Undecided(env, start, n)
      invariant now + env(n).latency == AnswerAt(env, start, n)
      invariant seenJob <==> SeenBefore(env, n)
      invariant !seenJob ==> nilSince == if n == 0 then None else Some(AnswerAt(env, start, 0))
      decreases last - n
    {
      if env(n).cancelled {
        return Cancelled, n;
      }
      now := now + env(n).latency;
      var phase := env(n).reply;
      if phase.Unreachable? {
        return PollError, n;
      }
      if phase.Missing? {
        if seenJob {
          return DeletedUnexpectedly, n;
        }
        if nilSince.None? {
          nilSince := Some(now);
        } else if now - nilSince.value > NOT_FOUND_TIMEOUT {
          return NotFoundAfterCreate, n;
        }
        now := now + 1 + env(n).oversleep;
      } else {
        seenJob := true;
        nilSince := None;
        if phase.succeeded >= 1 {
          return Succeeded, n;
        } else if HasFailed(phase) {
          return BuildFailed(phase.failureMsg), n;
        }
        if now > deadline {
          return TimedOut, n;
        }
        now := now + POLL_INTERVAL + env(n).oversleep;
      }
      assert Decision(env, start, n) == None;
      n := n + 1;
    }
  }

  /** The Jobs of the build namespace, by name. */
  class Cluster {
    var jobs: map<string, Reply>

    /** A running or succeeded Job is attached to; a failed one is replaced by a new Job. The
        flags say which API calls succeed. */
    method EnsureBuildJob(name: string, reachable: bool, deletes: bool, creates: bool) returns (ok: bool)
      requires forall j :: j in jobs ==> jobs[j].Job?
      modifies this
      ensures forall j :: j in jobs ==> jobs[j].Job?
      ensures ok ==> name in jobs && jobs[name].failed == 0 && jobs[name].failureMsg == ""
      ensures var attached := name in old(jobs) && !HasFailed(old(jobs)[name]);
              && (ok <==> reachable && (attached || ((name in old(jobs) ==> deletes) && creates)))
              && jobs == if !reachable || attached || (name in old(jobs) && !deletes) then old(jobs)
                         else if creates then old(jobs)[name := Job(0, 0, 0, "")]
                         else old(jobs) - {name}
    {
      if !reachable {
        return false;
      }
      if name in jobs {
        if !HasFailed(jobs[name]) {
          return true;
        }
        if !deletes {
          return false;
        }
        jobs := jobs - {name};
      }
      if !creates {
        return false;
      }
      jobs := jobs[name := Job(0, 0, 0, "")];
      ok := true;
    }
  }
}
