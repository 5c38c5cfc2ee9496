/** Why one replica: what two build workers can do to a finished row. */
module SecondWorker {
  import opened Common
  import opened DeploymentStore
  import opened Lifecycle
  import opened LifecycleRuns

  /** The reconciler takes a row back while worker `v` goes on holding it. */
  lemma ClaimedRowIsRequeued(s: System, v: nat, id: Id) returns (steps: seq<Step>, t: System)
    requires v in s.workers && s.workers[v].Idle? && IsOldestQueued(s.db, id) && HasLogin(s.db, id)
    ensures Executes(s, steps, t) && id in t.db.rows
    ensures t == s.(db := s.db.(rows := s.db.rows[id := t.db.rows[id]]), observed := s.observed - {id},
                    workers := s.workers[v := Holding(ClaimOf(s.db, id), AwaitingJob)])
    ensures t.db.rows[id] == Requeued(s.db.rows[id], Some("build job missing from cluster; retrying"))
    ensures IsOldestQueued(t.db, id)
  {
    var claim := ByWorker(v, ClaimRow(id, Acked));
    var requeue := ByOther(Reconcile(id, "build job missing from cluster; retrying", Acked));
    TwoSteps(s, claim, requeue);
    steps, t := [claim, requeue], Apply(Apply(s, claim), requeue);
    assert t.db.rows == s.db.rows[id := t.db.rows[id]];
  }

  lemma OtherWorkerFailsIt(s: System, w: nat, id: Id) returns (steps: seq<Step>, t: System)
    requires w in s.workers && s.workers[w].Idle? && IsOldestQueued(s.db, id) && HasLogin(s.db, id)
    ensures Executes(s, steps, t)
    ensures id in t.db.rows && t.db.rows[id].status.Failed? && t.workers == s.workers[w := Idle]
  {
    var first, u := AttemptBreaks(s, w, id);
    var mark;
    mark, t := FailureIsMarked(u, w, id);
    hide Executes, Enabled, Apply;
    Extend(s, first, u, mark);
    steps := first + [mark];
    assert t.workers == s.workers[w := Idle];
  }

  lemma AttemptBreaks(s: System, w: nat, id: Id) returns (steps: seq<Step>, t: System)
    requires w in s.workers && s.workers[w].Idle? && IsOldestQueued(s.db, id) && HasLogin(s.db, id)
    ensures Executes(s, steps, t) && t.workers == s.workers[w := Holding(ClaimOf(s.db, id), Failing)]
    ensures id in t.db.rows && InFlight(t.db.rows[id])
  {
    var claim, fails := ByWorker(w, ClaimRow(id, Acked)), ByWorker(w, AttemptFails);
    TwoSteps(s, claim, fails);
    steps, t := [claim, fails], Apply(Apply(s, claim), fails);
    hide Executes;
  }

  lemma FailureIsMarked(s: System, w: nat, id: Id) returns (step: Step, t: System)
    requires w in s.workers && s.workers[w].Holding? && s.workers[w].phase.Failing? && s.workers[w].claim.id == id
    requires id in s.db.rows && InFlight(s.db.rows[id])
    ensures Enabled(s, step) && Apply(s, step) == t && t.workers == s.workers[w := Idle]
    ensures id in t.db.rows && t.db.rows[id].status.Failed?
  {
    step := ByWorker(w, MarkFailed("build failed", Acked));
    t := Apply(s, step);
  }

  lemma FirstWorkerGoesOn(s: System, v: nat, c: Claim) returns (steps: seq<Step>, t: System)
    requires v in s.workers && s.workers[v] == Holding(c, AwaitingJob) && c.id in s.db.rows
    ensures Executes(s, steps, t) && c.id in t.db.rows && t.db.rows[c.id].status.Deploying?
  {
    var succeeds := ByWorker(v, JobSucceeds);
    var mark := ByWorker(v, MarkDeploying(Acked));
    TwoSteps(s, succeeds, mark);
    steps, t := [succeeds, mark], Apply(Apply(s, succeeds), mark);
  }

  /** Wherever two idle workers meet a claimable row, there is a run in which the row is recorded
      as failed and afterwards moved back to deploying. */
  lemma TwoWorkersCanRevertAFailedRow(s: System, v: nat, w: nat, id: Id)
    returns (before: seq<Step>, m: System, after: seq<Step>, t: System)
    requires v in s.workers && w in s.workers && v != w && s.workers[v].Idle? && s.workers[w].Idle?
    requires IsOldestQueued(s.db, id) && HasLogin(s.db, id)
    ensures Executes(s, before, m) && Executes(m, after, t)
    ensures id in m.db.rows && m.db.rows[id].status.Failed? && id in t.db.rows && t.db.rows[id].status.Deploying?
  {
    hide Executes, IsOldestQueued;
    var first, u := ClaimedRowIsRequeued(s, v, id);
    var second;
    second, m := OtherWorkerFailsIt(u, w, id);
    Compose(s, first, u, second, m);
    before := first + second;
    after, t := FirstWorkerGoesOn(m, v, ClaimOf(s.db, id));
  }

  /** From an empty database two workers come to such a state, and on from there a row that has
      failed is deploying again: terminal statuses do not absorb. */
  lemma FailedRowIsRevived(s0: System, v: nat, w: nat)
    returns (before: seq<Step>, m: System, after: seq<Step>, t: System)
    requires Init(s0) && v in s0.workers && w in s0.workers && v != w
    ensures Executes(s0, before, m) && Executes(m, after, t)
    ensures 0 in m.db.rows && m.db.rows[0].status.Failed? && 0 in t.db.rows && t.db.rows[0].status.Deploying?
  {
    var first, s := TwoIdleWorkersMeetARow(s0, v, w);
    var second;
    second, m, after, t := TwoWorkersCanRevertAFailedRow(s, v, w, 0);
    Compose(s0, first, s, second, m);
    before := first + second;
  }

  lemma TwoIdleWorkersMeetARow(s0: System, v: nat, w: nat) returns (steps: seq<Step>, s: System)
    requires Init(s0) && v in s0.workers && w in s0.workers && v != w
    ensures Executes(s0, steps, s) && s.workers == s0.workers[v := Idle][w := Idle]
    ensures IsOldestQueued(s.db, 0) && HasLogin(s.db, 0)
  {
    var first, u := ProjectsExist(s0);
    var insert := ByOther(InsertDirect(0, 1, "c0ffee", "refs/heads/main", Manual));
    var u1 := Apply(u, insert);
    Boots(u1, v);
    var u2 := Apply(u1, ByWorker(v, Boot(Acked)));
    Boots(u2, w);
    s := Apply(u2, ByWorker(w, Boot(Acked)));
    hide Executes, Enabled, Apply;
    Extend(s0, first, u, insert);
    Extend(s0, first + [insert], u1, ByWorker(v, Boot(Acked)));
    Extend(s0, first + [insert] + [ByWorker(v, Boot(Acked))], u2, ByWorker(w, Boot(Acked)));
    steps := first + [insert] + [ByWorker(v, Boot(Acked))] + [ByWorker(w, Boot(Acked))];
  }
}
