/**
 What one row at the head of the queue can do to all others, and what a second worker can do
 to a finished row.
 */
module ClaimQueue {
  import opened Common
  import opened DeploymentStore
  import opened Lifecycle
  import opened LifecycleRuns

  /** An idle worker can claim exactly when some oldest queued row has an installation. */
  lemma ClaimableIff(s: System, w: nat)
    requires w in s.workers && s.workers[w].Idle?
    ensures (exists m :: WorkerCan(s, w, m) && m.ClaimRow?) <==> exists id :: IsOldestQueued(s.db, id) && HasLogin(s.db, id)
  {
    if id :| IsOldestQueued(s.db, id) && HasLogin(s.db, id) {
      assert WorkerCan(s, w, ClaimRow(id, Acked));
    }
  }

  // ----- a queued row whose installation is gone -----

  /** The phases in which the worker's next write may revive the row it holds. */
  predicate Revives(w: Worker) {
    w.Holding? && (w.phase.AwaitingJob? || w.phase.JobDone? || w.phase.Applying?)
  }

  /** Row `id` of project `p` is queued, the installation `inst` of `p` is gone, and every row
      that is or may come back into the queue is strictly younger. */
  ghost predicate Blocked(s: System, id: Id, p: Id, inst: int) {
    && id in s.db.rows && id in s.db.issued && s.db.rows[id].status.Queued? && s.db.rows[id].created < s.now
    && s.db.rows[id].project == p && p in s.db.projects && s.db.projects[p].installation == inst && inst !in s.db.logins
    && (forall o :: o in s.db.rows && o != id && !Terminal(s.db.rows[o]) ==> s.db.rows[id].created < s.db.rows[o].created)
    && (forall w :: w in s.workers && Revives(s.workers[w]) && s.workers[w].claim.id in s.db.rows ==>
          s.db.rows[id].created < s.db.rows[s.workers[w].claim.id].created)
  }

  /** The ways out: the installation comes back, or the project is deleted. */
  predicate Unblocks(step: Step, project: Id, installation: int) {
    step.ByOther? && ((step.om.ChangeLogins? && installation in step.om.logins)
                      || (step.om.DeleteProject? && step.om.project == project))
  }

  predicate IsClaim(step: Step) {
    step.ByWorker? && step.wm.ClaimRow?
  }

  lemma BlockedRowIsOldest(s: System, id: Id, p: Id, inst: int, o: Id)
    requires Blocked(s, id, p, inst) && IsOldestQueued(s.db, o)
    ensures o == id && !HasLogin(s.db, o)
  {
  }

  /** A statement that rewrites rows without making an older one unfinished. */
  ghost predicate StaysBehind(a: Db, b: Db, id: Id) {
    && b.rows.Keys == a.rows.Keys && b.issued == a.issued && b.logins == a.logins
    && id in a.rows && b.rows[id] == a.rows[id]
    && b.projects.Keys == a.projects.Keys && (forall p :: p in a.projects ==> b.projects[p].installation == a.projects[p].installation)
    && (forall o :: o in a.rows ==> b.rows[o].created == a.rows[o].created)
    && (forall o :: o in a.rows && Terminal(a.rows[o]) && a.rows[o].created <= a.rows[id].created ==> Terminal(b.rows[o]))
  }

  lemma IdleStaysBehind(s: System, w: nat, m: WorkerMove, id: Id, p: Id, inst: int)
    requires Blocked(s, id, p, inst) && WorkerCan(s, w, m) && !m.ClaimRow? && !s.workers[w].Holding?
    ensures StaysBehind(s.db, WorkerDb(s, w, m), id)
  {
  }

  lemma HolderStaysBehind(s: System, w: nat, m: WorkerMove, id: Id, p: Id, inst: int)
    requires Blocked(s, id, p, inst) && WorkerCan(s, w, m) && s.workers[w].Holding?
    ensures StaysBehind(s.db, WorkerDb(s, w, m), id)
  {
    var c := s.workers[w].claim;
    assert m.MarkDeploying? || m.MarkReady? ==> Revives(s.workers[w]);
    assert m.MarkDeploying? || m.MarkReady? ==> c.id in s.db.rows ==> s.db.rows[id].created < s.db.rows[c.id].created;
    HoldingDb(s, w, m);
    hide WorkerDb, WorkerCan, PullImage, LiveUrl, IsProduction, Blocked;
  }

  lemma BehindKeepsBlocked(s: System, t: System, id: Id, p: Id, inst: int)
    requires Blocked(s, id, p, inst) && StaysBehind(s.db, t.db, id) && t.now == s.now
    requires forall w :: w in t.workers && Revives(t.workers[w]) ==>
               w in s.workers && Revives(s.workers[w]) && s.workers[w].claim == t.workers[w].claim
    ensures Blocked(t, id, p, inst)
  {
  }

  lemma WorkerStaysHeld(s: System, w: nat, m: WorkerMove)
    requires WorkerCan(s, w, m) && !m.ClaimRow?
    ensures var next := WorkerNext(s, w, m); Revives(next) ==> Revives(s.workers[w]) && s.workers[w].claim == next.claim
  {
  }

  lemma NothingToClaim(s: System, w: nat, m: WorkerMove, id: Id, p: Id, inst: int)
    requires Blocked(s, id, p, inst) && WorkerCan(s, w, m)
    ensures w in s.workers && !m.ClaimRow?
  {
    if m.ClaimRow? {
      BlockedRowIsOldest(s, id, p, inst, m.id);
    }
  }

  lemma WorkerKeepsBlocked(s: System, w: nat, m: WorkerMove, id: Id, p: Id, inst: int)
    requires Blocked(s, id, p, inst) && WorkerCan(s, w, m)
    ensures !m.ClaimRow? && Blocked(AfterWorker(s, w, m), id, p, inst)
  {
    hide *;
    NothingToClaim(s, w, m, id, p, inst);
    WorkerStaysHeld(s, w, m);
    if s.workers[w].Holding? {
      HolderStaysBehind(s, w, m, id, p, inst);
    } else {
      IdleStaysBehind(s, w, m, id, p, inst);
    }
    BehindKeepsBlocked(s, AfterWorker(s, w, m), id, p, inst);
  }

  lemma HandlerKeepsBlocked(s: System, d: string, m: HandlerMove, id: Id, p: Id, inst: int)
    requires Blocked(s, id, p, inst) && HandlerCan(s, d, m)
    ensures Blocked(AfterHandler(s, d, m), id, p, inst)
  {
  }

  lemma OtherKeepsBlocked(s: System, m: OtherMove, id: Id, p: Id, inst: int)
    requires Blocked(s, id, p, inst) && OtherCan(s, m) && !Unblocks(ByOther(m), p, inst)
    ensures Blocked(AfterOther(s, m), id, p, inst)
  {
  }

  lemma BlockedStep(s: System, step: Step, id: Id, p: Id, inst: int)
    requires Blocked(s, id, p, inst) && Enabled(s, step) && !Unblocks(step, p, inst)
    ensures !IsClaim(step) && Blocked(Apply(s, step), id, p, inst)
  {
    hide Blocked, Unblocks, WorkerCan, HandlerCan, OtherCan, AfterWorker, AfterHandler, AfterOther;
    match step
    case ByWorker(w, m) => WorkerKeepsBlocked(s, w, m, id, p, inst);
    case ByHandler(d, m) => HandlerKeepsBlocked(s, d, m, id, p, inst);
    case ByOther(m) => OtherKeepsBlocked(s, m, id, p, inst);
  }

  /** The whole queue stands still behind such a row: in no run is anything claimed, by however
      many workers, until the installation comes back or the project is deleted. */
  lemma {:induction false} MissingInstallationBlocksTheQueue(s: System, steps: seq<Step>, t: System, id: Id, p: Id, inst: int)
    requires Blocked(s, id, p, inst) && Executes(s, steps, t) && forall x :: x in steps ==> !Unblocks(x, p, inst)
    ensures Blocked(t, id, p, inst) && forall x :: x in steps ==> !IsClaim(x)
    decreases |steps|
  {
    if steps != [] {
      BlockedStep(s, steps[0], id, p, inst);
      hide Blocked, Enabled, Apply, Unblocks, IsClaim;
      MissingInstallationBlocksTheQueue(Apply(s, steps[0]), steps[1..], t, id, p, inst);
      assert steps == [steps[0]] + steps[1..];
    }
  }

  /** One push of each of the two projects, a second apart. */
  function TwoPushes(now: int): map<Id, Row> {
    map[0 := PushedRow(0, "c0ffee", "d", now), 1 := PushedRow(1, "facade", "e", now + 1)]
  }

  lemma Waits(s: System)
    ensures Enabled(s, ByOther(Wait(1))) && Apply(s, ByOther(Wait(1))) == s.(now := s.now + 1)
  {
  }

  lemma PushesDiffer()
    ensures "c0ffee" != ZERO_SHA && "facade" != ZERO_SHA && "d" != "e"
  {
    assert "c0ffee"[0] != ZERO_SHA[0] && "facade"[0] != ZERO_SHA[0] && "d"[0] != "e"[0];
  }

  lemma TwoRowsAreQueued(u: System) returns (steps: seq<Step>, s: System)
    requires u.db.projects == Projects() && u.db.rows == map[] && u.db.issued == []
    requires u.db.deliveries == {} && u.handlers == map[]
    ensures Executes(u, steps, s)
    ensures s == u.(db := u.db.(rows := TwoPushes(u.now), issued := [0, 1], deliveries := {"d", "e"}), now := u.now + 1)
  {
    hide Executes, Enabled, Apply, Projects, PushedRow;
    PushesDiffer();
    var wait := ByOther(Wait(1));
    var first, v := PushIsQueued(u, "d", 0, "c0ffee", 0);
    Waits(v);
    var x := v.(now := v.now + 1);
    var third;
    third, s := PushIsQueued(x, "e", 1, "facade", 1);
    Extend(u, first, v, wait);
    Compose(u, first + [wait], x, third, s);
    steps := first + [wait] + third;
    assert s.db.rows == TwoPushes(u.now);
    assert s.db.issued == [0, 1];
    assert s.db.deliveries == {"d", "e"};
  }

  lemma SecondRowWaits(s: System)
    requires s.db.rows == TwoPushes(s.now - 1) && s.db.issued == [0, 1]
    requires s.db.projects == Projects() && s.db.logins == map[2 := "tenant"]
    requires forall w :: w in s.workers ==> !s.workers[w].Holding?
    ensures Blocked(s, 0, 0, 1) && 1 in s.db.rows && s.db.rows[1].status.Queued? && HasLogin(s.db, 1)
  {
  }

  /** Such a state is reached from an empty database: two projects are installed, each is pushed,
      and the first one's installation is deleted before a worker claims. The second row has
      everything a claim needs and is never claimed. */
  lemma BlockedStateIsReachable(s0: System, w: nat) returns (steps: seq<Step>, s: System)
    requires Init(s0) && w in s0.workers
    ensures Executes(s0, steps, s) && s.workers == s0.workers[w := Idle] && Blocked(s, 0, 0, 1)
    ensures 1 in s.db.rows && s.db.rows[1].status.Queued? && HasLogin(s.db, 1)
    ensures s.db.rows[0].trigger.Webhook? && s.db.rows[1].trigger.Webhook?
  {
    var first, u := ProjectsExist(s0);
    var second, v := TwoRowsAreQueued(u);
    var uninstall := ByOther(ChangeLogins(map[2 := "tenant"]));
    var x := Apply(v, uninstall);
    Boots(x, w);
    s := x.(workers := x.workers[w := Idle]);
    SecondRowWaits(s);
    hide Executes, Enabled, Apply, Blocked, HasLogin;
    Compose(s0, first, u, second, v);
    Extend(s0, first + second, v, uninstall);
    Extend(s0, first + second + [uninstall], x, ByWorker(w, Boot(Acked)));
    steps := first + second + [uninstall] + [ByWorker(w, Boot(Acked))];
  }
}
