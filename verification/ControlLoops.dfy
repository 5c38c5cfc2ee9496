/**
 `worker.tick`, `runOne` and the reconciler's `tick` as code over the store, with every other
 actor running between any two calls. Whatever the others do, all together take a run of the
 state machine, and the steps of the loop itself are the ones its specification lists.
 */
module ControlLoops {
  import opened Common
  import opened DeploymentStore
  import opened JobWait
  import opened Lifecycle
  import opened LifecycleRuns
  import Cutover

  /** The steps of a run that one actor takes. */
  function Own(steps: seq<Step>, mine: Step -> bool): seq<Step> {
    if steps == [] then [] else (if mine(steps[0]) then [steps[0]] else []) + Own(steps[1..], mine)
  }

  /** `t` is reached from `s` by a run in which the actor's own steps are exactly `own`. */
  ghost predicate Ran(s: System, mine: Step -> bool, own: seq<Step>, t: System) {
    exists steps :: Executes(s, steps, t) && Own(steps, mine) == own
  }

  function OfWorker(w: nat): Step -> bool {
    (step: Step) => step.ByWorker? && step.w == w
  }

  function OfReconciler(): Step -> bool {
    (step: Step) => step.ByOther? && step.om.Reconcile?
  }

  lemma OwnUnfolds(steps: seq<Step>, mine: Step -> bool)
    ensures Own([], mine) == []
    ensures steps != [] ==> Own(steps, mine) == (if mine(steps[0]) then [steps[0]] else []) + Own(steps[1..], mine)
  {
  }

  lemma {:induction false} OwnOfConcat(a: seq<Step>, b: seq<Step>, mine: Step -> bool)
    ensures Own(a + b, mine) == Own(a, mine) + Own(b, mine)
  {
    hide Own;
    OwnUnfolds(a, mine);
    if a == [] {
      assert a + b == b;
    } else {
      OwnUnfolds(a + b, mine);
      assert (a + b)[1..] == a[1..] + b;
      OwnOfConcat(a[1..], b, mine);
    }
  }

  lemma RanNowhere(s: System, mine: Step -> bool)
    ensures Ran(s, mine, [], s)
  {
    assert Executes(s, [], s) && Own([], mine) == [];
  }

  lemma RanStep(s: System, mine: Step -> bool, step: Step)
    requires Enabled(s, step)
    ensures Ran(s, mine, if mine(step) then [step] else [], Apply(s, step))
  {
    hide Enabled, Apply;
    assert [step][1..] == [];
    assert Executes(s, [step], Apply(s, step));
    assert Own([step], mine) == if mine(step) then [step] else [];
  }

  lemma RanOn(s: System, mine: Step -> bool, own: seq<Step>, t: System, more: seq<Step>, u: System, all: seq<Step>)
    requires Ran(s, mine, own, t) && Ran(t, mine, more, u) && all == own + more
    ensures Ran(s, mine, all, u)
  {
    var first :| Executes(s, first, t) && Own(first, mine) == own;
    var second :| Executes(t, second, u) && Own(second, mine) == more;
    Compose(s, first, t, second, u);
    OwnOfConcat(first, second, mine);
  }

  lemma RanKeepsInv(s: System, mine: Step -> bool, own: seq<Step>, t: System)
    requires Ran(s, mine, own, t) && Inv(s) && OneWorker(s)
    ensures Inv(t) && OneWorker(t) && History(s.db, t.db)
  {
    var steps :| Executes(s, steps, t) && Own(steps, mine) == own;
    RunKeepsInv(s, steps, t);
  }

  lemma {:induction false} TimeGoesOn(s: System, steps: seq<Step>, t: System)
    requires Executes(s, steps, t)
    ensures s.now <= t.now
    decreases |steps|
  {
    if steps != [] {
      assert Apply(s, steps[0]).now >= s.now;
      TimeGoesOn(Apply(s, steps[0]), steps[1..], t);
    }
  }

  lemma RanTakesTime(s: System, mine: Step -> bool, own: seq<Step>, t: System)
    requires Ran(s, mine, own, t)
    ensures s.now <= t.now
  {
    var steps :| Executes(s, steps, t) && Own(steps, mine) == own;
    TimeGoesOn(s, steps, t);
  }

  lemma InvIsConsistent(s: System)
    requires Inv(s)
    ensures Consistent(s.db)
  {
  }

  // ----- what the loops are to do -----

  /** What the calls of one tick come to; `applied` says whether all tenant objects were. */
  datatype Outcome = Outcome(
    sweep: Fault, claim: Fault, built: bool, deploying: Fault, applied: bool, ready: Fault,
    alias: Fault, pointer: Fault, failed: Fault)

  predicate IsBuilt(o: Outcome) {
    o.built && o.deploying.Acked?
  }

  predicate IsServed(c: Claim, o: Outcome) {
    IsBuilt(o) && c.login != "" && o.applied && o.ready.Acked?
  }

  function BuildSteps(w: nat, o: Outcome): seq<Step> {
    if o.built then [ByWorker(w, JobSucceeds), ByWorker(w, MarkDeploying(o.deploying))] else [ByWorker(w, AttemptFails)]
  }

  function CutoverSteps(w: nat, c: Claim, o: Outcome): seq<Step> {
    if !IsProduction(c) then []
    else if o.alias.Acked? then [ByWorker(w, ApplyAlias(o.alias)), ByWorker(w, PointProduction(o.pointer))]
    else [ByWorker(w, ApplyAlias(o.alias))]
  }

  function TailSteps(w: nat, c: Claim, o: Outcome): seq<Step> {
    CutoverSteps(w, c, o) + [ByWorker(w, Finish)]
  }

  function ServedSteps(w: nat, c: Claim, o: Outcome): seq<Step> {
    if c.login == "" || !o.applied then [ByWorker(w, AttemptFails)]
    else [ByWorker(w, MarkReady(o.ready))] + if o.ready.Acked? then TailSteps(w, c, o) else []
  }

  /** The steps of one attempt. */
  function AttemptSteps(w: nat, c: Claim, o: Outcome): seq<Step> {
    BuildSteps(w, o) + if IsBuilt(o) then ServedSteps(w, c, o) else []
  }

  lemma StepsOfTail(w: nat, c: Claim, o: Outcome, fault: Fault)
    ensures var steps := TailSteps(w, c, o);
            var live := c.ref == "refs/heads/" + c.productionBranch;
            && ByWorker(w, MarkReady(fault)) !in steps && ByWorker(w, Finish) in steps
            && (ByWorker(w, ApplyAlias(fault)) in steps <==> live && fault == o.alias)
            && (ByWorker(w, PointProduction(fault)) in steps <==> live && o.alias == Acked && fault == o.pointer)
  {
  }

  /** Nothing is marked ready that was not built, acknowledged and applied; nothing but a served
      production commit moves the alias; and the column follows only an answered alias call. */
  lemma StepsOfAttempt(w: nat, c: Claim, o: Outcome, fault: Fault)
    ensures var steps := AttemptSteps(w, c, o);
            var applied := o.built && o.deploying == Acked && c.login != "" && o.applied;
            var live := applied && o.ready == Acked && c.ref == "refs/heads/" + c.productionBranch;
            && (ByWorker(w, MarkReady(fault)) in steps <==> applied && fault == o.ready)
            && (ByWorker(w, ApplyAlias(fault)) in steps <==> live && fault == o.alias)
            && (ByWorker(w, PointProduction(fault)) in steps <==> live && o.alias == Acked && fault == o.pointer)
            && (ByWorker(w, Finish) in steps <==> applied && o.ready == Acked)
  {
    StepsOfTail(w, c, o, fault);
    hide TailSteps;
  }

  lemma UrlOfCommit(slug: string, sha: string)
    ensures LiveUrl(slug, sha) == "https://" + (slug + "-" + Short(sha) + ".spinup.in")
  {
  }

  /** The URL that a ready row shows is the host of a route to the commit's Service, once the calls
      for them are answered, unless the cutover has another route of that name. */
  lemma UrlIsRouted(c: Claim, v: Cutover.Ns, domains: seq<string>, f: Cutover.Faults)
    requires f.deployment.Acked? && f.service.Acked? && f.preview.Acked?
    requires var commit := Cutover.Commit(c.slug, c.sha, c.ref, c.productionBranch);
             IsProduction(c) ==> !Cutover.IsTraffic(Cutover.DeployName(commit), commit, domains)
    ensures var commit := Cutover.Commit(c.slug, c.sha, c.ref, c.productionBranch);
            var t, name := Cutover.AfterTail(v, commit, domains, f), Cutover.DeployName(commit);
            && name in t.routes && LiveUrl(c.slug, c.sha) == "https://" + t.routes[name].host
            && t.routes[name].service == name && name in t.services
  {
    var commit := Cutover.Commit(c.slug, c.sha, c.ref, c.productionBranch);
    Cutover.HostsAreServed(v, commit, domains, f);
    Cutover.OwnObjectsAreLabelled(v, commit, domains, f);
    UrlOfCommit(c.slug, c.sha);
    assert Cutover.DeployName(commit) == c.slug + "-" + Short(c.sha);
    hide *;
  }

  /** The deployment was served, unless its project has been deleted meanwhile. */
  predicate ReadyIfExists(rows: map<Id, Row>, id: Id) {
    id in rows ==> rows[id].status.Ready?
  }

  /** A row that a worker serves is ready and stays so. */
  lemma ServedStaysReady(s: System, mine: Step -> bool, own: seq<Step>, t: System, w: nat, c: Claim)
    requires Ran(s, mine, own, t) && Inv(s) && OneWorker(s) && w in s.workers && s.workers[w] == Holding(c, Serving)
    ensures ReadyIfExists(t.db.rows, c.id)
  {
    RanKeepsInv(s, mine, own, t);
    assert HoldingOk(s.db, s.observed, c, Serving);
  }

  /** There is nothing to claim, or an oldest queued row lacks its installation. */
  ghost predicate ClaimIsEmpty(db: Db) {
    || (forall id :: id in db.rows ==> !db.rows[id].status.Queued?)
    || (exists id :: IsOldestQueued(db, id) && !HasLogin(db, id))
  }

  /** From the claim statement on, at `s`: how the tick goes on when it claims nothing. */
  ghost predicate IdleTick(s: System, w: nat, o: Outcome, t: System) {
    || (Ran(s, OfWorker(w), [], t) && (o.claim.Acked? ==> ClaimIsEmpty(s.db)))
    || (o.claim.Unacked? && exists id :: Ran(s, OfWorker(w), [ByWorker(w, ClaimRow(id, Unacked))], t))
  }

  /** And how it goes on with claim `c`: the claimed row is an oldest one, the attempt runs, and
      an error is recorded. */
  ghost predicate BusyTick(s: System, w: nat, c: Claim, err: Option<string>, o: Outcome, t: System) {
    && o.claim.Acked? && IsOldestQueued(s.db, c.id) && HasLogin(s.db, c.id) && c == ClaimOf(s.db, c.id)
    && (err.None? <==> IsServed(c, o))
    && Ran(s, OfWorker(w),
           [ByWorker(w, ClaimRow(c.id, Acked))] + AttemptSteps(w, c, o)
           + (if err.Some? then [ByWorker(w, MarkFailed(err.value, o.failed))] else []), t)
  }

  lemma TickIsRun(s: System, w: nat, o: Outcome, at: System, claim: Option<Claim>, err: Option<string>, t: System)
    requires Ran(s, OfWorker(w), [ByWorker(w, SweepStale(o.sweep))], at) && Inv(s) && OneWorker(s)
    requires if claim.Some? then BusyTick(at, w, claim.value, err, o, t) else IdleTick(at, w, o, t)
    ensures History(s.db, t.db)
  {
    assert exists own :: Ran(at, OfWorker(w), own, t);
    hide *;
    var own :| Ran(at, OfWorker(w), own, t);
    var all := [ByWorker(w, SweepStale(o.sweep))] + own;
    RanOn(s, OfWorker(w), [ByWorker(w, SweepStale(o.sweep))], at, own, t, all);
    RanKeepsInv(s, OfWorker(w), all, t);
  }

  /** The claim statement as a step of an idle worker. */
  lemma ClaimIsStep(s: System, w: nat, id: Id, fault: Fault)
    requires w in s.workers && s.workers[w].Idle? && IsOldestQueued(s.db, id) && HasLogin(s.db, id)
    ensures WorkerCan(s, w, ClaimRow(id, fault))
    ensures WorkerDb(s, w, ClaimRow(id, fault)) == Written(s.db, AfterClaim(s.db, id, s.now), fault)
    ensures WorkerNext(s, w, ClaimRow(id, fault)) == if fault.Acked? then Holding(ClaimOf(s.db, id), AwaitingJob) else Idle
  {
  }

  const MISSING_JOB_GRACE := 90
  const STUCK_THRESHOLD := 480

  /** What the reconciler finds for one row: the Job, whether its pod runs, whether the Job can
      be deleted, and what becomes of the row's statement. */
  datatype Look = Look(phase: Reply, running: bool, deleted: bool, fault: Fault)

  /** At what time the reconciler looked at which row. */
  datatype Seen = Seen(id: Id, now: int)

  predicate IsLost(age: int, look: Look) {
    look.phase.Missing? && age > MISSING_JOB_GRACE
  }

  /** The Job neither succeeds nor fails, although its pod has been running for long. */
  predicate IsStuck(age: int, look: Look) {
    && look.phase.Job? && look.phase.succeeded == 0 && !HasFailed(look.phase) && look.phase.active >= 1
    && age >= STUCK_THRESHOLD && look.running
  }

  function LookSteps(row: Row, seen: Seen, look: Look): seq<Step> {
    var age := seen.now - row.started.GetOr(row.created);
    if !row.status.Building? then []
    else if IsLost(age, look) then [ByOther(Reconcile(seen.id, "build job missing from cluster; retrying", look.fault))]
    else if IsStuck(age, look) && look.deleted then [ByOther(Reconcile(seen.id, "kaniko stalled; retrying", look.fault))]
    else []
  }

  /** A building row is taken back, once, exactly when its Job has been missing for more than 90
      seconds of the build, or when a Job that neither succeeded nor failed has a running pod after
      480 seconds and could be deleted. */
  lemma TakenBackIff(row: Row, seen: Seen, look: Look)
    ensures var age := seen.now - (if row.started.Some? then row.started.value else row.created);
            var p := look.phase;
            |LookSteps(row, seen, look)| ==
            if && row.status.Building?
               && (|| (p.Missing? && age > 90)
                   || (&& p.Job? && p.active >= 1 && p.succeeded == p.failed == 0 && p.failureMsg == ""
                       && age >= 480 && look.running && look.deleted))
            then 1 else 0
    ensures forall step :: step in LookSteps(row, seen, look) ==>
              step.ByOther? && step.om.Reconcile? && step.om.id == seen.id && step.om.fault == look.fault
  {
  }

  /** The steps of a pass over the rows as they were listed. */
  function PassSteps(rows: map<Id, Row>, seen: seq<Seen>, look: Id -> Look): seq<Step>
    requires forall e :: e in seen ==> e.id in rows
  {
    if seen == [] then []
    else
      var e := seen[|seen| - 1];
      PassSteps(rows, seen[..|seen| - 1], look) + LookSteps(rows[e.id], e, look(e.id))
  }

  /** A pass looks once at every row, one after the other, in the time it takes. */
  ghost predicate IsPass(rows: map<Id, Row>, seen: seq<Seen>, from: int, to: int) {
    && (forall id :: id in rows <==> exists k :: 0 <= k < |seen| && seen[k].id == id)
    && (forall i, j :: 0 <= i < j < |seen| ==> seen[i].id != seen[j].id && seen[i].now <= seen[j].now)
    && (forall k :: 0 <= k < |seen| ==> from <= seen[k].now <= to)
  }

  function InFlightRows(rows: map<Id, Row>): map<Id, Row> {
    map id | id in rows && InFlight(rows[id]) :: rows[id]
  }

  /** One more row is looked at. */
  lemma OneMoreLook(rows: map<Id, Row>, todo: set<Id>, seen: seq<Seen>, e: Seen, from: int, now: int, to: int)
    requires todo <= rows.Keys && e.id in todo && IsPass(rows - todo, seen, from, now) && from <= now <= e.now <= to
    ensures IsPass(rows - (todo - {e.id}), seen + [e], from, to)
  {
    var more := seen + [e];
    var rest := rows - (todo - {e.id});
    assert forall id :: id in rest <==> id in rows - todo || id == e.id;
    forall id ensures id in rest <==> exists k :: 0 <= k < |more| && more[k].id == id {
      if id in rows - todo {
        var k :| 0 <= k < |seen| && seen[k].id == id;
        assert more[k].id == id;
      }
      assert more[|seen|].id == e.id;
    }
    forall k | 0 <= k < |seen| ensures seen[k].id != e.id {
      assert seen[k].id in rows - todo;
    }
  }

  lemma NothingSeen(rows: map<Id, Row>, now: int)
    ensures IsPass(rows - rows.Keys, [], now, now)
  {
  }

  /** The goroutines of one replica, over one store. */
  class ControlPlane {
    const store: Store
    const w: nat
    var clock: int
    /** The state of the whole system, of which the worker sees the tables and the clock. */
    ghost var sys: System

    ghost predicate Valid()
      reads this, store
    {
      store.View() == sys.db && clock == sys.now && Inv(sys) && sys.workers.Keys == {w}
    }

    constructor (store: Store, w: nat, clock: int, ghost sys: System)
      requires store.View() == sys.db && clock == sys.now && Inv(sys) && sys.workers.Keys == {w}
      ensures Valid() && this.store == store && this.w == w && this.sys == sys
    {
      this.store, this.w, this.clock, this.sys := store, w, clock, sys;
    }

    /** Everybody else: handlers, the reconciler, promotes, the dashboard, time. Callers know
        nothing but that they take steps of their own. */
    method Others()
      requires Valid()
      modifies this`clock, this`sys, store
      ensures Valid() && Ran(old(sys), OfWorker(w), [], sys) && sys.workers == old(sys).workers
    {
      RanNowhere(sys, OfWorker(w));
    }

    /** The same for the reconciler: the worker runs as well. */
    method Everybody()
      requires Valid()
      modifies this`clock, this`sys, store
      ensures Valid() && Ran(old(sys), OfReconciler(), [], sys)
    {
      RanNowhere(sys, OfReconciler());
    }

    /** The ghost side of a step of this worker, after its call; `own` are its steps since `s`. */
    ghost method Take(m: WorkerMove, s: System, own: seq<Step>, all: seq<Step>)
      requires Inv(sys) && sys.workers.Keys == {w} && clock == sys.now && WorkerCan(sys, w, m) && store.View() == WorkerDb(sys, w, m)
      requires Ran(s, OfWorker(w), own, sys) && all == own + [ByWorker(w, m)]
      modifies this`sys
      ensures Valid() && Ran(s, OfWorker(w), all, sys)
      ensures sys.workers == map[w := WorkerNext(old(sys), w, m)]
    {
      hide Inv, Ran, WorkerDb, WorkerCan, WorkerNext;
      RanStep(sys, OfWorker(w), ByWorker(w, m));
      RanOn(s, OfWorker(w), own, sys, [ByWorker(w, m)], AfterWorker(sys, w, m), all);
      WorkerKeepsInv(sys, w, m);
      sys := AfterWorker(sys, w, m);
    }

    /** From the poll of the Job to the commit status. An error leaves the worker in phase
        Failing. */
    method RunOne(c: Claim, o: Outcome) returns (err: Option<string>)
      requires Valid() && sys.workers[w] == Holding(c, AwaitingJob)
      modifies this`clock, this`sys, store
      ensures Valid() && Ran(old(sys), OfWorker(w), AttemptSteps(w, c, o), sys)
      ensures sys.workers[w] == if err.Some? then Holding(c, Failing) else Idle
      ensures err.None? <==> IsServed(c, o)
      ensures err.None? ==> ReadyIfExists(store.rows, c.id)
    {
      hide Inv, Ran, BuildSteps, ServedSteps, ReadyIfExists;
      err := Build(c, o);
      if err.None? {
        ghost var built := sys;
        err := Serve(c, o);
        RanOn(old(sys), OfWorker(w), BuildSteps(w, o), built, ServedSteps(w, c, o), sys, AttemptSteps(w, c, o));
      } else {
        assert AttemptSteps(w, c, o) == BuildSteps(w, o);
      }
    }

    method Build(c: Claim, o: Outcome) returns (err: Option<string>)
      requires Valid() && sys.workers[w] == Holding(c, AwaitingJob)
      modifies this`clock, this`sys, store
      ensures Valid() && Ran(old(sys), OfWorker(w), BuildSteps(w, o), sys)
      ensures sys.workers[w] == Holding(c, if err.Some? then Failing else Applying)
      ensures err.None? <==> IsBuilt(o)
    {
      hide Inv, Ran, IsOldestQueued, PullImage, LiveUrl;
      Others();
      if !o.built {
        Take(AttemptFails, old(sys), [], BuildSteps(w, o));
        return Some("build failed");
      }
      ghost var own := [ByWorker(w, JobSucceeds)];
      Take(JobSucceeds, old(sys), [], own);
      ghost var a := sys;
      Others();
      RanOn(old(sys), OfWorker(w), own, a, [], sys, own);
      var ok := store.MarkDeploying(c.id, PullImage(c.slug, c.sha), clock, o.deploying);
      Take(MarkDeploying(o.deploying), old(sys), own, BuildSteps(w, o));
      return if ok then None else Some("mark deploying");
    }

    method Serve(c: Claim, o: Outcome) returns (err: Option<string>)
      requires Valid() && sys.workers[w] == Holding(c, Applying) && IsBuilt(o)
      modifies this`clock, this`sys, store
      ensures Valid() && Ran(old(sys), OfWorker(w), ServedSteps(w, c, o), sys)
      ensures sys.workers[w] == if err.Some? then Holding(c, Failing) else Idle
      ensures err.None? <==> IsServed(c, o)
      ensures err.None? ==> ReadyIfExists(store.rows, c.id)
    {
      hide Inv, Ran, IsOldestQueued, PullImage, LiveUrl, TailSteps, ReadyIfExists;
      Others();
      if c.login == "" || !o.applied {
        Take(AttemptFails, old(sys), [], ServedSteps(w, c, o));
        return Some("apply failed");
      }
      ghost var own := [ByWorker(w, MarkReady(o.ready))];
      var ok := store.MarkReady(c.id, LiveUrl(c.slug, c.sha), clock, o.ready);
      Take(MarkReady(o.ready), old(sys), [], own);
      if !ok {
        assert ServedSteps(w, c, o) == own;
        return Some("mark ready");
      }
      ghost var a := sys;
      Tail(c, o);
      RanOn(old(sys), OfWorker(w), own, a, TailSteps(w, c, o), sys, ServedSteps(w, c, o));
      assert OneWorker(a);
      ServedStaysReady(a, OfWorker(w), TailSteps(w, c, o), sys, w, c);
      return None;
    }

    /** Nothing that fails from here on fails the deployment. */
    method Tail(c: Claim, o: Outcome)
      requires Valid() && sys.workers[w] == Holding(c, Serving)
      modifies this`clock, this`sys, store
      ensures Valid() && Ran(old(sys), OfWorker(w), TailSteps(w, c, o), sys) && sys.workers[w] == Idle
    {
      hide Inv, Ran, IsOldestQueued, PullImage, LiveUrl;
      if c.ref == "refs/heads/" + c.productionBranch {
        CutOver(c, o);
      } else {
        RanNowhere(sys, OfWorker(w));
      }
      ghost var a := sys;
      Others();
      RanOn(old(sys), OfWorker(w), CutoverSteps(w, c, o), a, [], sys, CutoverSteps(w, c, o));
      Take(Finish, old(sys), CutoverSteps(w, c, o), TailSteps(w, c, o));
    }

    /** The alias, and the column when the alias call was answered. */
    method CutOver(c: Claim, o: Outcome)
      requires Valid() && sys.workers[w] == Holding(c, Serving) && IsProduction(c)
      modifies this`clock, this`sys, store
      ensures Valid() && Ran(old(sys), OfWorker(w), CutoverSteps(w, c, o), sys) && sys.workers[w] == Holding(c, Finishing)
    {
      hide Inv, Ran, IsOldestQueued, PullImage, LiveUrl;
      Others();
      ghost var own := [ByWorker(w, ApplyAlias(o.alias))];
      Take(ApplyAlias(o.alias), old(sys), [], own);
      if o.alias.Acked? {
        ghost var a := sys;
        Others();
        RanOn(old(sys), OfWorker(w), own, a, [], sys, own);
        var ok := store.SetProductionDeployment(c.project, c.id, o.pointer);
        Take(PointProduction(o.pointer), old(sys), own, CutoverSteps(w, c, o));
      }
    }

    /** One tick, in whatever way its calls and everybody else interleave. `at` is the state in
        which its claim statement runs. The worker comes back idle, no row that was ready or failed
        before is changed, a served row is ready, and a failure that was recorded leaves the row
        neither building nor deploying. */
    method WorkerTick(o: Outcome) returns (claim: Option<Claim>, err: Option<string>, ghost at: System)
      requires Valid() && sys.workers[w].Idle?
      modifies this`clock, this`sys, store
      ensures Valid() && sys.workers[w].Idle?
      ensures Ran(old(sys), OfWorker(w), [ByWorker(w, SweepStale(o.sweep))], at)
      ensures claim.None? ==> err.None? && IdleTick(at, w, o, sys)
      ensures claim.Some? ==> BusyTick(at, w, claim.value, err, o, sys)
      ensures claim.Some? && err.None? ==> ReadyIfExists(store.rows, claim.value.id)
      ensures claim.Some? && err.Some? && o.failed.Acked? ==> !(claim.value.id in store.rows && InFlight(store.rows[claim.value.id]))
      ensures forall id :: id in old(store.rows) && Terminal(old(store.rows)[id]) && id in store.rows ==>
                store.rows[id] == old(store.rows)[id]
    {
      hide Inv, Ran, InFlight, AttemptSteps, IsServed, IdleTick, IsOldestQueued, ReadyIfExists;
      Sweep(o);
      ghost var swept := sys;
      claim, at := ClaimNext(o);
      ghost var sweep := [ByWorker(w, SweepStale(o.sweep))];
      RanOn(old(sys), OfWorker(w), sweep, swept, [], at, sweep);
      err := None;
      if claim.Some? {
        var c := claim.value;
        ghost var a := sys;
        err := RunOne(c, o);
        ghost var own := [ByWorker(w, ClaimRow(c.id, Acked))] + AttemptSteps(w, c, o);
        RanOn(at, OfWorker(w), [ByWorker(w, ClaimRow(c.id, Acked))], a, AttemptSteps(w, c, o), sys, own);
        ghost var b := sys;
        if err.Some? {
          Fail(c, err.value, o.failed);
          ghost var failed := [ByWorker(w, MarkFailed(err.value, o.failed))];
          RanOn(at, OfWorker(w), own, b, failed, sys, own + failed);
        } else {
          assert own + [] == own;
        }
      }
      assert OneWorker(old(sys));
      TickIsRun(old(sys), w, o, at, claim, err, sys);
    }

    method Sweep(o: Outcome)
      requires Valid() && sys.workers[w].Idle?
      modifies this`clock, this`sys, store
      ensures Valid() && Ran(old(sys), OfWorker(w), [ByWorker(w, SweepStale(o.sweep))], sys) && sys.workers[w].Idle?
    {
      hide Inv, Ran, IsOldestQueued, PullImage, LiveUrl;
      Others();
      var n := store.RequeueStale(BUILD_TIMEOUT, clock, o.sweep);
      Take(SweepStale(o.sweep), old(sys), [], [ByWorker(w, SweepStale(o.sweep))]);
    }

    method ClaimNext(o: Outcome) returns (c: Option<Claim>, ghost at: System)
      requires Valid() && sys.workers[w].Idle?
      modifies this`clock, this`sys, store
      ensures Valid() && Ran(old(sys), OfWorker(w), [], at)
      ensures c.None? ==> sys.workers[w].Idle? && IdleTick(at, w, o, sys)
      ensures c.Some? ==>
                && o.claim.Acked? && IsOldestQueued(at.db, c.value.id) && HasLogin(at.db, c.value.id)
                && c.value == ClaimOf(at.db, c.value.id) && sys.workers[w] == Holding(c.value, AwaitingJob)
                && Ran(at, OfWorker(w), [ByWorker(w, ClaimRow(c.value.id, Acked))], sys)
    {
      hide Inv, Ran, IsOldestQueued, WorkerCan, WorkerDb, WorkerNext, AfterClaim;
      Others();
      at := sys;
      RanNowhere(at, OfWorker(w));
      InvIsConsistent(sys);
      var r := store.ClaimNextQueued(clock, o.claim);
      if r.Claimed? {
        ClaimIsStep(at, w, r.claim.id, Acked);
        Take(ClaimRow(r.claim.id, Acked), at, [], [ByWorker(w, ClaimRow(r.claim.id, Acked))]);
        return Some(r.claim), at;
      }
      if store.View() != at.db {
        ghost var id :| IsOldestQueued(at.db, id) && HasLogin(at.db, id) && store.View() == AfterClaim(at.db, id, clock);
        ClaimIsStep(at, w, id, Unacked);
        Take(ClaimRow(id, Unacked), at, [], [ByWorker(w, ClaimRow(id, Unacked))]);
      }
      return None, at;
    }

    method Fail(c: Claim, reason: string, fault: Fault)
      requires Valid() && sys.workers[w] == Holding(c, Failing)
      modifies this`clock, this`sys, store
      ensures Valid() && Ran(old(sys), OfWorker(w), [ByWorker(w, MarkFailed(reason, fault))], sys) && sys.workers[w].Idle?
      ensures fault.Acked? ==> !(c.id in store.rows && InFlight(store.rows[c.id]))
    {
      hide Inv, Ran, IsOldestQueued, PullImage, LiveUrl;
      Others();
      var ok := store.MarkFailedIfInFlight(c.id, reason, clock, fault);
      Take(MarkFailed(reason, fault), old(sys), [], [ByWorker(w, MarkFailed(reason, fault))]);
    }

    /** One pass over the rows that are in flight when it starts: a build whose Job is missing or
        stuck goes back into the queue. `look` holds the cluster's answers row by row, and `seen`
        the order and the times at which they came. Rows that were ready or failed before are not
        changed. */
    method ReconcileTick(listed: bool, look: Id -> Look) returns (ghost seen: seq<Seen>)
      requires Valid()
      modifies this`clock, this`sys, store
      ensures Valid()
      ensures var rows := if listed then InFlightRows(old(store.rows)) else map[];
              && IsPass(rows, seen, old(clock), clock)
              && (forall e :: e in seen ==> e.id in rows)
              && Ran(old(sys), OfReconciler(), PassSteps(rows, seen, look), sys)
      ensures forall id :: id in old(store.rows) && Terminal(old(store.rows)[id]) && id in store.rows ==>
                store.rows[id] == old(store.rows)[id]
    {
      hide Inv, Ran, InFlight, LookSteps, IsPass;
      ghost var start := sys;
      seen := [];
      RanNowhere(sys, OfReconciler());
      var deps := if listed then InFlightRows(store.rows) else map[];
      var todo := deps.Keys;
      NothingSeen(deps, clock);
      while todo != {}
        invariant Valid() && todo <= deps.Keys && IsPass(deps - todo, seen, start.now, clock)
        invariant forall e :: e in seen ==> e.id in deps
        invariant Ran(start, OfReconciler(), PassSteps(deps, seen, look), sys)
        decreases todo
      {
        ghost var a := sys;
        var id := Pick(todo);
        ghost var now := ReconcileRow(id, deps[id], look(id));
        ghost var e := Seen(id, now);
        RanTakesTime(start, OfReconciler(), PassSteps(deps, seen, look), a);
        OneMoreLook(deps, todo, seen, e, start.now, a.now, clock);
        assert (seen + [e])[..|seen|] == seen;
        RanOn(start, OfReconciler(), PassSteps(deps, seen, look), a, LookSteps(deps[id], e, look(id)), sys,
              PassSteps(deps, seen + [e], look));
        seen := seen + [e];
        todo := todo - {id};
      }
      assert deps - {} == deps;
      assert OneWorker(start);
      RanKeepsInv(start, OfReconciler(), PassSteps(deps, seen, look), sys);
    }

    method ReconcileRow(id: Id, row: Row, look: Look) returns (ghost now: int)
      requires Valid()
      modifies this`clock, this`sys, store
      ensures Valid() && old(clock) <= now <= clock
      ensures Ran(old(sys), OfReconciler(), LookSteps(row, Seen(id, now), look), sys)
    {
      hide Inv, Ran;
      Everybody();
      now := clock;
      RanTakesTime(old(sys), OfReconciler(), [], sys);
      if !row.status.Building? || look.phase.Unreachable? {
        return;
      }
      var age := clock - row.started.GetOr(row.created);
      if look.phase.Missing? {
        if age > MISSING_JOB_GRACE {
          Requeue(id, "build job missing from cluster; retrying", look.fault, old(sys));
        }
        return;
      }
      if look.phase.succeeded >= 1 || HasFailed(look.phase) || age < STUCK_THRESHOLD || look.phase.active < 1 {
        return;
      }
      if look.running && look.deleted {
        Requeue(id, "kaniko stalled; retrying", look.fault, old(sys));
      }
    }

    method Requeue(id: Id, reason: string, fault: Fault, ghost s: System)
      requires Valid() && Ran(s, OfReconciler(), [], sys)
      modifies this`clock, this`sys, store
      ensures Valid() && old(clock) <= clock
      ensures Ran(s, OfReconciler(), [ByOther(Reconcile(id, reason, fault))], sys)
    {
      hide Inv, Ran;
      Everybody();
      ghost var a := sys;
      RanTakesTime(old(sys), OfReconciler(), [], sys);
      RanOn(s, OfReconciler(), [], old(sys), [], a, []);
      var updated := store.RequeueDeployment(id, reason, fault);
      var m := Reconcile(id, reason, fault);
      RanStep(a, OfReconciler(), ByOther(m));
      OtherKeepsInv(a, m);
      sys := AfterOther(a, m);
      RanOn(s, OfReconciler(), [], a, [ByOther(m)], sys, [ByOther(m)]);
    }
  }
}
