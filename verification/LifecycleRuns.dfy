/**
 What holds in every run of the lifecycle state machine, and the runs that show which
 assumptions the results need.
 */
module LifecycleRuns {
  import opened Common
  import opened DeploymentStore
  import opened Lifecycle

  lemma {:induction false} RunKeepsInv(s: System, steps: seq<Step>, t: System)
    requires Executes(s, steps, t) && Inv(s) && OneWorker(s)
    ensures Inv(t) && OneWorker(t) && History(s.db, t.db)
    decreases |steps|
  {
    hide Inv, Enabled, Apply, OneWorker;
    if steps != [] {
      var u := Apply(s, steps[0]);
      StepKeepsInv(s, steps[0]);
      RunKeepsInv(u, steps[1..], t);
      HistoryTransitive(s, u, t);
    }
  }

  lemma HistoryTransitive(s: System, u: System, t: System)
    requires Inv(s) && Evolves(s.db, u.db) && History(u.db, t.db)
    ensures History(s.db, t.db)
  {
    forall id | id in s.db.rows ensures id in s.db.issued {
      assert HasProject(s.db, id);
    }
  }

  /** In every state that one replica can reach. */
  ghost predicate Reachable(s: System) {
    exists s0, steps :: Init(s0) && OneWorker(s0) && Executes(s0, steps, s)
  }

  lemma InitIsFine(s: System)
    requires Init(s)
    ensures Inv(s)
  {
  }

  lemma ReachableInv(s: System)
    requires Reachable(s)
    ensures Inv(s) && OneWorker(s)
  {
    var s0, steps :| Init(s0) && OneWorker(s0) && Executes(s0, steps, s);
    InitIsFine(s0);
    hide *;
    RunKeepsInv(s0, steps, s);
  }

  /** Terminal statuses absorb: a ready or failed row is the same row, column for column, at
      any later time at which it still exists. */
  lemma TerminalRowsAreFrozen(s: System, steps: seq<Step>, t: System, id: Id)
    requires Reachable(s) && Executes(s, steps, t)
    requires id in s.db.rows && Terminal(s.db.rows[id]) && id in t.db.rows
    ensures t.db.rows[id] == s.db.rows[id]
  {
    ReachableInv(s);
    RunKeepsInv(s, steps, t);
  }

  lemma ProductionNamesReadyRow(s: System, p: Id)
    requires Reachable(s) && p in s.db.projects && s.db.projects[p].production.Some?
    ensures ReadyRowOf(s.db, p, s.db.projects[p].production.value)
  {
    ReachableInv(s);
  }

  /** Step i of the run is the poll at which a worker sees the Job of row `id` succeed. */
  ghost predicate SeesSuccess(s: System, steps: seq<Step>, i: nat, id: Id)
    requires i < |steps|
  {
    && steps[i].ByWorker? && steps[i].wm.JobSucceeds?
    && exists u :: Executes(s, steps[..i], u) && Enabled(u, steps[i]) && u.workers[steps[i].w].claim.id == id
  }

  /** The step starts a new attempt of row `id`. */
  predicate StartsAttempt(step: Step, id: Id) {
    step.ByWorker? && step.wm.ClaimRow? && step.wm.id == id && !step.wm.fault.Lost?
  }

  lemma ObservedAfter(s: System, step: Step, id: Id)
    requires Enabled(s, step)
    ensures id in Apply(s, step).observed <==>
            || (step.ByWorker? && step.wm.JobSucceeds? && s.workers[step.w].claim.id == id)
            || (id in s.observed && !StartsAttempt(step, id))
  {
  }

  lemma SeesSuccessLater(s: System, steps: seq<Step>, i: nat, id: Id)
    requires steps != [] && Enabled(s, steps[0]) && i + 1 < |steps|
    requires SeesSuccess(Apply(s, steps[0]), steps[1..], i, id)
    ensures SeesSuccess(s, steps, i + 1, id)
  {
    var rest := steps[1..];
    var u :| Executes(Apply(s, steps[0]), rest[..i], u) && Enabled(u, rest[i]) && u.workers[rest[i].w].claim.id == id;
    assert steps[..i + 1][1..] == rest[..i] && steps[i + 1] == rest[i];
    assert Executes(s, steps[..i + 1], u);
  }

  /** What `observed` records: the Job of the row succeeded, and no attempt started after that. */
  lemma {:induction false} ObservedMeansSeen(s: System, steps: seq<Step>, t: System, id: Id)
    requires Executes(s, steps, t) && id in t.observed
    ensures (id in s.observed && forall j :: 0 <= j < |steps| ==> !StartsAttempt(steps[j], id))
            || exists i :: 0 <= i < |steps| && SeesSuccess(s, steps, i, id)
                           && forall j :: i < j < |steps| ==> !StartsAttempt(steps[j], id)
    decreases |steps|
  {
    if steps != [] {
      var u, rest := Apply(s, steps[0]), steps[1..];
      ObservedMeansSeen(u, rest, t, id);
      ObservedAfter(s, steps[0], id);
      hide Enabled, Apply, Executes, StartsAttempt, SeesSuccess;
      assert forall j :: 0 < j < |steps| ==> steps[j] == rest[j - 1];
      if i :| 0 <= i < |rest| && SeesSuccess(u, rest, i, id) && forall j :: i < j < |rest| ==> !StartsAttempt(rest[j], id) {
        SeesSuccessLater(s, steps, i, id);
      } else if !(id in s.observed && !StartsAttempt(steps[0], id)) {
        FirstStepSees(s, steps, id);
      }
    }
  }

  lemma FirstStepSees(s: System, steps: seq<Step>, id: Id)
    requires steps != [] && Enabled(s, steps[0]) && steps[0].ByWorker? && steps[0].wm.JobSucceeds?
    requires s.workers[steps[0].w].claim.id == id
    ensures SeesSuccess(s, steps, 0, id)
  {
    assert steps[..0] == [] && Executes(s, steps[..0], s);
  }

  /** The attempt that made a row ready saw the Job succeed itself: after that poll no attempt
      of the row was started, whatever the reconciler, crashes and boots did before. */
  lemma ReadyAttemptSawSuccess(s0: System, steps: seq<Step>, s: System, id: Id)
    requires Init(s0) && OneWorker(s0) && Executes(s0, steps, s)
    requires id in s.db.rows && s.db.rows[id].status.Ready?
    ensures exists i :: 0 <= i < |steps| && SeesSuccess(s0, steps, i, id)
                        && forall j :: i < j < |steps| ==> !StartsAttempt(steps[j], id)
  {
    assert Reachable(s);
    ReadyRowsAreComplete(s, id);
    assert s0.observed == {};
    hide *;
    ObservedMeansSeen(s0, steps, s, id);
  }

  lemma ReadyRowsAreComplete(s: System, id: Id)
    requires Reachable(s) && id in s.db.rows && s.db.rows[id].status.Ready?
    ensures var r := s.db.rows[id];
            && id in s.observed && r.project in s.db.projects
            && r.image == Some(PullImage(s.db.projects[r.project].slug, r.sha))
            && r.url == Some(LiveUrl(s.db.projects[r.project].slug, r.sha))
            && r.readyAt.Some? && r.created <= r.readyAt.value <= s.now
  {
    ReachableInv(s);
    assert RowOk(s.db, id, s.observed, s.now);
  }

  /** A row that a webhook inserted is from a push to a branch, with a commit. */
  lemma WebhookRowsAreBranchPushes(s: System, id: Id)
    requires Reachable(s) && id in s.db.rows && s.db.rows[id].trigger.Webhook?
    ensures var r := s.db.rows[id];
            "refs/heads/" <= r.ref && r.sha != "" && r.sha != "0000000000000000000000000000000000000000"
  {
    ReachableInv(s);
    assert RowOk(s.db, id, s.observed, s.now);
  }

  /** A push that deletes a branch, or of a tag, or without a commit, starts nothing. */
  lemma OtherPushesStartNothing(s: System, d: string, e: Event, fault: Fault)
    requires d != "" && e.trigger.Webhook?
    requires e.deleted || !("refs/heads/" <= e.ref) || e.sha == "" || e.sha == "0000000000000000000000000000000000000000"
    ensures AfterHandler(s, d, Deliver(e, fault)).handlers == s.handlers
  {
  }

  lemma DeliveriesAreUnique(s: System, a: Id, b: Id)
    requires Reachable(s) && a in s.db.rows && b in s.db.rows && s.db.rows[a].delivery.Some?
    ensures s.db.rows[a].delivery.value in s.db.deliveries
    ensures s.db.rows[a].delivery == s.db.rows[b].delivery ==> a == b
  {
    ReachableInv(s);
  }

  // ----- store writes that succeed -----

  /** No store write of the step fails. */
  predicate Clean(step: Step) {
    match step
    case ByWorker(w, m) =>
      (m.ClaimRow? || m.SweepStale? || m.MarkDeploying? || m.MarkReady? || m.PointProduction? || m.MarkFailed? || m.Boot?)
      ==> m.fault.Acked?
    case ByHandler(d, m) => (m.Deliver? || m.InsertPush?) ==> m.fault.Acked?
    case ByOther(m) => (m.Reconcile? || m.PromoteWrite?) ==> m.fault.Acked?
  }

  /** Every building or deploying row is the one a live worker holds. */
  ghost predicate InFlightIsHeld(s: System) {
    forall id, w :: id in s.db.rows && InFlight(s.db.rows[id]) && w in s.workers && !s.workers[w].Down? ==>
      s.workers[w].Holding? && s.workers[w].claim.id == id
  }

  lemma CleanStepKeepsHeld(s: System, step: Step)
    requires Inv(s) && OneWorker(s) && Enabled(s, step) && Clean(step) && InFlightIsHeld(s)
    ensures InFlightIsHeld(Apply(s, step))
  {
    var t := Apply(s, step);
    forall id, w | id in t.db.rows && InFlight(t.db.rows[id]) && w in t.workers && !t.workers[w].Down?
      ensures t.workers[w].Holding? && t.workers[w].claim.id == id
    {
      match step
      case ByWorker(v, m) => CleanWorkerKeepsHeld(s, v, m, id);
      case ByHandler(d, m) => HandlerStartsNothing(s, d, m, id);
      case ByOther(m) => OtherStartsNothing(s, m, id);
    }
  }

  lemma HandlerStartsNothing(s: System, d: string, m: HandlerMove, id: Id)
    requires HandlerCan(s, d, m)
    requires id in AfterHandler(s, d, m).db.rows && InFlight(AfterHandler(s, d, m).db.rows[id])
    ensures id in s.db.rows && InFlight(s.db.rows[id])
  {
  }

  lemma OtherStartsNothing(s: System, m: OtherMove, id: Id)
    requires OtherCan(s, m)
    requires id in AfterOther(s, m).db.rows && InFlight(AfterOther(s, m).db.rows[id])
    ensures id in s.db.rows && InFlight(s.db.rows[id])
  {
  }

  lemma CleanWorkerKeepsHeld(s: System, w: nat, m: WorkerMove, id: Id)
    requires WorkersOk(s) && s.workers.Keys == {w} && WorkerCan(s, w, m) && Clean(ByWorker(w, m)) && InFlightIsHeld(s)
    requires id in WorkerDb(s, w, m).rows && InFlight(WorkerDb(s, w, m).rows[id])
    ensures var next := WorkerNext(s, w, m); next.Down? || (next.Holding? && next.claim.id == id)
  {
    if s.workers[w].Holding? {
      assert HoldingOk(s.db, s.observed, s.workers[w].claim, s.workers[w].phase);
    }
  }

  lemma {:induction false} CleanRunKeepsHeld(s: System, steps: seq<Step>, t: System)
    requires Inv(s) && OneWorker(s) && InFlightIsHeld(s) && Executes(s, steps, t) && forall x :: x in steps ==> Clean(x)
    ensures InFlightIsHeld(t)
    decreases |steps|
  {
    hide Inv, Enabled, Apply, OneWorker, Clean, InFlightIsHeld;
    if steps != [] {
      StepKeepsInv(s, steps[0]);
      CleanStepKeepsHeld(s, steps[0]);
      CleanRunKeepsHeld(Apply(s, steps[0]), steps[1..], t);
    }
  }

  /** With one replica and store writes that succeed, an in-flight row is the held row; an
      idle worker means that nothing is in flight. */
  lemma InFlightRowIsTheHeldRow(s0: System, steps: seq<Step>, s: System, w: nat, id: Id)
    requires Init(s0) && OneWorker(s0) && Executes(s0, steps, s) && forall x :: x in steps ==> Clean(x)
    requires w in s.workers && !s.workers[w].Down? && id in s.db.rows && InFlight(s.db.rows[id])
    ensures s.workers[w].Holding? && s.workers[w].claim.id == id
  {
    CleanRunKeepsHeld(s0, steps, s);
  }

  /** A crash at any point followed by a boot whose RequeueStuck commits loses no row, puts
      everything that was in flight back in the queue and leaves every other row alone. */
  lemma CrashAndBootRequeueInFlight(s: System, w: nat, id: Id)
    requires w in s.workers && !s.workers[w].Down? && id in s.db.rows
    ensures var crashed := AfterWorker(s, w, Crash);
            var t := AfterWorker(crashed, w, Boot(Acked));
            && t.workers[w].Idle? && t.db.rows.Keys == s.db.rows.Keys
            && !InFlight(t.db.rows[id])
            && (InFlight(s.db.rows[id]) ==> t.db.rows[id] == Requeued(s.db.rows[id], None))
            && (!InFlight(s.db.rows[id]) ==> t.db.rows[id] == s.db.rows[id])
  {
  }

  // ----- building runs -----

  lemma {:induction false} Extend(s: System, steps: seq<Step>, t: System, step: Step)
    requires Executes(s, steps, t) && Enabled(t, step)
    ensures Executes(s, steps + [step], Apply(t, step))
    decreases |steps|
  {
    hide Enabled, Apply;
    if steps == [] {
      assert [step][1..] == [];
    } else {
      assert (steps + [step])[1..] == steps[1..] + [step];
      Extend(Apply(s, steps[0]), steps[1..], t, step);
    }
  }

  lemma {:induction false} Compose(s: System, first: seq<Step>, t: System, second: seq<Step>, u: System)
    requires Executes(s, first, t) && Executes(t, second, u)
    ensures Executes(s, first + second, u)
    decreases |first|
  {
    hide Enabled, Apply;
    if first == [] {
      assert first + second == second;
    } else {
      assert (first + second)[1..] == first[1..] + second;
      Compose(Apply(s, first[0]), first[1..], t, second, u);
    }
  }

  lemma TwoSteps(s: System, a: Step, b: Step)
    requires Enabled(s, a) && Enabled(Apply(s, a), b)
    ensures Executes(s, [a, b], Apply(Apply(s, a), b))
  {
    hide Enabled, Apply;
    assert [a, b][1..] == [b] && [b][1..] == [];
    assert Executes(Apply(s, a), [b], Apply(Apply(s, a), b));
  }

  /** Two projects of two installations. */
  function Projects(): map<Id, Project> {
    map[0 := Project(1, 1, "alpha", "main", None), 1 := Project(2, 2, "beta", "main", None)]
  }

  function Logins(): map<int, string> {
    map[1 := "left", 2 := "tenant"]
  }

  /** Some states that are reached from an empty database. */
  lemma ProjectsExist(s0: System) returns (steps: seq<Step>, s: System)
    requires Init(s0)
    ensures Executes(s0, steps, s)
    ensures s == s0.(db := s0.db.(projects := Projects(), logins := Logins()))
  {
    var install := ByOther(ChangeLogins(Logins()));
    var a, b := ByOther(CreateProject(0, 1, 1, "alpha", "main")), ByOther(CreateProject(1, 2, 2, "beta", "main"));
    TwoSteps(s0, install, a);
    var u := Apply(Apply(s0, install), a);
    Extend(s0, [install, a], u, b);
    steps, s := [install, a] + [b], Apply(u, b);
    assert s.db.projects == Projects();
  }

  /** A boot that finds nothing in flight. */
  lemma Boots(s: System, w: nat)
    requires w in s.workers && s.workers[w].Down? && forall id :: id in s.db.rows ==> !InFlight(s.db.rows[id])
    ensures var boot := ByWorker(w, Boot(Acked));
            Enabled(s, boot) && Apply(s, boot) == s.(workers := s.workers[w := Idle])
  {
    assert RequeueAll(s.db, StuckRows(s.db)).rows == s.db.rows;
  }

  /** A push to a branch of project `p`. */
  function PushOf(p: Id, sha: string, ref: string): Event {
    Event(p + 1, p + 1, sha, ref, false, Webhook)
  }

  /** The push arrives and finds its project. */
  lemma PushArrives(s: System, d: string, p: Id, sha: string, ref: string) returns (steps: seq<Step>, t: System)
    requires s.db.projects == Projects() && p <= 1 && d != "" && d !in s.db.deliveries && d !in s.handlers
    requires IsBranchRef(ref) && sha != "" && sha != ZERO_SHA
    ensures Executes(s, steps, t)
    ensures t == s.(db := s.db.(deliveries := s.db.deliveries + {d}),
                    handlers := s.handlers[d := Located(PushOf(p, sha, ref), p, ProductionRef("main"))])
  {
    var deliver, locate := ByHandler(d, Deliver(PushOf(p, sha, ref), Acked)), ByHandler(d, Locate(p));
    TwoSteps(s, deliver, locate);
    steps, t := [deliver, locate], Apply(Apply(s, deliver), locate);
  }

  function PushedRow(p: Id, sha: string, d: string, now: int): Row {
    NewRow(p, sha, "refs/heads/main", Webhook, Some(d), now)
  }

  lemma LocatedPushIsQueued(s: System, d: string, p: Id, sha: string, id: Id) returns (steps: seq<Step>, t: System)
    requires d in s.handlers && s.handlers[d] == Located(PushOf(p, sha, "refs/heads/main"), p, ProductionRef("main"))
    requires p in s.db.projects && id !in s.db.issued
    ensures Executes(s, steps, t)
    ensures t == s.(db := s.db.(rows := s.db.rows[id := PushedRow(p, sha, d, s.now)], issued := s.db.issued + [id]),
                    handlers := s.handlers - {d})
  {
    assert "refs/heads/main" == ProductionRef("main");
    var check, insert := ByHandler(d, CheckDuplicate), ByHandler(d, InsertPush(id, Acked));
    TwoSteps(s, check, insert);
    steps, t := [check, insert], Apply(Apply(s, check), insert);
    hide Executes;
    assert t.handlers == s.handlers - {d};
  }

  /** A push to the production branch, from its delivery to its row. */
  lemma PushIsQueued(s: System, d: string, p: Id, sha: string, id: Id) returns (steps: seq<Step>, t: System)
    requires s.db.projects == Projects() && p <= 1 && d != "" && d !in s.db.deliveries && d !in s.handlers
    requires sha != "" && sha != ZERO_SHA && id !in s.db.issued
    ensures Executes(s, steps, t)
    ensures t == s.(db := s.db.(deliveries := s.db.deliveries + {d}, issued := s.db.issued + [id],
                                rows := s.db.rows[id := PushedRow(p, sha, d, s.now)]))
  {
    assert IsBranchRef("refs/heads/main");
    var first, u := PushArrives(s, d, p, sha, "refs/heads/main");
    var second;
    second, t := LocatedPushIsQueued(u, d, p, sha, id);
    hide Executes;
    Compose(s, first, u, second, t);
    steps := first + second;
    assert u.handlers - {d} == s.handlers;
  }
}
