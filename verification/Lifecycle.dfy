/**
 The deployment lifecycle as a state machine. Build workers, the build reconciler, webhook
 handlers, redeploys, promotes, project deletion, crashes and boots interleave; every step
 is one SQL statement, one observation of the cluster, or one change of a worker's position
 in `tick`/`runOne`. The statements are those of module DeploymentStore.
 */
module Lifecycle {
  import opened Common
  import opened DeploymentStore

  /** How far `runOne` has come with the row it holds. */
  datatype Phase =
    | AwaitingJob  // claimed; waitForJob has not returned
    | JobDone      // waitForJob returned nil
    | Applying     // MarkDeploying acknowledged; tenant objects are being applied
    | Serving      // MarkReady acknowledged
    | Aliased      // the production alias call was acknowledged; the pointer is not written yet
    | Finishing    // domains, garbage collection, commit status
    | Failing      // runOne returned an error

  datatype Worker = Down | Idle | Holding(claim: Claim, phase: Phase)

  datatype Event = Event(installation: int, repo: int, sha: string, ref: string, deleted: bool, trigger: Trigger)

  /** A webhook request between RecordDelivery and its INSERT. */
  datatype Handler =
    | Received(event: Event)
    | Located(event: Event, project: Id, productionRef: string)
    | Cleared(event: Event, project: Id, deduplicates: bool)

  /** A promote request that has passed its ready check; `swapped` once its alias call is
      acknowledged. */
  datatype Promote = Promote(project: Id, id: Id, swapped: bool)

  /**
   `alias` says which deployment's Service the production alias of a project targets, and
   `observed` collects the rows whose current attempt, the one since the last committed
   claim, saw Succeeded >= 1.
   */
  datatype System = System(
    db: Db, workers: map<nat, Worker>, handlers: map<string, Handler>, promotes: map<nat, Promote>,
    alias: map<Id, Id>, observed: set<Id>, now: int)

  /** The build worker: `tick`, `runOne`, and the process it runs in. */
  datatype WorkerMove =
    | ClaimRow(id: Id, fault: Fault)
    | SweepStale(fault: Fault)
    | JobSucceeds
    | AttemptFails
    | MarkDeploying(fault: Fault)
    | MarkReady(fault: Fault)
    | ApplyAlias(fault: Fault)
    | PointProduction(fault: Fault)
    | Finish
    | MarkFailed(reason: string, fault: Fault)
    | Crash
    | Boot(fault: Fault)

  /** One webhook request: RecordDelivery, then the three statements of EnqueueDeployment. */
  datatype HandlerMove =
    | Deliver(event: Event, fault: Fault)
    | Locate(project: Id)
    | CheckDuplicate
    | InsertPush(id: Id, fault: Fault)
    | HandlerEnds

  /** The reconciler, the dashboard, project administration, and time. */
  datatype OtherMove =
    | Reconcile(id: Id, reason: string, fault: Fault)
    | InsertDirect(id: Id, project: Id, sha: string, ref: string, trigger: Trigger)
    | Redeploy(id: Id, source: Id)
    | PromoteRead(r: nat, id: Id)
    | PromoteAlias(r: nat, fault: Fault)
    | PromoteWrite(r: nat, fault: Fault)
    | PromoteEnds(r: nat)
    | CreateProject(project: Id, installation: int, repo: int, slug: string, branch: string)
    | ChangeBranch(project: Id, branch: string)
    | DeleteProject(project: Id)
    | ChangeLogins(logins: map<int, string>)
    | Wait(seconds: nat)

  datatype Step = ByWorker(w: nat, wm: WorkerMove) | ByHandler(delivery: string, hm: HandlerMove) | ByOther(om: OtherMove)

  const REGISTRY_PULL_HOST := "registry.spinup.in"
  const ZERO_SHA := "0000000000000000000000000000000000000000"

  function PullImage(slug: string, sha: string): string {
    REGISTRY_PULL_HOST + "/" + slug + ":" + Short(sha)
  }

  function LiveUrl(slug: string, sha: string): string {
    "https://" + slug + "-" + Short(sha) + "." + TENANT_HOST_ZONE
  }

  /** The image of one commit of one project is no other's. */
  lemma ImagesAreInjective(slug: string, sha: string, slug': string, sha': string)
    requires ':' !in slug && ':' !in slug' && PullImage(slug, sha) == PullImage(slug', sha')
    ensures slug == slug' && Short(sha) == Short(sha')
  {
    var head := REGISTRY_PULL_HOST + "/";
    var image := PullImage(slug, sha);
    assert image[|head|..] == slug + ":" + Short(sha);
    assert PullImage(slug', sha')[|head|..] == slug' + ":" + Short(sha');
    CutAtColon(slug, Short(sha), slug', Short(sha'));
  }

  lemma CutAtColon(a: string, x: string, b: string, y: string)
    requires ':' !in a && ':' !in b && a + ":" + x == b + ":" + y
    ensures a == b && x == y
  {
    var s := a + ":" + x;
    assert s[|a|] == ':' && forall k :: 0 <= k < |a| ==> s[k] == a[k];
    assert s[|b|] == ':' && forall k :: 0 <= k < |b| ==> s[k] == b[k];
    assert a == s[..|a|] && b == s[..|b|] && x == s[|a| + 1..] && y == s[|b| + 1..];
  }

  predicate IsBranchRef(ref: string) {
    "refs/heads/" <= ref
  }

  predicate IsBranchPush(ref: string, sha: string) {
    IsBranchRef(ref) && sha != "" && sha != ZERO_SHA
  }

  /** The events `dispatch` hands to EnqueueDeployment. */
  predicate Enqueues(e: Event) {
    match e.trigger
    case Webhook => !e.deleted && IsBranchPush(e.ref, e.sha)
    case Preview => e.sha != ""
    case _ => false
  }

  // ----- steps of a worker -----

  predicate IsProduction(c: Claim) {
    c.ref == "refs/heads/" + c.productionBranch
  }

  ghost predicate WorkerCan(s: System, w: nat, m: WorkerMove) {
    && w in s.workers
    && match s.workers[w] {
         case Down => m.Boot?
         case Idle => m.Crash? || m.SweepStale? || (m.ClaimRow? && IsOldestQueued(s.db, m.id) && HasLogin(s.db, m.id))
         case Holding(c, AwaitingJob) => m.Crash? || m.AttemptFails? || m.JobSucceeds?
         case Holding(c, JobDone) => m.Crash? || m.MarkDeploying?
         case Holding(c, Applying) => m.Crash? || m.AttemptFails? || (m.MarkReady? && c.login != "")
         case Holding(c, Serving) => m.Crash? || if IsProduction(c) then m.ApplyAlias? else m.Finish?
         case Holding(c, Aliased) => m.Crash? || m.PointProduction?
         case Holding(c, Finishing) => m.Crash? || m.Finish?
         case Holding(c, Failing) => m.Crash? || m.MarkFailed?
       }
  }

  function ClaimOf(db: Db, id: Id): Claim
    requires HasLogin(db, id)
  {
    var r := db.rows[id];
    var p := db.projects[r.project];
    Claim(id, r.project, p.slug, r.sha, r.ref, p.productionBranch, db.logins[p.installation])
  }

  function WorkerDb(s: System, w: nat, m: WorkerMove): (after: Db)
    requires WorkerCan(s, w, m)
    ensures after.rows.Keys == s.db.rows.Keys && after.deliveries == s.db.deliveries && after.issued == s.db.issued
    ensures !m.PointProduction? ==> after.projects == s.db.projects
  {
    var db, now := s.db, s.now;
    match m
    case ClaimRow(id, fault) => Written(db, AfterClaim(db, id, now), fault)
    case SweepStale(fault) => Written(db, AfterRequeueStale(db, now - BUILD_TIMEOUT), fault)
    case MarkDeploying(fault) =>
      var c := s.workers[w].claim;
      Written(db, AfterDeploying(db, c.id, PullImage(c.slug, c.sha), now), fault)
    case MarkReady(fault) =>
      var c := s.workers[w].claim;
      Written(db, AfterReady(db, c.id, LiveUrl(c.slug, c.sha), now), fault)
    case PointProduction(fault) =>
      var c := s.workers[w].claim;
      Written(db, AfterSetProduction(db, c.project, c.id), fault)
    case MarkFailed(reason, fault) => Written(db, AfterFailed(db, s.workers[w].claim.id, reason, now), fault)
    case Boot(fault) => Written(db, AfterRequeueStuck(db), fault)
    case _ => db
  }

  /** A write that reports an error sends `runOne` to its error return, committed or not. */
  function WorkerNext(s: System, w: nat, m: WorkerMove): Worker
    requires WorkerCan(s, w, m)
  {
    match m
    case ClaimRow(id, fault) => if fault.Acked? then Holding(ClaimOf(s.db, id), AwaitingJob) else Idle
    case JobSucceeds => Holding(s.workers[w].claim, JobDone)
    case AttemptFails => Holding(s.workers[w].claim, Failing)
    case MarkDeploying(fault) => Holding(s.workers[w].claim, if fault.Acked? then Applying else Failing)
    case MarkReady(fault) => Holding(s.workers[w].claim, if fault.Acked? then Serving else Failing)
    case ApplyAlias(fault) => Holding(s.workers[w].claim, if fault.Acked? then Aliased else Finishing)
    case PointProduction(fault) => Holding(s.workers[w].claim, Finishing)
    case Crash => Down
    case _ => Idle
  }

  function AfterWorker(s: System, w: nat, m: WorkerMove): (t: System)
    requires WorkerCan(s, w, m)
    ensures t.db == WorkerDb(s, w, m) && t.observed == Observed(s, w, m) && t.workers == s.workers[w := WorkerNext(s, w, m)]
    ensures t.handlers == s.handlers && t.promotes == s.promotes && t.now == s.now
  {
    s.(db := WorkerDb(s, w, m), workers := s.workers[w := WorkerNext(s, w, m)], observed := Observed(s, w, m),
       alias := if m.ApplyAlias? then Swap(s.alias, s.workers[w].claim.project, s.workers[w].claim.id, m.fault) else s.alias)
  }

  /** A committed claim starts a new attempt, which has observed nothing yet. */
  function Observed(s: System, w: nat, m: WorkerMove): set<Id>
    requires WorkerCan(s, w, m)
  {
    match m
    case JobSucceeds => s.observed + {s.workers[w].claim.id}
    case ClaimRow(id, fault) => if fault.Lost? then s.observed else s.observed - {id}
    case _ => s.observed
  }

  /** The effect of an alias call. */
  function Swap(alias: map<Id, Id>, project: Id, id: Id, fault: Fault): map<Id, Id> {
    if fault.Lost? then alias else alias[project := id]
  }

  // ----- steps of a webhook handler -----

  ghost predicate HandlerCan(s: System, delivery: string, m: HandlerMove) {
    if m.Deliver? then delivery != ""
    else delivery in s.handlers
         && match m {
              case Locate(project) =>
                s.handlers[delivery].Received?
                && IsProjectOf(s.db, s.handlers[delivery].event.installation, s.handlers[delivery].event.repo, project)
              case CheckDuplicate => s.handlers[delivery].Located?
              case InsertPush(id, fault) => s.handlers[delivery].Cleared? && id !in s.db.issued
              case _ => true
            }
  }

  predicate NeedsCheck(h: Handler)
    requires h.Located?
  {
    h.event.trigger.Webhook? && h.event.ref != h.productionRef
  }

  /** The project may be gone when the INSERT runs; the foreign key then rejects the row. */
  predicate Inserts(s: System, delivery: string, m: HandlerMove)
    requires HandlerCan(s, delivery, m)
  {
    m.InsertPush? && !m.fault.Lost? && s.handlers[delivery].project in s.db.projects
  }

  function AfterHandler(s: System, delivery: string, m: HandlerMove): (t: System)
    requires HandlerCan(s, delivery, m)
    ensures t.workers == s.workers && t.promotes == s.promotes && t.observed == s.observed && t.alias == s.alias && t.now == s.now
  {
    match m
    case Deliver(event, fault) =>
      s.(db := Written(s.db, AfterRecordDelivery(s.db, delivery), fault),
         handlers := if fault.Acked? && delivery !in s.db.deliveries && Enqueues(event)
                     then s.handlers[delivery := Received(event)] else s.handlers)
    case Locate(project) =>
      s.(handlers := s.handlers[delivery :=
           Located(s.handlers[delivery].event, project, ProductionRef(s.db.projects[project].productionBranch))])
    case CheckDuplicate =>
      var h := s.handlers[delivery];
      if NeedsCheck(h) && Built(s.db, h.project, h.event.sha) then s.(handlers := s.handlers - {delivery})
      else s.(handlers := s.handlers[delivery := Cleared(h.event, h.project, NeedsCheck(h))])
    case InsertPush(id, fault) =>
      var h := s.handlers[delivery];
      var ended := s.(handlers := s.handlers - {delivery});
      if Inserts(s, delivery, m)
      then ended.(db := AfterInsert(s.db, id, NewRow(h.project, h.event.sha, h.event.ref, h.event.trigger, Some(delivery), s.now)))
      else ended
    case HandlerEnds => s.(handlers := s.handlers - {delivery})
  }

  // ----- all other steps -----

  ghost predicate OtherCan(s: System, m: OtherMove) {
    match m
    case InsertDirect(id, project, sha, ref, trigger) =>
      id !in s.db.issued && project in s.db.projects && (trigger.Install? || trigger.Manual?)
    case Redeploy(id, source) => id !in s.db.issued && source in s.db.rows
    case PromoteRead(r, id) => r !in s.promotes && id in s.db.rows && s.db.rows[id].status.Ready?
    case PromoteAlias(r, fault) => r in s.promotes && !s.promotes[r].swapped
    case PromoteWrite(r, fault) => r in s.promotes && s.promotes[r].swapped
    case PromoteEnds(r) => r in s.promotes
    case CreateProject(project, installation, repo, slug, branch) =>
      project !in s.db.projects && installation in s.db.logins && forall p :: !IsProjectOf(s.db, installation, repo, p)
    case ChangeBranch(project, branch) => project in s.db.projects
    case _ => true
  }

  function AfterOther(s: System, m: OtherMove): (t: System)
    requires OtherCan(s, m)
    ensures t.workers == s.workers && t.handlers == s.handlers && t.observed == s.observed
  {
    match m
    case Reconcile(id, reason, fault) => s.(db := Written(s.db, AfterRequeueOne(s.db, id, reason), fault))
    case InsertDirect(id, project, sha, ref, trigger) =>
      s.(db := AfterInsert(s.db, id, NewRow(project, sha, ref, trigger, None, s.now)))
    case Redeploy(id, source) => s.(db := AfterInsert(s.db, id, RedeployOf(s.db.rows[source], s.now)))
    case PromoteRead(r, id) => s.(promotes := s.promotes[r := Promote(s.db.rows[id].project, id, false)])
    case PromoteAlias(r, fault) =>
      var p := s.promotes[r];
      s.(alias := Swap(s.alias, p.project, p.id, fault),
         promotes := if fault.Acked? then s.promotes[r := p.(swapped := true)] else s.promotes - {r})
    case PromoteWrite(r, fault) =>
      s.(db := Written(s.db, AfterSetProduction(s.db, s.promotes[r].project, s.promotes[r].id), fault),
         promotes := s.promotes - {r})
    case PromoteEnds(r) => s.(promotes := s.promotes - {r})
    case CreateProject(project, installation, repo, slug, branch) =>
      s.(db := s.db.(projects := s.db.projects[project := Project(installation, repo, slug, branch, None)]))
    case ChangeBranch(project, branch) =>
      s.(db := s.db.(projects := s.db.projects[project := s.db.projects[project].(productionBranch := branch)]))
    case DeleteProject(project) => s.(db := AfterDeleteProject(s.db, project))
    case ChangeLogins(logins) => s.(db := s.db.(logins := logins))
    case Wait(seconds) => s.(now := s.now + seconds)
  }

  ghost predicate Enabled(s: System, step: Step) {
    match step
    case ByWorker(w, m) => WorkerCan(s, w, m)
    case ByHandler(d, m) => HandlerCan(s, d, m)
    case ByOther(m) => OtherCan(s, m)
  }

  function Apply(s: System, step: Step): System
    requires Enabled(s, step)
  {
    match step
    case ByWorker(w, m) => AfterWorker(s, w, m)
    case ByHandler(d, m) => AfterHandler(s, d, m)
    case ByOther(m) => AfterOther(s, m)
  }

  /** An empty database; no process is up yet. */
  ghost predicate Init(s: System) {
    && s.db.rows == map[] && s.db.projects == map[] && s.db.issued == [] && s.db.deliveries == {}
    && (forall w :: w in s.workers ==> s.workers[w].Down?)
    && s.handlers == map[] && s.promotes == map[] && s.alias == map[] && s.observed == {}
  }

  /** Taking `steps` from `s` leads to `t`. */
  ghost predicate Executes(s: System, steps: seq<Step>, t: System)
    decreases |steps|
  {
    if steps == [] then s == t
    else Enabled(s, steps[0]) && Executes(Apply(s, steps[0]), steps[1..], t)
  }

  /** The control plane is deployed with one replica. */
  ghost predicate OneWorker(s: System) {
    exists w :: s.workers.Keys == {w}
  }

  // ----- the invariant -----

  /** What the columns of one row say about each other; `slug` is its project's. */
  predicate RowShape(r: Row, slug: string, observed: bool) {
    && (r.status.Queued? ==> r.started == None && r.ended == None)
    && (r.status.Building? ==> r.started.Some? && r.ended == None)
    && (r.status.Deploying? ==> r.ended.Some?)
    && (r.status.Deploying? || r.status.Ready? ==> r.image == Some(PullImage(slug, r.sha)) && observed)
    && (r.status.Ready? ==> r.url == Some(LiveUrl(slug, r.sha)) && r.readyAt.Some?)
    && (r.status.Failed? ==> r.error.Some? && r.ended.Some?)
    && (!r.status.Ready? ==> r.url == None && r.readyAt == None)
    && (r.trigger.Webhook? ==> IsBranchPush(r.ref, r.sha))
  }

  predicate Timestamps(r: Row, now: int) {
    && r.created <= now
    && (r.started.Some? ==> r.created <= r.started.value <= now)
    && (r.ended.Some? ==> r.created <= r.ended.value <= now)
    && (r.readyAt.Some? ==> r.created <= r.readyAt.value <= now)
    && (r.started.Some? && r.ended.Some? ==> r.started.value <= r.ended.value)
    && (r.ended.Some? && r.readyAt.Some? ==> r.ended.value <= r.readyAt.value)
  }

  predicate RowOk(db: Db, id: Id, observed: set<Id>, now: int)
    requires id in db.rows
  {
    var r := db.rows[id];
    r.project in db.projects && RowShape(r, db.projects[r.project].slug, id in observed) && Timestamps(r, now)
  }

  ghost predicate NoRepeats(ids: seq<Id>) {
    forall i, j :: 0 <= i < j < |ids| ==> ids[i] != ids[j]
  }

  ghost predicate RowsOk(db: Db, observed: set<Id>, now: int) {
    && Consistent(db)
    && NoRepeats(db.issued)
    && forall id :: id in db.rows ==> RowOk(db, id, observed, now)
  }

  predicate IsServing(phase: Phase) {
    phase.Serving? || phase.Aliased? || phase.Finishing?
  }

  /** What a worker knows about the row it holds, unless the project was deleted meanwhile. */
  ghost predicate HoldingOk(db: Db, observed: set<Id>, c: Claim, phase: Phase) {
    && c.id in db.issued
    && (phase.JobDone? || phase.Applying? || IsServing(phase) ==> c.id in observed)
    && (c.id in db.rows ==>
          var r := db.rows[c.id];
          && r.project == c.project && r.sha == c.sha && r.ref == c.ref
          && r.project in db.projects && db.projects[r.project].slug == c.slug
          && (phase.AwaitingJob? || phase.JobDone? || phase.Applying? ==> !Terminal(r))
          && (phase.Applying? ==> r.image == Some(PullImage(c.slug, c.sha)))
          && (IsServing(phase) ==> r.status.Ready?))
  }

  ghost predicate WorkersOk(s: System) {
    forall w :: w in s.workers && s.workers[w].Holding? ==>
      HoldingOk(s.db, s.observed, s.workers[w].claim, s.workers[w].phase)
  }

  ghost predicate ReadyRowOf(db: Db, project: Id, id: Id) {
    id in db.rows && db.rows[id].project == project && db.rows[id].status.Ready?
  }

  /** production_deployment_id is NULL or names a ready row of the same project. */
  ghost predicate ProductionOk(db: Db) {
    forall p :: p in db.projects && db.projects[p].production.Some? ==>
      ReadyRowOf(db, p, db.projects[p].production.value)
  }

  ghost predicate PromoteOk(db: Db, p: Promote) {
    p.id in db.issued && (p.id in db.rows ==> ReadyRowOf(db, p.project, p.id))
  }

  ghost predicate PromotesOk(db: Db, promotes: map<nat, Promote>) {
    forall r :: r in promotes ==> PromoteOk(db, promotes[r])
  }

  ghost predicate DeliveriesOk(db: Db, handlers: map<string, Handler>) {
    && (forall d :: d in handlers ==> d in db.deliveries && Enqueues(handlers[d].event))
    && (forall id :: id in db.rows && db.rows[id].delivery.Some? ==>
          db.rows[id].delivery.value in db.deliveries && db.rows[id].delivery.value !in handlers)
    && (forall a, b | a in db.rows && b in db.rows && db.rows[a].delivery.Some? && db.rows[a].delivery == db.rows[b].delivery ::
          a == b)
  }

  ghost predicate Inv(s: System) {
    && RowsOk(s.db, s.observed, s.now) && WorkersOk(s) && ProductionOk(s.db)
    && PromotesOk(s.db, s.promotes) && DeliveriesOk(s.db, s.handlers)
  }

  // ----- rows between two states -----

  /** The columns no statement rewrites. */
  predicate SameIdentity(a: Row, b: Row) {
    a.project == b.project && a.sha == b.sha && a.ref == b.ref && a.trigger == b.trigger
    && a.delivery == b.delivery && a.created == b.created
  }

  /** Ids are inserted once, identities stay, and a ready or failed row is never rewritten. */
  ghost predicate History(a: Db, b: Db) {
    && a.issued <= b.issued && a.deliveries <= b.deliveries
    && (forall id :: id in b.rows && id in a.rows ==> SameIdentity(a.rows[id], b.rows[id]))
    && (forall id :: id in b.rows && id in a.rows && Terminal(a.rows[id]) ==> b.rows[id] == a.rows[id])
    && (forall id :: id in b.rows && id !in a.rows ==> id !in a.issued && id in b.issued)
  }

  /** In one step, moreover, rows disappear only with their project and projects keep their slug. */
  ghost predicate Evolves(a: Db, b: Db) {
    && History(a, b)
    && (forall id :: id in a.rows && id !in b.rows ==> a.rows[id].project !in b.projects)
    && (forall p :: p in a.projects && p in b.projects ==> a.projects[p].slug == b.projects[p].slug)
  }

  ghost predicate Kept(a: Db, b: Db, observed: set<Id>, now: int) {
    Evolves(a, b) && RowsOk(b, observed, now)
  }

  /** Rewriting one unfinished row. */
  lemma PutKeeps(db: Db, id: Id, r: Row, fault: Fault, observed: set<Id>, now: int)
    requires RowsOk(db, observed, now) && id in db.rows && !Terminal(db.rows[id]) && SameIdentity(db.rows[id], r)
    requires RowShape(r, db.projects[r.project].slug, id in observed) && Timestamps(r, now)
    ensures Kept(db, Written(db, db.(rows := db.rows[id := r]), fault), observed, now)
  {
    var after := db.(rows := db.rows[id := r]);
    assert HasProject(db, id);
    assert Evolves(db, after);
    hide Evolves, Terminal, SameIdentity;
    forall o | o in after.rows ensures HasProject(after, o) && RowOk(after, o, observed, now) {
      assert HasProject(db, o) && RowOk(db, o, observed, now);
    }
    hide RowShape, Timestamps;
    SameKeeps(db, observed, now);
  }

  lemma RequeueKeeps(db: Db, hit: set<Id>, fault: Fault, observed: set<Id>, now: int)
    requires RowsOk(db, observed, now) && forall id :: id in hit ==> id in db.rows && InFlight(db.rows[id])
    ensures Kept(db, Written(db, RequeueAll(db, hit), fault), observed, now)
  {
    var after := RequeueAll(db, hit);
    forall o | o in after.rows ensures HasProject(after, o) && RowOk(after, o, observed, now) {
      assert HasProject(db, o) && RowOk(db, o, observed, now);
    }
  }

  lemma InsertKeeps(db: Db, id: Id, r: Row, observed: set<Id>, now: int)
    requires RowsOk(db, observed, now) && id !in db.issued && r.project in db.projects
    requires r == NewRow(r.project, r.sha, r.ref, r.trigger, r.delivery, now) && (r.trigger.Webhook? ==> IsBranchPush(r.ref, r.sha))
    ensures Kept(db, AfterInsert(db, id, r), observed, now)
  {
    var after := AfterInsert(db, id, r);
    forall o | o in after.rows ensures HasProject(after, o) && RowOk(after, o, observed, now) {
      assert o != id ==> HasProject(db, o) && RowOk(db, o, observed, now);
    }
  }

  lemma ClaimKeeps(db: Db, id: Id, fault: Fault, observed: set<Id>, now: int)
    requires RowsOk(db, observed, now) && id in db.rows && db.rows[id].status.Queued?
    ensures Kept(db, Written(db, AfterClaim(db, id, now), fault), observed, now)
  {
    assert RowOk(db, id, observed, now);
    PutKeeps(db, id, AfterClaim(db, id, now).rows[id], fault, observed, now);
  }

  lemma DeployingKeeps(db: Db, c: Claim, fault: Fault, observed: set<Id>, now: int)
    requires RowsOk(db, observed, now) && HoldingOk(db, observed, c, JobDone)
    ensures Kept(db, Written(db, AfterDeploying(db, c.id, PullImage(c.slug, c.sha), now), fault), observed, now)
  {
    if c.id in db.rows {
      assert RowOk(db, c.id, observed, now);
      PutKeeps(db, c.id, AfterDeploying(db, c.id, PullImage(c.slug, c.sha), now).rows[c.id], fault, observed, now);
    }
  }

  lemma ReadyKeeps(db: Db, c: Claim, fault: Fault, observed: set<Id>, now: int)
    requires RowsOk(db, observed, now) && HoldingOk(db, observed, c, Applying)
    ensures Kept(db, Written(db, AfterReady(db, c.id, LiveUrl(c.slug, c.sha), now), fault), observed, now)
  {
    if c.id in db.rows {
      assert RowOk(db, c.id, observed, now);
      PutKeeps(db, c.id, AfterReady(db, c.id, LiveUrl(c.slug, c.sha), now).rows[c.id], fault, observed, now);
    }
  }

  lemma FailedKeeps(db: Db, id: Id, reason: string, fault: Fault, observed: set<Id>, now: int)
    requires RowsOk(db, observed, now)
    ensures Kept(db, Written(db, AfterFailed(db, id, reason, now), fault), observed, now)
  {
    if id in db.rows && InFlight(db.rows[id]) {
      assert RowOk(db, id, observed, now);
      PutKeeps(db, id, AfterFailed(db, id, reason, now).rows[id], fault, observed, now);
    }
  }

  lemma RequeueOneKeeps(db: Db, id: Id, reason: string, fault: Fault, observed: set<Id>, now: int)
    requires RowsOk(db, observed, now)
    ensures Kept(db, Written(db, AfterRequeueOne(db, id, reason), fault), observed, now)
  {
    if id in db.rows && InFlight(db.rows[id]) {
      assert RowOk(db, id, observed, now);
      PutKeeps(db, id, AfterRequeueOne(db, id, reason).rows[id], fault, observed, now);
    }
  }

  /** Statements that leave the deployments alone and every project's identity with it. */
  lemma ProjectsKeep(db: Db, projects: map<Id, Project>, logins: map<int, string>, observed: set<Id>, now: int)
    requires RowsOk(db, observed, now) && UniqueRepos(projects)
    requires forall p :: p in db.projects ==> p in projects && projects[p].slug == db.projects[p].slug
    ensures Kept(db, db.(projects := projects, logins := logins), observed, now)
  {
    var after := db.(projects := projects, logins := logins);
    forall o | o in after.rows ensures HasProject(after, o) && RowOk(after, o, observed, now) {
      assert HasProject(db, o) && RowOk(db, o, observed, now);
    }
  }

  lemma SameKeeps(db: Db, observed: set<Id>, now: int)
    requires RowsOk(db, observed, now)
    ensures Kept(db, db, observed, now)
  {
  }

  lemma SetProductionKeeps(db: Db, project: Id, id: Id, fault: Fault, observed: set<Id>, now: int)
    requires RowsOk(db, observed, now)
    ensures Kept(db, Written(db, AfterSetProduction(db, project, id), fault), observed, now)
  {
    ProjectsKeep(db, Written(db, AfterSetProduction(db, project, id), fault).projects, db.logins, observed, now);
  }

  lemma HolderKeepsRows(s: System, w: nat, m: WorkerMove)
    requires RowsOk(s.db, s.observed, s.now) && WorkersOk(s) && WorkerCan(s, w, m) && s.workers[w].Holding?
    ensures Kept(s.db, WorkerDb(s, w, m), s.observed, s.now)
  {
    var c := s.workers[w].claim;
    assert HoldingOk(s.db, s.observed, c, s.workers[w].phase);
    assert m.MarkDeploying? ==> s.workers[w].phase == JobDone;
    assert m.MarkReady? ==> s.workers[w].phase == Applying;
    assert !m.ClaimRow? && !m.SweepStale? && !m.Boot?;
    hide *;
    HoldingDb(s, w, m);
    match m
    case MarkDeploying(fault) => DeployingKeeps(s.db, c, fault, s.observed, s.now);
    case MarkReady(fault) => ReadyKeeps(s.db, c, fault, s.observed, s.now);
    case MarkFailed(reason, fault) => FailedKeeps(s.db, c.id, reason, fault, s.observed, s.now);
    case PointProduction(fault) => SetProductionKeeps(s.db, c.project, c.id, fault, s.observed, s.now);
    case _ => SameKeeps(s.db, s.observed, s.now);
  }

  lemma HoldingDb(s: System, w: nat, m: WorkerMove)
    requires WorkerCan(s, w, m) && s.workers[w].Holding?
    ensures var c, now := s.workers[w].claim, s.now;
            WorkerDb(s, w, m) ==
            match m
            case MarkDeploying(fault) => Written(s.db, AfterDeploying(s.db, c.id, PullImage(c.slug, c.sha), now), fault)
            case MarkReady(fault) => Written(s.db, AfterReady(s.db, c.id, LiveUrl(c.slug, c.sha), now), fault)
            case MarkFailed(reason, fault) => Written(s.db, AfterFailed(s.db, c.id, reason, now), fault)
            case PointProduction(fault) => Written(s.db, AfterSetProduction(s.db, c.project, c.id), fault)
            case _ => s.db
  {
    hide Written, AfterDeploying, AfterReady, AfterFailed, AfterSetProduction, PullImage, LiveUrl;
  }

  lemma WorkerKeepsRows(s: System, w: nat, m: WorkerMove)
    requires RowsOk(s.db, s.observed, s.now) && WorkersOk(s) && WorkerCan(s, w, m)
    ensures Kept(s.db, WorkerDb(s, w, m), s.observed, s.now)
  {
    hide Kept, RowsOk, WorkersOk;
    if s.workers[w].Holding? {
      HolderKeepsRows(s, w, m);
    } else if m.ClaimRow? {
      ClaimKeeps(s.db, m.id, m.fault, s.observed, s.now);
    } else if m.SweepStale? {
      RequeueKeeps(s.db, StaleRows(s.db, s.now - BUILD_TIMEOUT), m.fault, s.observed, s.now);
    } else if m.Boot? {
      RequeueKeeps(s.db, StuckRows(s.db), m.fault, s.observed, s.now);
    } else {
      SameKeeps(s.db, s.observed, s.now);
    }
  }

  lemma HandlerKeepsRows(s: System, d: string, m: HandlerMove)
    requires RowsOk(s.db, s.observed, s.now) && DeliveriesOk(s.db, s.handlers) && HandlerCan(s, d, m)
    ensures Kept(s.db, AfterHandler(s, d, m).db, s.observed, s.now)
  {
    if m.Deliver? {
      DeliveryKeeps(s.db, s.db.deliveries + {d}, s.observed, s.now);
    }
    SameKeeps(s.db, s.observed, s.now);
    assert d in s.handlers ==> Enqueues(s.handlers[d].event);
    hide Kept, RowsOk;
    if m.InsertPush? && Inserts(s, d, m) {
      var h := s.handlers[d];
      InsertKeeps(s.db, m.id, NewRow(h.project, h.event.sha, h.event.ref, h.event.trigger, Some(d), s.now), s.observed, s.now);
    }
  }

  lemma DeliveryKeeps(db: Db, deliveries: set<string>, observed: set<Id>, now: int)
    requires RowsOk(db, observed, now) && db.deliveries <= deliveries
    ensures Kept(db, db.(deliveries := deliveries), observed, now)
  {
    var after := db.(deliveries := deliveries);
    forall o | o in after.rows ensures HasProject(after, o) && RowOk(after, o, observed, now) {
      assert HasProject(db, o) && RowOk(db, o, observed, now);
    }
  }

  lemma DeleteKeeps(db: Db, project: Id, observed: set<Id>, now: int)
    requires RowsOk(db, observed, now)
    ensures Kept(db, AfterDeleteProject(db, project), observed, now)
  {
    var after := AfterDeleteProject(db, project);
    forall o | o in after.rows ensures HasProject(after, o) && RowOk(after, o, observed, now) {
      assert HasProject(db, o) && RowOk(db, o, observed, now);
    }
  }

  lemma WaitKeeps(db: Db, observed: set<Id>, now: int, later: int)
    requires RowsOk(db, observed, now) && now <= later
    ensures Kept(db, db, observed, later)
  {
    forall o | o in db.rows ensures RowOk(db, o, observed, later) {
      assert RowOk(db, o, observed, now);
    }
  }

  lemma ProjectMovesKeep(s: System, m: OtherMove)
    requires RowsOk(s.db, s.observed, s.now) && OtherCan(s, m) && (m.CreateProject? || m.ChangeBranch? || m.ChangeLogins?)
    ensures Kept(s.db, AfterOther(s, m).db, s.observed, s.now)
  {
    var after := AfterOther(s, m).db;
    if m.CreateProject? {
      forall p | p in s.db.projects
        ensures !(s.db.projects[p].installation == m.installation && s.db.projects[p].repo == m.repo)
      {
        assert !IsProjectOf(s.db, m.installation, m.repo, p);
      }
    }
    ProjectsKeep(s.db, after.projects, after.logins, s.observed, s.now);
  }

  lemma OtherKeepsRows(s: System, m: OtherMove)
    requires RowsOk(s.db, s.observed, s.now) && OtherCan(s, m)
    ensures Kept(s.db, AfterOther(s, m).db, s.observed, AfterOther(s, m).now)
  {
    assert m.Redeploy? ==> HasProject(s.db, m.source) && RowOk(s.db, m.source, s.observed, s.now);
    hide Kept, RowsOk;
    match m
    case Reconcile(id, reason, fault) => RequeueOneKeeps(s.db, id, reason, fault, s.observed, s.now);
    case InsertDirect(id, project, sha, ref, trigger) =>
      InsertKeeps(s.db, id, NewRow(project, sha, ref, trigger, None, s.now), s.observed, s.now);
    case Redeploy(id, source) => InsertKeeps(s.db, id, RedeployOf(s.db.rows[source], s.now), s.observed, s.now);
    case PromoteWrite(r, fault) => SetProductionKeeps(s.db, s.promotes[r].project, s.promotes[r].id, fault, s.observed, s.now);
    case DeleteProject(project) => DeleteKeeps(s.db, project, s.observed, s.now);
    case Wait(seconds) => WaitKeeps(s.db, s.observed, s.now, s.now + seconds);
    case PromoteRead(r, id) => SameKeeps(s.db, s.observed, s.now);
    case PromoteAlias(r, fault) => SameKeeps(s.db, s.observed, s.now);
    case PromoteEnds(r) => SameKeeps(s.db, s.observed, s.now);
    case _ => ProjectMovesKeep(s, m);
  }

  /** A row that is not deploying or ready needs no observation. */
  lemma ObservedChanges(db: Db, before: set<Id>, after: set<Id>, now: int)
    requires RowsOk(db, before, now)
    requires forall id :: id in before && id !in after && id in db.rows ==> !db.rows[id].status.Deploying? && !db.rows[id].status.Ready?
    ensures RowsOk(db, after, now)
  {
    forall o | o in db.rows ensures RowOk(db, o, after, now) {
      assert RowOk(db, o, before, now);
    }
  }

  lemma NewAttemptIsBuilding(s: System, w: nat, m: WorkerMove, id: Id)
    requires WorkerCan(s, w, m) && id in s.observed && id !in Observed(s, w, m)
    ensures id in WorkerDb(s, w, m).rows && WorkerDb(s, w, m).rows[id].status.Building?
  {
  }

  // ----- the other parts of the invariant -----

  /** A terminal row that survives a step is still the same terminal row. */
  lemma ReadyStays(a: Db, b: Db, project: Id, id: Id)
    requires Evolves(a, b) && ReadyRowOf(a, project, id) && (project in b.projects || id in b.rows)
    ensures ReadyRowOf(b, project, id)
  {
  }

  lemma PromotesKeep(a: Db, b: Db, before: map<nat, Promote>, after: map<nat, Promote>)
    requires PromotesOk(a, before) && Evolves(a, b)
    requires forall r :: r in after ==>
               (r in before && before[r].project == after[r].project && before[r].id == after[r].id) || PromoteOk(a, after[r])
    ensures PromotesOk(b, after)
  {
    forall r | r in after ensures PromoteOk(b, after[r]) {
      assert PromoteOk(a, after[r]);
    }
  }

  lemma PromotesKeepOther(s: System, m: OtherMove)
    requires PromotesOk(s.db, s.promotes) && Consistent(s.db) && OtherCan(s, m) && Evolves(s.db, AfterOther(s, m).db)
    ensures PromotesOk(AfterOther(s, m).db, AfterOther(s, m).promotes)
  {
    assert m.PromoteRead? ==> HasProject(s.db, m.id);
    hide PromotesOk, Evolves, Consistent;
    PromotesKeep(s.db, AfterOther(s, m).db, s.promotes, AfterOther(s, m).promotes);
  }

  /** Where the production pointers of `b` come from. */
  ghost predicate PointersFrom(a: Db, b: Db) {
    forall p :: p in b.projects && b.projects[p].production.Some? ==>
      || (p in a.projects && a.projects[p].production == b.projects[p].production)
      || ReadyRowOf(a, p, b.projects[p].production.value)
  }

  lemma WorkerPoints(s: System, w: nat, m: WorkerMove)
    requires WorkersOk(s) && WorkerCan(s, w, m)
    ensures PointersFrom(s.db, WorkerDb(s, w, m))
  {
    if m.PointProduction? {
      assert HoldingOk(s.db, s.observed, s.workers[w].claim, Aliased);
    } else {
      hide WorkerDb, WorkersOk;
    }
  }

  lemma OtherPoints(s: System, m: OtherMove)
    requires PromotesOk(s.db, s.promotes) && OtherCan(s, m)
    ensures PointersFrom(s.db, AfterOther(s, m).db)
  {
    if m.PromoteWrite? {
      assert PromoteOk(s.db, s.promotes[m.r]);
    } else {
      hide PromotesOk;
    }
  }

  lemma ProductionKeeps(a: Db, b: Db)
    requires ProductionOk(a) && Evolves(a, b) && PointersFrom(a, b)
    ensures ProductionOk(b)
  {
    forall p | p in b.projects && b.projects[p].production.Some?
      ensures ReadyRowOf(b, p, b.projects[p].production.value)
    {
      ReadyStays(a, b, p, b.projects[p].production.value);
    }
  }

  lemma DeliveriesKeepHandler(s: System, d: string, m: HandlerMove)
    requires DeliveriesOk(s.db, s.handlers) && HandlerCan(s, d, m)
    requires forall id :: id in s.db.rows ==> id in s.db.issued
    ensures DeliveriesOk(AfterHandler(s, d, m).db, AfterHandler(s, d, m).handlers)
  {
  }

  /** Rows keep their delivery ids, and only handlers insert rows that have one. */
  lemma DeliveriesKeep(a: Db, b: Db, handlers: map<string, Handler>)
    requires DeliveriesOk(a, handlers) && Evolves(a, b)
    requires forall id :: id in b.rows && id !in a.rows ==> b.rows[id].delivery == None
    ensures DeliveriesOk(b, handlers)
  {
  }

  /** What a step of anyone but a worker may do to a row: nothing, or requeue it. */
  ghost predicate OnlyRequeues(a: Db, b: Db) {
    forall id :: id in a.rows && id in b.rows ==>
      b.rows[id] == a.rows[id] || (InFlight(a.rows[id]) && b.rows[id] == Requeued(a.rows[id], b.rows[id].error))
  }

  lemma HoldingStable(a: Db, b: Db, observed: set<Id>, c: Claim, phase: Phase)
    requires HoldingOk(a, observed, c, phase) && Evolves(a, b) && OnlyRequeues(a, b) && Consistent(b)
    ensures HoldingOk(b, observed, c, phase)
  {
    assert c.id in b.rows ==> HasProject(b, c.id);
  }

  lemma HoldingAfterDeploying(db: Db, observed: set<Id>, c: Claim, now: int, fault: Fault)
    requires HoldingOk(db, observed, c, JobDone)
    ensures var after := Written(db, AfterDeploying(db, c.id, PullImage(c.slug, c.sha), now), fault);
            HoldingOk(after, observed, c, if fault.Acked? then Applying else Failing)
  {
  }

  lemma HoldingAfterReady(db: Db, observed: set<Id>, c: Claim, now: int, fault: Fault)
    requires HoldingOk(db, observed, c, Applying)
    ensures var after := Written(db, AfterReady(db, c.id, LiveUrl(c.slug, c.sha), now), fault);
            HoldingOk(after, observed, c, if fault.Acked? then Serving else Failing)
  {
  }

  lemma HoldingAfterPointer(db: Db, observed: set<Id>, c: Claim, fault: Fault)
    requires HoldingOk(db, observed, c, Aliased)
    ensures HoldingOk(Written(db, AfterSetProduction(db, c.project, c.id), fault), observed, c, Finishing)
  {
  }

  /** Steps that write nothing. */
  lemma HoldingMovesOn(db: Db, few: set<Id>, many: set<Id>, c: Claim, before: Phase, after: Phase)
    requires HoldingOk(db, few, c, before) && few <= many
    requires after == Failing || (before == AwaitingJob && after == JobDone && c.id in many) || (IsServing(before) && IsServing(after))
    ensures HoldingOk(db, many, c, after)
  {
  }

  lemma HolderAdvances(s: System, w: nat, m: WorkerMove)
    requires WorkersOk(s) && WorkerCan(s, w, m) && s.workers[w].Holding?
    ensures var t := AfterWorker(s, w, m);
            t.workers[w].Holding? ==> HoldingOk(t.db, t.observed, t.workers[w].claim, t.workers[w].phase)
  {
    var c := s.workers[w].claim;
    assert HoldingOk(s.db, s.observed, c, s.workers[w].phase);
    HoldingDb(s, w, m);
    hide WorkersOk, HoldingOk, WorkerDb, Written, PullImage, LiveUrl;
    hide AfterClaim, AfterDeploying, AfterReady, AfterFailed, AfterSetProduction, AfterRequeueStale, AfterRequeueStuck;
    if m.MarkDeploying? {
      HoldingAfterDeploying(s.db, s.observed, c, s.now, m.fault);
    } else if m.MarkReady? {
      HoldingAfterReady(s.db, s.observed, c, s.now, m.fault);
    } else if m.PointProduction? {
      HoldingAfterPointer(s.db, s.observed, c, m.fault);
    } else if m.JobSucceeds? || m.AttemptFails? || m.ApplyAlias? {
      var t := AfterWorker(s, w, m);
      HoldingMovesOn(s.db, s.observed, t.observed, c, s.workers[w].phase, t.workers[w].phase);
    }
  }

  lemma ClaimAdvances(s: System, w: nat, m: WorkerMove)
    requires Inv(s) && WorkerCan(s, w, m) && m.ClaimRow?
    ensures var t := AfterWorker(s, w, m);
            t.workers[w].Holding? ==> HoldingOk(t.db, t.observed, t.workers[w].claim, t.workers[w].phase)
  {
    assert HasProject(s.db, m.id);
  }

  /** The step that needs the single worker: nobody else holds the row it finishes. */
  lemma WorkersKeepOwn(s: System, w: nat, m: WorkerMove)
    requires Inv(s) && WorkerCan(s, w, m) && s.workers.Keys == {w} && Evolves(s.db, WorkerDb(s, w, m))
    ensures WorkersOk(AfterWorker(s, w, m))
  {
    if s.workers[w].Holding? {
      HolderAdvances(s, w, m);
    } else if m.ClaimRow? {
      ClaimAdvances(s, w, m);
    }
    hide Inv, HoldingOk, Evolves;
  }

  lemma WorkersKeepOthers(s: System, t: System)
    requires WorkersOk(s) && t.workers == s.workers && t.observed == s.observed
    requires Evolves(s.db, t.db) && OnlyRequeues(s.db, t.db) && Consistent(t.db)
    ensures WorkersOk(t)
  {
    hide Evolves, OnlyRequeues, Consistent, HoldingOk;
    forall w | w in t.workers && t.workers[w].Holding?
      ensures HoldingOk(t.db, t.observed, t.workers[w].claim, t.workers[w].phase)
    {
      HoldingStable(s.db, t.db, s.observed, s.workers[w].claim, s.workers[w].phase);
    }
  }

  lemma WorkerKeepsInv(s: System, w: nat, m: WorkerMove)
    requires Inv(s) && WorkerCan(s, w, m) && s.workers.Keys == {w}
    ensures Inv(AfterWorker(s, w, m)) && Evolves(s.db, WorkerDb(s, w, m))
  {
    var t := AfterWorker(s, w, m);
    hide RowsOk, WorkersOk, ProductionOk, PromotesOk, DeliveriesOk, Evolves, WorkerDb, AfterWorker, WorkerCan;
    WorkerKeepsRows(s, w, m);
    forall id | id in s.observed && id !in t.observed ensures id in t.db.rows && t.db.rows[id].status.Building? {
      NewAttemptIsBuilding(s, w, m, id);
    }
    ObservedChanges(t.db, s.observed, t.observed, t.now);
    WorkersKeepOwn(s, w, m);
    WorkerPoints(s, w, m);
    ProductionKeeps(s.db, t.db);
    PromotesKeep(s.db, t.db, s.promotes, t.promotes);
    DeliveriesKeep(s.db, t.db, s.handlers);
  }

  lemma HandlerTouches(s: System, d: string, m: HandlerMove)
    requires HandlerCan(s, d, m) && forall id :: id in s.db.rows ==> id in s.db.issued
    ensures OnlyRequeues(s.db, AfterHandler(s, d, m).db) && PointersFrom(s.db, AfterHandler(s, d, m).db)
  {
  }

  lemma HandlerKeepsInv(s: System, d: string, m: HandlerMove)
    requires Inv(s) && HandlerCan(s, d, m)
    ensures Inv(AfterHandler(s, d, m)) && Evolves(s.db, AfterHandler(s, d, m).db)
  {
    var t := AfterHandler(s, d, m);
    assert forall id :: id in s.db.rows ==> HasProject(s.db, id);
    HandlerKeepsRows(s, d, m);
    HandlerTouches(s, d, m);
    hide WorkersOk, ProductionOk, PromotesOk, DeliveriesOk, Evolves, AfterHandler, HandlerCan;
    WorkersKeepOthers(s, t);
    ProductionKeeps(s.db, t.db);
    PromotesKeep(s.db, t.db, s.promotes, t.promotes);
    DeliveriesKeepHandler(s, d, m);
  }

  lemma OtherTouches(s: System, m: OtherMove)
    requires OtherCan(s, m) && forall id :: id in s.db.rows ==> id in s.db.issued
    ensures OnlyRequeues(s.db, AfterOther(s, m).db)
    ensures forall id :: id in AfterOther(s, m).db.rows && id !in s.db.rows ==> AfterOther(s, m).db.rows[id].delivery == None
  {
  }

  lemma OtherKeepsInv(s: System, m: OtherMove)
    requires Inv(s) && OtherCan(s, m)
    ensures Inv(AfterOther(s, m)) && Evolves(s.db, AfterOther(s, m).db)
  {
    var t := AfterOther(s, m);
    assert forall id :: id in s.db.rows ==> HasProject(s.db, id);
    OtherKeepsRows(s, m);
    OtherTouches(s, m);
    hide WorkersOk, ProductionOk, PromotesOk, DeliveriesOk, Evolves, AfterOther, OtherCan;
    WorkersKeepOthers(s, t);
    OtherPoints(s, m);
    ProductionKeeps(s.db, t.db);
    PromotesKeepOther(s, m);
    DeliveriesKeep(s.db, t.db, s.handlers);
  }

  lemma StepKeepsInv(s: System, step: Step)
    requires Inv(s) && Enabled(s, step) && OneWorker(s)
    ensures Inv(Apply(s, step)) && Evolves(s.db, Apply(s, step).db) && OneWorker(Apply(s, step))
  {
    assert step.ByWorker? ==> step.w in s.workers;
    hide Inv, Evolves, WorkerCan, HandlerCan, OtherCan, AfterWorker, AfterHandler, AfterOther;
    match step
    case ByWorker(w, m) =>
      WorkerKeepsInv(s, w, m);
      assert Apply(s, step).workers.Keys == {w};
    case ByHandler(d, m) => HandlerKeepsInv(s, d, m);
    case ByOther(m) => OtherKeepsInv(s, m);
  }
}
