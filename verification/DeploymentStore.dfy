/**
 The `deployments`, `projects`, `installations` and `webhook_deliveries` tables and the
 SQL statements of the repository layer. Every statement is atomic. `Db` is a value that
 holds all tables; a function `After...` says what one committed statement does to it, and
 class `Store` runs the statements against its fields.
 */
module DeploymentStore {
  import opened Common

  /** A UUID. Fresh ones come from outside, as `gen_random_uuid()` does. */
  type Id = nat

  datatype Status = Queued | Building | Deploying | Ready | Failed

  datatype Trigger = Webhook | Preview | Install | Manual | RedeployTrigger

  datatype Row = Row(
    project: Id, sha: string, ref: string, trigger: Trigger, delivery: Option<string>,
    status: Status, image: Option<string>, url: Option<string>, error: Option<string>,
    created: int, started: Option<int>, ended: Option<int>, readyAt: Option<int>)

  datatype Project = Project(
    installation: int, repo: int, slug: string, productionBranch: string, production: Option<Id>)

  /** All tables. `issued` lists every deployment id ever inserted, oldest insert first. */
  datatype Db = Db(
    rows: map<Id, Row>, projects: map<Id, Project>, logins: map<int, string>,
    deliveries: set<string>, issued: seq<Id>)

  predicate InFlight(r: Row) {
    r.status.Building? || r.status.Deploying?
  }

  predicate Terminal(r: Row) {
    r.status.Ready? || r.status.Failed?
  }

  // ----- statements as functions on the tables -----

  function Written(db: Db, after: Db, fault: Fault): Db {
    if fault.Lost? then db else after
  }

  function Requeued(r: Row, reason: Option<string>): Row {
    r.(status := Queued, started := None, ended := None, error := reason)
  }

  /** The cut-off test of the stale sweep: COALESCE(build_started_at, created_at) < cutoff. */
  predicate StartedBefore(r: Row, cutoff: int) {
    r.started.GetOr(r.created) < cutoff
  }

  /** A queued row that no other queued row is older than. */
  ghost predicate IsOldestQueued(db: Db, id: Id) {
    && id in db.rows && db.rows[id].status.Queued?
    && forall o :: o in db.rows && db.rows[o].status.Queued? ==> db.rows[id].created <= db.rows[o].created
  }

  /** The statement rewrites columns of row `id` and nothing else. */
  ghost predicate OnlyRow(a: Db, b: Db, id: Id) {
    && b == a.(rows := b.rows) && b.rows.Keys == a.rows.Keys
    && forall o :: o in a.rows && o != id ==> b.rows[o] == a.rows[o]
  }

  function AfterClaim(db: Db, id: Id, now: int): (after: Db)
    requires id in db.rows
    ensures OnlyRow(db, after, id)
  {
    db.(rows := db.rows[id := db.rows[id].(status := Building, started := Some(now))])
  }

  function AfterDeploying(db: Db, id: Id, image: string, now: int): (after: Db)
    ensures OnlyRow(db, after, id)
  {
    if id in db.rows
    then db.(rows := db.rows[id := db.rows[id].(status := Deploying, ended := Some(now), image := Some(image))])
    else db
  }

  function AfterReady(db: Db, id: Id, url: string, now: int): (after: Db)
    ensures OnlyRow(db, after, id)
  {
    if id in db.rows
    then db.(rows := db.rows[id := db.rows[id].(status := Ready, readyAt := Some(now), url := Some(url))])
    else db
  }

  function AfterFailed(db: Db, id: Id, reason: string, now: int): (after: Db)
    ensures OnlyRow(db, after, id)
  {
    if id in db.rows && InFlight(db.rows[id])
    then db.(rows := db.rows[id := db.rows[id].(
               status := Failed, ended := Some(db.rows[id].ended.GetOr(now)), error := Some(reason))])
    else db
  }

  function AfterRequeueOne(db: Db, id: Id, reason: string): (after: Db)
    ensures OnlyRow(db, after, id)
  {
    if id in db.rows && InFlight(db.rows[id])
    then db.(rows := db.rows[id := Requeued(db.rows[id], Some(reason))])
    else db
  }

  function RequeueAll(db: Db, hit: set<Id>): (after: Db)
    ensures after == db.(rows := after.rows) && after.rows.Keys == db.rows.Keys
  {
    db.(rows := map id | id in db.rows :: if id in hit then Requeued(db.rows[id], None) else db.rows[id])
  }

  function StaleRows(db: Db, cutoff: int): set<Id> {
    set id | id in db.rows && InFlight(db.rows[id]) && StartedBefore(db.rows[id], cutoff)
  }

  function StuckRows(db: Db): set<Id> {
    set id | id in db.rows && InFlight(db.rows[id])
  }

  function AfterRequeueStale(db: Db, cutoff: int): Db {
    RequeueAll(db, StaleRows(db, cutoff))
  }

  function AfterRequeueStuck(db: Db): Db {
    RequeueAll(db, StuckRows(db))
  }

  /** A dangling deployment id violates the foreign key and an unknown project matches no
      row; in both cases nothing changes. */
  function AfterSetProduction(db: Db, project: Id, id: Id): Db {
    if project in db.projects && id in db.rows
    then db.(projects := db.projects[project := db.projects[project].(production := Some(id))])
    else db
  }

  function NewRow(project: Id, sha: string, ref: string, trigger: Trigger, delivery: Option<string>, now: int): Row {
    Row(project, sha, ref, trigger, delivery, Queued, None, None, None, now, None, None, None)
  }

  function RedeployOf(source: Row, now: int): Row {
    NewRow(source.project, source.sha, source.ref, RedeployTrigger, None, now)
  }

  function AfterInsert(db: Db, id: Id, row: Row): Db {
    db.(rows := db.rows[id := row], issued := db.issued + [id])
  }

  function AfterRecordDelivery(db: Db, delivery: string): Db {
    db.(deliveries := db.deliveries + {delivery})
  }

  /** Deleting a project cascades to its deployments. */
  function AfterDeleteProject(db: Db, project: Id): Db {
    db.(rows := map id | id in db.rows && db.rows[id].project != project :: db.rows[id],
        projects := db.projects - {project})
  }

  // ----- enqueueing, as one serialized call -----

  function ProductionRef(branch: string): string {
    if branch == "" then "" else "refs/heads/" + branch
  }

  ghost predicate IsProjectOf(db: Db, installation: int, repo: int, p: Id) {
    p in db.projects && db.projects[p].installation == installation && db.projects[p].repo == repo
  }

  predicate Built(db: Db, project: Id, sha: string) {
    exists id :: id in db.rows && db.rows[id].project == project && db.rows[id].sha == sha
  }

  /** Only pushes are deduplicated, and only off the production branch. */
  predicate Deduplicates(db: Db, project: Id, ref: string, trigger: Trigger)
    requires project in db.projects
  {
    trigger.Webhook? && ref != ProductionRef(db.projects[project].productionBranch)
  }

  /** The ref of a branch; a project without a production branch has the empty ref for one. */
  predicate OnBranch(ref: string, branch: string) {
    (branch != "" && ref == "refs/heads/" + branch) || (branch == "" && ref == "")
  }

  /** A push is looked up exactly when it is not on the project's own production branch. */
  lemma DeduplicatesIff(db: Db, project: Id, ref: string, trigger: Trigger)
    requires project in db.projects
    ensures Deduplicates(db, project, ref, trigger) <==>
            trigger.Webhook? && !OnBranch(ref, db.projects[project].productionBranch)
  {
  }

  function NonEmpty(s: string): (o: Option<string>)
    ensures s == "" ==> o == None
    ensures s != "" ==> o == Some(s)
  {
    if s == "" then None else Some(s)
  }

  datatype EnqueueResult = UnknownProject | Deduped(project: Id) | Enqueued(project: Id, id: Id) | EnqueueError

  datatype Claim = Claim(
    id: Id, project: Id, slug: string, sha: string, ref: string, productionBranch: string, login: string)

  datatype ClaimResult = NothingQueued | Claimed(claim: Claim) | ClaimError

  ghost predicate ClaimMatches(db: Db, c: Claim) {
    && c.id in db.rows
    && var r := db.rows[c.id];
       && r.project in db.projects
       && var p := db.projects[r.project];
          && p.installation in db.logins
          && c == Claim(c.id, r.project, p.slug, r.sha, r.ref, p.productionBranch, db.logins[p.installation])
  }

  predicate HasLogin(db: Db, id: Id) {
    id in db.rows && db.rows[id].project in db.projects && db.projects[db.rows[id].project].installation in db.logins
  }

  /** (installation_id, repo_id) is UNIQUE. */
  ghost predicate UniqueRepos(projects: map<Id, Project>) {
    forall p, q |
      && p in projects && q in projects
      && projects[p].installation == projects[q].installation && projects[p].repo == projects[q].repo :: p == q
  }

  ghost predicate HasProject(db: Db, id: Id)
    requires id in db.rows
  {
    db.rows[id].project in db.projects && id in db.issued
  }

  /** The schema's constraints: unique repositories, and every deployment has its project. */
  ghost predicate Consistent(db: Db) {
    UniqueRepos(db.projects) && forall id :: id in db.rows ==> HasProject(db, id)
  }

  lemma {:induction false} OldestExists(rows: map<Id, Row>, ids: set<Id>) returns (best: Id)
    requires ids != {} && forall id :: id in ids ==> id in rows
    ensures best in ids && forall o :: o in ids ==> rows[best].created <= rows[o].created
    decreases ids
  {
    best :| best in ids;
    if ids != {best} {
      var m := OldestExists(rows, ids - {best});
      if rows[m].created < rows[best].created {
        best := m;
      }
    }
  }

  // ----- the sweep of rows whose worker died -----

  /** A row that was claimed is taken back by a later sweep exactly when its claim, not its
      insertion, is more than `maxAge` seconds ago. */
  lemma ClaimIsSweptIff(db: Db, id: Id, claimed: int, now: int, maxAge: int)
    requires id in db.rows
    ensures var after := AfterRequeueStale(AfterClaim(db, id, claimed), now - maxAge);
            && id in after.rows
            && (if now - claimed > maxAge then after.rows[id].status.Queued? && after.rows[id].started == None
                else after.rows[id].status.Building? && after.rows[id].started == Some(claimed))
  {
  }

  /** No sweep touches a row that is queued, ready or failed. */
  lemma SweepsSpareTheRest(db: Db, id: Id, cutoff: int)
    requires id in db.rows && !db.rows[id].status.Building? && !db.rows[id].status.Deploying?
    ensures AfterRequeueStale(db, cutoff).rows[id] == AfterRequeueStuck(db).rows[id] == db.rows[id]
  {
  }

  class Store {
    var rows: map<Id, Row>
    var projects: map<Id, Project>
    var logins: map<int, string>
    var deliveries: set<string>
    ghost var issued: seq<Id>

    ghost function View(): Db
      reads this
    {
      Db(rows, projects, logins, deliveries, issued)
    }

    /** Claims the oldest queued row. The account login comes from a scalar sub-select that is
        NULL when the installation row is gone; scanning it fails and the claim rolls back. */
    method ClaimNextQueued(now: int, fault: Fault) returns (r: ClaimResult)
      requires Consistent(View())
      modifies this`rows
      ensures !fault.Acked? ==> r == ClaimError
      ensures r.NothingQueued? ==> View() == old(View()) && forall id :: id in rows ==> !rows[id].status.Queued?
      ensures r.Claimed? ==>
                && ClaimMatches(old(View()), r.claim)
                && IsOldestQueued(old(View()), r.claim.id)
                && View() == AfterClaim(old(View()), r.claim.id, now)
      ensures r.ClaimError? && fault.Acked? ==>
                View() == old(View()) && exists id :: IsOldestQueued(old(View()), id) && !HasLogin(old(View()), id)
      ensures r.ClaimError? && View() != old(View()) ==>
                fault.Unacked?
                && exists id :: IsOldestQueued(old(View()), id) && HasLogin(old(View()), id) && View() == AfterClaim(old(View()), id, now)
    {
      if fault.Lost? {
        return ClaimError;
      }
      var queued := set id | id in rows && rows[id].status.Queued?;
      if queued == {} {
        assert forall id :: id in rows && rows[id].status.Queued? ==> id in queued;
        return if fault.Acked? then NothingQueued else ClaimError;
      }
      ghost var oldest := OldestExists(rows, queued);
      assert oldest in queued;
      var next :| next in queued && forall o :: o in queued ==> rows[next].created <= rows[o].created;
      assert IsOldestQueued(View(), next);
      var row := rows[next];
      var p := projects[row.project];
      if p.installation !in logins {
        assert !HasLogin(View(), next);
        return ClaimError;
      }
      r := Claimed(Claim(next, row.project, p.slug, row.sha, row.ref, p.productionBranch, logins[p.installation]));
      rows := rows[next := row.(status := Building, started := Some(now))];
      if fault.Unacked? {
        r := ClaimError;
      }
    }

    method MarkDeploying(id: Id, image: string, now: int, fault: Fault) returns (ok: bool)
      modifies this`rows
      ensures ok == fault.Acked?
      ensures View() == Written(old(View()), AfterDeploying(old(View()), id, image, now), fault)
      ensures ok && id in rows ==> rows[id].status.Deploying? && rows[id].image == Some(image) && rows[id].ended == Some(now)
    {
      if !fault.Lost? && id in rows {
        rows := rows[id := rows[id].(status := Deploying, ended := Some(now), image := Some(image))];
      }
      ok := fault.Acked?;
    }

    method MarkReady(id: Id, url: string, now: int, fault: Fault) returns (ok: bool)
      modifies this`rows
      ensures ok == fault.Acked?
      ensures View() == Written(old(View()), AfterReady(old(View()), id, url, now), fault)
      ensures ok && id in rows ==> rows[id].status.Ready? && rows[id].url == Some(url) && rows[id].readyAt == Some(now)
    {
      if !fault.Lost? && id in rows {
        rows := rows[id := rows[id].(status := Ready, readyAt := Some(now), url := Some(url))];
      }
      ok := fault.Acked?;
    }

    method MarkFailedIfInFlight(id: Id, reason: string, now: int, fault: Fault) returns (ok: bool)
      modifies this`rows
      ensures ok == fault.Acked?
      ensures View() == Written(old(View()), AfterFailed(old(View()), id, reason, now), fault)
      ensures ok && id in rows && InFlight(old(rows)[id]) ==>
                && rows[id].status.Failed? && rows[id].error == Some(reason)
                && rows[id].ended == if old(rows)[id].ended.Some? then old(rows)[id].ended else Some(now)
    {
      if !fault.Lost? && id in rows && InFlight(rows[id]) {
        var row := rows[id];
        rows := rows[id := row.(status := Failed, ended := Some(row.ended.GetOr(now)), error := Some(reason))];
      }
      ok := fault.Acked?;
    }

    /** Reports whether a row was updated. */
    method RequeueDeployment(id: Id, reason: string, fault: Fault) returns (updated: Option<bool>)
      modifies this`rows
      ensures updated == if fault.Acked? then Some(id in old(rows) && InFlight(old(rows)[id])) else None
      ensures View() == Written(old(View()), AfterRequeueOne(old(View()), id, reason), fault)
      ensures updated == Some(true) ==>
                id in rows && rows[id].status.Queued? && rows[id].error == Some(reason) && rows[id].created == old(rows)[id].created
    {
      var hit := id in rows && InFlight(rows[id]);
      if !fault.Lost? && hit {
        rows := rows[id := Requeued(rows[id], Some(reason))];
      }
      updated := if fault.Acked? then Some(hit) else None;
    }

    /** `maxAge` is the age beyond which a row belongs to a worker that died. */
    method RequeueStale(maxAge: int, now: int, fault: Fault) returns (n: Option<nat>)
      modifies this`rows
      ensures View() == Written(old(View()), AfterRequeueStale(old(View()), now - maxAge), fault)
      ensures n == if fault.Acked?
                   then Some(|StaleRows(old(View()), now - maxAge)|) else None
    {
      var hit := set id | id in rows && InFlight(rows[id]) && StartedBefore(rows[id], now - maxAge);
      assert hit == StaleRows(View(), now - maxAge);
      if !fault.Lost? {
        rows := map id | id in rows :: if id in hit then Requeued(rows[id], None) else rows[id];
      }
      n := if fault.Acked? then Some(|hit|) else None;
    }

    method RequeueStuck(fault: Fault) returns (n: Option<nat>)
      modifies this`rows
      ensures View() == Written(old(View()), AfterRequeueStuck(old(View())), fault)
      ensures n == if fault.Acked? then Some(|StuckRows(old(View()))|) else None
    {
      var hit := set id | id in rows && InFlight(rows[id]);
      assert hit == StuckRows(View());
      if !fault.Lost? {
        rows := map id | id in rows :: if id in hit then Requeued(rows[id], None) else rows[id];
      }
      n := if fault.Acked? then Some(|hit|) else None;
    }

    method SetProductionDeployment(project: Id, id: Id, fault: Fault) returns (ok: bool)
      modifies this`projects
      ensures ok == (fault.Acked? && (project in old(projects) ==> id in rows))
      ensures View() == Written(old(View()), AfterSetProduction(old(View()), project, id), fault)
    {
      if fault.Lost? {
        return false;
      }
      if project in projects {
        if id !in rows {
          return false;
        }
        projects := projects[project := projects[project].(production := Some(id))];
      }
      ok := fault.Acked?;
    }

    /** Some(true) when this call recorded the delivery, Some(false) for a repeat. */
    method RecordDelivery(delivery: string, payloadIsJson: bool, fault: Fault) returns (inserted: Option<bool>)
      modifies this`deliveries
      ensures delivery == "" || !payloadIsJson ==> inserted == None && View() == old(View())
      ensures delivery != "" && payloadIsJson ==>
                && View() == Written(old(View()), AfterRecordDelivery(old(View()), delivery), fault)
                && inserted == if fault.Acked? then Some(delivery !in old(deliveries)) else None
    {
      if delivery == "" || !payloadIsJson {
        return None;
      }
      var isNew := delivery !in deliveries;
      if !fault.Lost? {
        deliveries := deliveries + {delivery};
      }
      inserted := if fault.Acked? then Some(isNew) else None;
    }

    /** Look up the project, drop a push whose commit is already built, insert. `found` and
        `checked` say whether the two SELECTs are answered, `fault` what becomes of the INSERT,
        `newId` is the identifier the database generates. The call is serialized: nothing runs
        in between. */
    method EnqueueDeployment(installation: int, repo: int, sha: string, ref: string, delivery: string, trigger: Trigger,
                             newId: Id, now: int, found: bool, checked: bool, fault: Fault)
      returns (r: EnqueueResult)
      requires Consistent(View()) && newId !in issued
      modifies this`rows, this`issued
      ensures Consistent(View())
      ensures !found ==> r == EnqueueError && View() == old(View())
      ensures found && (forall p :: !IsProjectOf(old(View()), installation, repo, p)) ==> r == UnknownProject && View() == old(View())
      ensures forall p :: found && IsProjectOf(old(View()), installation, repo, p) ==>
                var db := old(View());
                if Deduplicates(db, p, ref, trigger) && !checked then r == EnqueueError && View() == db
                else if Deduplicates(db, p, ref, trigger) && Built(db, p, sha) then r == Deduped(p) && View() == db
                else
                  && View() == Written(db, AfterInsert(db, newId, NewRow(p, sha, ref, trigger, NonEmpty(delivery), now)), fault)
                  && r == if fault.Acked? then Enqueued(p, newId) else EnqueueError
      ensures forall p :: found && checked && IsProjectOf(old(View()), installation, repo, p) ==>
                (r == Deduped(p) <==>
                   trigger.Webhook? && Built(old(View()), p, sha) && !OnBranch(ref, old(projects)[p].productionBranch))
      ensures r.Enqueued? ==>
                && newId in rows && rows[newId].status.Queued? && rows[newId].project == r.project
                && rows[newId].sha == sha && rows[newId].ref == ref && rows[newId].created == now
                && rows[newId].delivery == NonEmpty(delivery)
    {
      if !found {
        return EnqueueError;
      }
      var hits := set p | p in projects && projects[p].installation == installation && projects[p].repo == repo;
      assert forall p :: IsProjectOf(View(), installation, repo, p) <==> p in hits;
      if hits == {} {
        return UnknownProject;
      }
      var project := Pick(hits);
      assert forall p :: IsProjectOf(old(View()), installation, repo, p) ==> p == project;
      var prodRef := ProductionRef(projects[project].productionBranch);
      DeduplicatesIff(View(), project, ref, trigger);
      assert Deduplicates(View(), project, ref, trigger) <==> trigger.Webhook? && ref != prodRef;
      hide Deduplicates, OnBranch, ProductionRef, NonEmpty;
      if trigger.Webhook? && ref != prodRef {
        if !checked {
          return EnqueueError;
        }
        if exists id :: id in rows && rows[id].project == project && rows[id].sha == sha {
          return Deduped(project);
        }
      }
      if fault.Lost? {
        return EnqueueError;
      }
      rows := rows[newId := NewRow(project, sha, ref, trigger, NonEmpty(delivery), now)];
      issued := issued + [newId];
      r := if fault.Acked? then Enqueued(project, newId) else EnqueueError;
    }

    /** Copies (project, commit, ref) of an existing deployment into a new queued row. */
    method EnqueueRedeploy(source: Id, newId: Id, now: int, fault: Fault) returns (r: Option<Id>)
      requires newId !in issued && Consistent(View())
      modifies this`rows, this`issued
      ensures source !in old(rows) ==> r == None && View() == old(View())
      ensures source in old(rows) ==>
                && View() == Written(old(View()), AfterInsert(old(View()), newId, RedeployOf(old(rows)[source], now)), fault)
                && r == if fault.Acked? then Some(newId) else None
      ensures r.Some? ==>
                && newId in rows && rows[newId].status.Queued? && rows[newId].created == now && rows[newId].delivery == None
                && rows[newId].project == rows[source].project && rows[newId].sha == rows[source].sha
                && rows[newId].ref == rows[source].ref
    {
      if source !in rows || fault.Lost? {
        return None;
      }
      rows := rows[newId := RedeployOf(rows[source], now)];
      issued := issued + [newId];
      r := if fault.Acked? then Some(newId) else None;
    }

    method DeleteProject(project: Id, fault: Fault) returns (deleted: Option<bool>)
      modifies this`rows, this`projects
      ensures View() == Written(old(View()), AfterDeleteProject(old(View()), project), fault)
      ensures deleted == if fault.Acked? then Some(project in old(projects)) else None
    {
      var hit := project in projects;
      if !fault.Lost? {
        rows := map id | id in rows && rows[id].project != project :: rows[id];
        projects := projects - {project};
      }
      deleted := if fault.Acked? then Some(hit) else None;
    }
  }
}
