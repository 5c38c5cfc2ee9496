/**
 When a push that passed the duplicate check is the first build of its commit. The check and
 the INSERT are two statements, and other actors run between them.
 */
module DuplicatePushes {
  import opened Common
  import opened DeploymentStore
  import opened Lifecycle
  import opened LifecycleRuns

  ghost predicate SameBuild(db: Db, a: Id, b: Id) {
    a in db.rows && b in db.rows && db.rows[a].project == db.rows[b].project && db.rows[a].sha == db.rows[b].sha
  }

  /** The row inserted at position j is the first of its project and commit. */
  ghost predicate FirstBuild(db: Db, j: nat)
    requires j < |db.issued|
  {
    forall i :: 0 <= i < j ==> !SameBuild(db, db.issued[i], db.issued[j])
  }

  /** Handler `d` can insert row `id` of this project and commit. */
  ghost predicate Pushes(s: System, d: string, id: Id, fault: Fault, project: Id, sha: string) {
    && HandlerCan(s, d, InsertPush(id, fault)) && Inserts(s, d, InsertPush(id, fault))
    && s.handlers[d].project == project && s.handlers[d].event.sha == sha
  }

  /** A row that was there before keeps its project and commit, and its id is not used again. */
  lemma OldRowsWereBuilt(a: Db, b: Db, i: nat, project: Id, sha: string)
    requires History(a, b) && i < |a.issued|
    requires var o := a.issued[i]; o in b.rows && b.rows[o].project == project && b.rows[o].sha == sha
    ensures Built(a, project, sha) && a.issued[i] == b.issued[i]
  {
    var o := a.issued[i];
    assert o in a.rows && SameIdentity(a.rows[o], b.rows[o]);
  }

  lemma PushAfterUnbuiltIff(s: System, steps: seq<Step>, t: System, d: string, id: Id, fault: Fault, project: Id, sha: string)
    requires Inv(s) && OneWorker(s) && Executes(s, steps, t) && !Built(s.db, project, sha)
    requires Pushes(t, d, id, fault, project, sha)
    ensures var u, n := AfterHandler(t, d, InsertPush(id, fault)).db, |t.db.issued|;
            && u.issued == t.db.issued + [id] && |s.db.issued| <= n
            && (FirstBuild(u, n) <==> forall i :: |s.db.issued| <= i < n ==> !SameBuild(u, u.issued[i], id))
  {
    RunKeepsInv(s, steps, t);
    var u, n := AfterHandler(t, d, InsertPush(id, fault)).db, |t.db.issued|;
    hide Inv, Executes, OneWorker, Enabled;
    forall i | 0 <= i < |s.db.issued| ensures !SameBuild(u, u.issued[i], id) {
      var o := s.db.issued[i];
      assert o == t.db.issued[i] == u.issued[i] && o != id;
      if o in t.db.rows && t.db.rows[o].project == project && t.db.rows[o].sha == sha {
        OldRowsWereBuilt(s.db, t.db, i, project, sha);
      }
    }
    assert u.issued[n] == id;
  }

  /** A checked push is the first build of its commit exactly when none of the rows that were
      inserted between its check and its own INSERT is of that commit. */
  lemma CheckedPushIsFirstIff(s: System, d: string, steps: seq<Step>, t: System, id: Id, fault: Fault)
    requires Reachable(s) && d in s.handlers && s.handlers[d].Located? && NeedsCheck(s.handlers[d])
    requires var h := s.handlers[d];
             && !Built(s.db, h.project, h.event.sha)
             && Executes(AfterHandler(s, d, CheckDuplicate), steps, t)
             && Pushes(t, d, id, fault, h.project, h.event.sha)
    ensures var u, n := AfterHandler(t, d, InsertPush(id, fault)).db, |t.db.issued|;
            && u.issued == t.db.issued + [id] && |s.db.issued| <= n
            && (FirstBuild(u, n) <==> forall i :: |s.db.issued| <= i < n ==> !SameBuild(u, u.issued[i], id))
  {
    ReachableInv(s);
    var h, checked := s.handlers[d], AfterHandler(s, d, CheckDuplicate);
    StepKeepsInv(s, ByHandler(d, CheckDuplicate));
    assert checked.db == s.db && Apply(s, ByHandler(d, CheckDuplicate)) == checked;
    hide *;
    PushAfterUnbuiltIff(checked, steps, t, d, id, fault, h.project, h.event.sha);
  }

  // ----- which pushes are dropped -----

  /** A request comes through its check exactly when it is no push, or a push on the project's
      production branch, or of a commit that was never built. */
  lemma CheckPassesIff(s: System, d: string, p: Id)
    requires HandlerCan(s, d, Locate(p)) && s.db.projects[p].productionBranch != ""
    ensures var e, t := s.handlers[d].event, AfterHandler(AfterHandler(s, d, Locate(p)), d, CheckDuplicate);
            && t.db == s.db
            && (d in t.handlers <==>
                  || !e.trigger.Webhook?
                  || e.ref == "refs/heads/" + s.db.projects[p].productionBranch
                  || forall id :: id in s.db.rows && s.db.rows[id].project == p ==> s.db.rows[id].sha != e.sha)
  {
  }

  /** What the worker deploys to production is never dropped, however often it was built. */
  lemma ProductionIsNotDropped(db: Db, id: Id, trigger: Trigger)
    requires HasLogin(db, id) && IsProduction(ClaimOf(db, id)) && ClaimOf(db, id).productionBranch != ""
    ensures !Deduplicates(db, db.rows[id].project, db.rows[id].ref, trigger)
  {
  }

  // ----- handlers that run one at a time -----

  /** While handler `d` is between its check and its INSERT, no other handler runs: no webhook
      request, no install, no manual deploy. Everybody else may, redeploys included. */
  predicate RunsBeside(step: Step, d: string) {
    match step
    case ByWorker(w, m) => true
    case ByHandler(e, m) => e == d && !m.InsertPush?
    case ByOther(m) => !m.InsertDirect?
  }

  lemma WorkerInsertsNothing(s: System, w: nat, m: WorkerMove, id: Id)
    requires WorkerCan(s, w, m) && id in WorkerDb(s, w, m).rows
    ensures id in s.db.rows && SameIdentity(s.db.rows[id], WorkerDb(s, w, m).rows[id])
  {
  }

  lemma OtherBuildsNothing(s: System, m: OtherMove, id: Id)
    requires OtherCan(s, m) && !m.InsertDirect? && id in AfterOther(s, m).db.rows
    ensures var r := AfterOther(s, m).db.rows[id]; Built(s.db, r.project, r.sha)
  {
    var o := if m.Redeploy? && id == m.id then m.source else id;
    assert o in s.db.rows;
  }

  /** A redeploy copies a row, so it cannot build a commit that was never built. */
  lemma StepBesideBuildsNothing(s: System, step: Step, d: string, id: Id)
    requires Enabled(s, step) && RunsBeside(step, d) && id in Apply(s, step).db.rows
    ensures var r := Apply(s, step).db.rows[id]; Built(s.db, r.project, r.sha)
  {
    hide WorkerDb, WorkerCan, OtherCan, AfterOther;
    match step
    case ByWorker(w, m) => WorkerInsertsNothing(s, w, m, id);
    case ByHandler(e, m) =>
    case ByOther(m) => OtherBuildsNothing(s, m, id);
  }

  lemma {:induction false} RunBesideBuildsNothing(s: System, steps: seq<Step>, t: System, d: string, project: Id, sha: string)
    requires Executes(s, steps, t) && !Built(s.db, project, sha) && forall x :: x in steps ==> RunsBeside(x, d)
    ensures !Built(t.db, project, sha)
    decreases |steps|
  {
    hide Enabled, Apply, RunsBeside;
    if steps != [] {
      var u := Apply(s, steps[0]);
      forall id | id in u.db.rows ensures u.db.rows[id].project != project || u.db.rows[id].sha != sha {
        StepBesideBuildsNothing(s, steps[0], d, id);
      }
      RunBesideBuildsNothing(u, steps[1..], t, d, project, sha);
    }
  }

  lemma FirstBuildStays(a: Db, b: Db, j: nat)
    requires j < |a.issued| && FirstBuild(a, j) && History(a, b) && a.issued[j] in a.rows
    ensures j < |b.issued| && FirstBuild(b, j)
  {
    forall i | 0 <= i < j ensures !SameBuild(b, b.issued[i], b.issued[j]) {
      assert a.issued[i] == b.issued[i] && a.issued[j] == b.issued[j];
      assert !SameBuild(a, a.issued[i], a.issued[j]);
    }
  }

  /** With serialized handlers, a push on a ref that was not the production branch when its check
      ran is the first row of its project and commit, then and at any later time. */
  lemma PushRowIsFirstBuild(
    s: System, d: string, steps: seq<Step>, t: System, id: Id, fault: Fault, more: seq<Step>, v: System)
    requires Reachable(s) && d in s.handlers && s.handlers[d].Located? && NeedsCheck(s.handlers[d])
    requires var h := s.handlers[d];
             && !Built(s.db, h.project, h.event.sha)
             && Executes(AfterHandler(s, d, CheckDuplicate), steps, t)
             && Pushes(t, d, id, fault, h.project, h.event.sha)
    requires forall x :: x in steps ==> RunsBeside(x, d)
    requires Executes(AfterHandler(t, d, InsertPush(id, fault)), more, v)
    ensures |t.db.issued| < |v.db.issued| && v.db.issued[|t.db.issued|] == id && FirstBuild(v.db, |t.db.issued|)
  {
    var h, checked, u := s.handlers[d], AfterHandler(s, d, CheckDuplicate), AfterHandler(t, d, InsertPush(id, fault));
    assert checked.db == s.db && Apply(s, ByHandler(d, CheckDuplicate)) == checked;
    assert Apply(t, ByHandler(d, InsertPush(id, fault))) == u && id in u.db.rows;
    ReachableInv(s);
    hide Inv, Executes, Enabled, Apply, RunsBeside, AfterHandler, OneWorker, Reachable;
    StepKeepsInv(s, ByHandler(d, CheckDuplicate));
    RunKeepsInv(checked, steps, t);
    StepKeepsInv(t, ByHandler(d, InsertPush(id, fault)));
    RunKeepsInv(u, more, v);
    CheckedPushIsFirstIff(s, d, steps, t, id, fault);
    RunBesideBuildsNothing(checked, steps, t, d, h.project, h.event.sha);
    UnbuiltHasNoTwin(t, d, id, fault, h.project, h.event.sha);
    FirstBuildStays(u.db, v.db, |t.db.issued|);
  }

  lemma UnbuiltHasNoTwin(t: System, d: string, id: Id, fault: Fault, project: Id, sha: string)
    requires Pushes(t, d, id, fault, project, sha) && !Built(t.db, project, sha)
    ensures var u := AfterHandler(t, d, InsertPush(id, fault)).db;
            forall o :: o != id ==> !SameBuild(u, o, id)
    ensures id !in t.db.issued
  {
  }

  // ----- two pushes at once -----

  /** Two handlers are about a push of the same commit of the same project. */
  predicate SamePush(s: System, d: string, e: string) {
    && d != e && d in s.handlers && e in s.handlers
    && ((s.handlers[d].Located? && s.handlers[e].Located?) || (s.handlers[d].Cleared? && s.handlers[e].Cleared?))
    && s.handlers[d].project == s.handlers[e].project && s.handlers[d].event.sha == s.handlers[e].event.sha
    && s.handlers[d].project in s.db.projects
  }

  /** Both are webhook pushes on branches that are to be checked, and their commit was never built. */
  predicate BothToBeChecked(s: System, d: string, e: string) {
    && SamePush(s, d, e) && s.handlers[d].Located? && NeedsCheck(s.handlers[d]) && NeedsCheck(s.handlers[e])
    && !Built(s.db, s.handlers[d].project, s.handlers[d].event.sha)
  }

  predicate BothAreChecked(steps: seq<Step>, d: string, e: string) {
    ByHandler(d, CheckDuplicate) in steps && ByHandler(e, CheckDuplicate) in steps
  }

  lemma BothChecksPass(s: System, d: string, e: string) returns (steps: seq<Step>, t: System)
    requires BothToBeChecked(s, d, e)
    ensures Executes(s, steps, t) && BothAreChecked(steps, d, e)
    ensures t == s.(handlers := s.handlers[d := Cleared(s.handlers[d].event, s.handlers[d].project, true)]
                                          [e := Cleared(s.handlers[e].event, s.handlers[e].project, true)])
  {
    TwoSteps(s, ByHandler(d, CheckDuplicate), ByHandler(e, CheckDuplicate));
    steps := [ByHandler(d, CheckDuplicate), ByHandler(e, CheckDuplicate)];
    t := Apply(Apply(s, steps[0]), steps[1]);
  }

  /** Row `id` was inserted by the handler `h` of delivery `d`. */
  predicate RowOfPush(db: Db, id: Id, d: string, h: Handler)
    requires h.Located? || h.Cleared?
  {
    id in db.rows && db.rows[id].delivery == Some(d) && db.rows[id].project == h.project && db.rows[id].trigger == h.event.trigger
    && db.rows[id].sha == h.event.sha && db.rows[id].ref == h.event.ref
  }

  predicate FreshIds(db: Db, a: Id, b: Id) {
    a != b && a !in db.issued && b !in db.issued
  }

  /** From `s` to `t` the handlers `d` and `e` have inserted rows `a` and `b` of the same build. */
  ghost predicate BuiltTwice(s: System, d: string, e: string, a: Id, b: Id, t: System)
    requires SamePush(s, d, e)
  {
    && SameBuild(t.db, a, b) && t.db.issued == s.db.issued + [a, b] && t.db.projects == s.db.projects
    && RowOfPush(t.db, a, d, s.handlers[d]) && RowOfPush(t.db, b, e, s.handlers[e])
  }

  lemma BothInsert(s: System, d: string, e: string, a: Id, b: Id) returns (steps: seq<Step>, t: System)
    requires SamePush(s, d, e) && s.handlers[d].Cleared? && FreshIds(s.db, a, b)
    ensures Executes(s, steps, t) && BuiltTwice(s, d, e, a, b, t)
  {
    var first, second := ByHandler(d, InsertPush(a, Acked)), ByHandler(e, InsertPush(b, Acked));
    TwoSteps(s, first, second);
    steps, t := [first, second], Apply(Apply(s, first), second);
  }

  /** Two pushes of the same new commit on two branches that are checked before either is
      inserted both build it. */
  lemma InterleavedPushesBuildTwice(s: System, d: string, e: string, a: Id, b: Id) returns (steps: seq<Step>, t: System)
    requires BothToBeChecked(s, d, e) && FreshIds(s.db, a, b)
    ensures Executes(s, steps, t) && BothAreChecked(steps, d, e) && BuiltTwice(s, d, e, a, b, t)
  {
    hide Executes;
    var first, u := BothChecksPass(s, d, e);
    var second;
    second, t := BothInsert(u, d, e, a, b);
    Compose(s, first, u, second, t);
    steps := first + second;
  }

  const BRANCH_X := "refs/heads/x"
  const BRANCH_Y := "refs/heads/y"

  lemma BranchesDiffer()
    ensures IsBranchRef(BRANCH_X) && IsBranchRef(BRANCH_Y)
    ensures BRANCH_X != ProductionRef("main") && BRANCH_Y != ProductionRef("main")
    ensures "d" != "e" && "c0ffee" != ZERO_SHA
  {
    assert |BRANCH_X| == |BRANCH_Y| < |ProductionRef("main")|;
    assert "c0ffee"[0] != ZERO_SHA[0] && "d"[0] != "e"[0];
  }

  /** What the two pushes have become when both have found their project. */
  function Arrived(ref: string): Handler {
    Located(PushOf(1, "c0ffee", ref), 1, ProductionRef("main"))
  }

  lemma TwoPushesArrive(s0: System) returns (steps: seq<Step>, s: System)
    requires Init(s0)
    ensures Executes(s0, steps, s) && s.db.rows == map[] && s.db.issued == [] && s.db.projects == Projects()
    ensures s.handlers == map["d" := Arrived(BRANCH_X), "e" := Arrived(BRANCH_Y)]
  {
    BranchesDiffer();
    var first, u := ProjectsExist(s0);
    var second, v := PushArrives(u, "d", 1, "c0ffee", BRANCH_X);
    var third;
    third, s := PushArrives(v, "e", 1, "c0ffee", BRANCH_Y);
    hide Executes;
    Compose(s0, first, u, second, v);
    Compose(s0, first + second, v, third, s);
    steps := first + second + third;
  }

  /** The row is from a push on another branch than the production branch. */
  predicate PushedBeside(db: Db, id: Id) {
    && id in db.rows && db.rows[id].trigger.Webhook? && db.rows[id].project in db.projects
    && db.rows[id].ref != ProductionRef(db.projects[db.rows[id].project].productionBranch)
  }

  /** From an empty database: a commit that was never built is pushed on two branches, neither of
      them the production branch, both pushes are checked, and both rows are inserted. The second
      is not the first build. */
  lemma TwoPushesRace(s0: System) returns (steps: seq<Step>, t: System)
    requires Init(s0)
    ensures Executes(s0, steps, t) && BothAreChecked(steps, "d", "e")
    ensures t.db.issued == [0, 1] && SameBuild(t.db, 0, 1) && !FirstBuild(t.db, 1)
    ensures t.db.rows[0].delivery == Some("d") && t.db.rows[1].delivery == Some("e")
    ensures PushedBeside(t.db, 0) && PushedBeside(t.db, 1)
  {
    BranchesDiffer();
    var first, s := TwoPushesArrive(s0);
    assert NeedsCheck(s.handlers["d"]) && NeedsCheck(s.handlers["e"]);
    hide Executes, ProductionRef, IsBranchRef, FirstBuild, SameBuild;
    var second;
    second, t := InterleavedPushesBuildTwice(s, "d", "e", 0, 1);
    Compose(s0, first, s, second, t);
    steps := first + second;
    SecondIsNotFirst(t.db);
    RowsOfProject1(t.db);
  }

  lemma SecondIsNotFirst(db: Db)
    requires db.issued == [0, 1] && SameBuild(db, 0, 1)
    ensures !FirstBuild(db, 1)
  {
    assert db.issued[0] == 0 && db.issued[1] == 1;
  }

  lemma RowsOfProject1(db: Db)
    requires RowOfPush(db, 0, "d", Arrived(BRANCH_X)) && RowOfPush(db, 1, "e", Arrived(BRANCH_Y))
    requires db.projects == Projects()
    ensures PushedBeside(db, 0) && PushedBeside(db, 1)
  {
    BranchesDiffer();
  }
}
