/**
 The production alias and production_deployment_id. Builds and promotes write the alias first
 and the column afterwards, so that the column never names a commit that is not behind the
 alias; that holds as long as they do not overlap.
 */
module ProductionAlias {
  import opened Common
  import opened DeploymentStore
  import opened Lifecycle
  import opened LifecycleRuns

  /** The deployment to which worker `w` has moved the alias of `p`, while the column is due. */
  function WorkerSwap(s: System, w: nat, p: Id): Option<Id> {
    if w in s.workers && s.workers[w].Holding? && s.workers[w].phase.Aliased? && s.workers[w].claim.project == p
    then Some(s.workers[w].claim.id) else None
  }

  function PromoteSwap(s: System, r: nat, p: Id): Option<Id> {
    if r in s.promotes && s.promotes[r].swapped && s.promotes[r].project == p then Some(s.promotes[r].id) else None
  }

  /** Somebody has moved the alias of `p` and not yet written the column. */
  ghost predicate Busy(s: System, p: Id) {
    (exists w :: WorkerSwap(s, w, p).Some?) || (exists r :: PromoteSwap(s, r, p).Some?)
  }

  predicate Targets(s: System, p: Id, id: Id) {
    p in s.alias && s.alias[p] == id && id in s.db.rows && s.db.rows[id].project == p
  }

  /** The column names the deployment behind the alias, or there is neither. */
  predicate Agree(s: System, p: Id) {
    p in s.db.projects && s.db.projects[p].production == if p in s.alias then Some(s.alias[p]) else None
  }

  /** At most one actor is between its two writes, the alias is where it put it, and when nobody
      is, alias and column agree. */
  ghost predicate Tracks(s: System, p: Id) {
    && p in s.db.projects
    && (forall w :: WorkerSwap(s, w, p).Some? ==> Targets(s, p, WorkerSwap(s, w, p).value))
    && (forall r :: PromoteSwap(s, r, p).Some? ==> Targets(s, p, PromoteSwap(s, r, p).value))
    && (forall v, w :: WorkerSwap(s, v, p).Some? && WorkerSwap(s, w, p).Some? ==> v == w)
    && (forall q, r :: PromoteSwap(s, q, p).Some? && PromoteSwap(s, r, p).Some? ==> q == r)
    && (forall w, r :: WorkerSwap(s, w, p).None? || PromoteSwap(s, r, p).None?)
    && (!Busy(s, p) ==> Agree(s, p))
  }

  predicate RowOf(s: System, p: Id, id: Id) {
    id in s.db.rows && s.db.rows[id].project == p
  }

  /** Nobody moves the alias of `p` while another is between its two writes, no alias call takes
      effect unacknowledged, the column is written when it is due, and `p` stays. */
  ghost predicate Orderly(s: System, step: Step, p: Id)
    requires Enabled(s, step)
  {
    match step
    case ByWorker(w, m) =>
      && (m.ApplyAlias? && s.workers[w].claim.project == p ==>
            !m.fault.Unacked? && !Busy(s, p) && RowOf(s, p, s.workers[w].claim.id))
      && (WorkerSwap(s, w, p).Some? ==> m.PointProduction? && m.fault.Acked?)
    case ByHandler(d, m) => true
    case ByOther(m) =>
      && (m.PromoteAlias? && s.promotes[m.r].project == p ==>
            !m.fault.Unacked? && !Busy(s, p) && RowOf(s, p, s.promotes[m.r].id))
      && (m.PromoteWrite? && s.promotes[m.r].project == p ==> m.fault.Acked?)
      && (m.PromoteEnds? ==> PromoteSwap(s, m.r, p).None?)
      && !(m.DeleteProject? && m.project == p)
  }

  ghost predicate OrderlyRun(s: System, steps: seq<Step>, t: System, p: Id)
    decreases |steps|
  {
    if steps == [] then s == t
    else Enabled(s, steps[0]) && Orderly(s, steps[0], p) && OrderlyRun(Apply(s, steps[0]), steps[1..], t, p)
  }

  // ----- rows and columns that a step leaves alone -----

  /** Rows stay with their project, and other projects' columns are not touched. */
  ghost predicate Untouched(a: Db, b: Db, p: Id) {
    && p in a.projects && p in b.projects && b.projects[p].production == a.projects[p].production
    && forall id :: id in a.rows && a.rows[id].project == p ==> id in b.rows && b.rows[id].project == p
  }

  lemma WorkerLeavesUntouched(s: System, w: nat, m: WorkerMove, p: Id)
    requires WorkerCan(s, w, m) && p in s.db.projects && WorkerSwap(s, w, p).None?
    ensures Untouched(s.db, WorkerDb(s, w, m), p)
  {
  }

  lemma WorkerPointsHere(s: System, w: nat, p: Id)
    requires WorkerCan(s, w, PointProduction(Acked)) && p in s.db.projects && WorkerSwap(s, w, p).Some?
    requires RowOf(s, p, s.workers[w].claim.id)
    ensures var db := WorkerDb(s, w, PointProduction(Acked));
            p in db.projects && db.projects[p].production == WorkerSwap(s, w, p) && db.rows == s.db.rows
  {
  }

  lemma HandlerLeavesUntouched(s: System, d: string, m: HandlerMove, p: Id)
    requires HandlerCan(s, d, m) && p in s.db.projects && (forall id :: id in s.db.rows ==> id in s.db.issued)
    ensures Untouched(s.db, AfterHandler(s, d, m).db, p)
  {
  }

  lemma OtherLeavesUntouched(s: System, m: OtherMove, p: Id)
    requires OtherCan(s, m) && p in s.db.projects && (forall id :: id in s.db.rows ==> id in s.db.issued)
    requires !(m.DeleteProject? && m.project == p) && !(m.PromoteWrite? && s.promotes[m.r].project == p)
    ensures Untouched(s.db, AfterOther(s, m).db, p)
  {
  }

  // ----- one step -----

  ghost predicate SameSwaps(s: System, t: System, p: Id) {
    && (forall w :: WorkerSwap(t, w, p) == WorkerSwap(s, w, p))
    && (forall r :: PromoteSwap(t, r, p) == PromoteSwap(s, r, p))
  }

  ghost predicate SameAlias(s: System, t: System, p: Id) {
    (p in s.alias <==> p in t.alias) && (p in s.alias ==> t.alias[p] == s.alias[p])
  }

  /** The alias, the actors between their writes, and the column stay as they are. */
  lemma QuietKeepsTracks(s: System, t: System, p: Id)
    requires Tracks(s, p) && Untouched(s.db, t.db, p) && SameAlias(s, t, p) && SameSwaps(s, t, p)
    ensures Tracks(t, p)
  {
    assert Busy(t, p) <==> Busy(s, p);
  }

  /** A worker, or a promote, moves the alias while nobody is between its two writes. */
  lemma WorkerSwapKeepsTracks(s: System, t: System, p: Id, w: nat)
    requires Tracks(s, p) && !Busy(s, p) && Untouched(s.db, t.db, p)
    requires WorkerSwap(t, w, p).Some? && Targets(t, p, WorkerSwap(t, w, p).value)
    requires forall v :: v != w ==> WorkerSwap(t, v, p) == WorkerSwap(s, v, p)
    requires forall r :: PromoteSwap(t, r, p) == PromoteSwap(s, r, p)
    ensures Tracks(t, p)
  {
    assert forall v :: WorkerSwap(s, v, p).None?;
    assert forall r :: PromoteSwap(s, r, p).None?;
    assert Busy(t, p);
  }

  lemma PromoteSwapKeepsTracks(s: System, t: System, p: Id, r: nat)
    requires Tracks(s, p) && !Busy(s, p) && Untouched(s.db, t.db, p)
    requires PromoteSwap(t, r, p).Some? && Targets(t, p, PromoteSwap(t, r, p).value)
    requires forall q :: q != r ==> PromoteSwap(t, q, p) == PromoteSwap(s, q, p)
    requires forall w :: WorkerSwap(t, w, p) == WorkerSwap(s, w, p)
    ensures Tracks(t, p)
  {
    assert forall w :: WorkerSwap(s, w, p).None?;
    assert forall q :: PromoteSwap(s, q, p).None?;
    assert Busy(t, p);
  }

  /** The only actor between its two writes writes the column. */
  lemma ColumnKeepsTracks(s: System, t: System, p: Id, id: Id)
    requires Tracks(s, p) && Targets(s, p, id) && SameAlias(s, t, p)
    requires p in t.db.projects && t.db.projects[p].production == Some(id)
    requires (forall w :: WorkerSwap(t, w, p).None?) && (forall r :: PromoteSwap(t, r, p).None?)
    ensures Tracks(t, p)
  {
  }

  lemma WorkerSwapAfter(s: System, w: nat, m: WorkerMove, p: Id, v: nat)
    requires WorkerCan(s, w, m)
    ensures var t := AfterWorker(s, w, m);
            WorkerSwap(t, v, p) ==
            if v != w then WorkerSwap(s, v, p)
            else if m.ApplyAlias? && m.fault.Acked? && s.workers[w].claim.project == p then Some(s.workers[w].claim.id)
            else None
  {
  }

  lemma AliasAfterWorker(s: System, w: nat, m: WorkerMove, p: Id)
    requires WorkerCan(s, w, m) && !(m.ApplyAlias? && !m.fault.Lost? && s.workers[w].claim.project == p)
    ensures SameAlias(s, AfterWorker(s, w, m), p)
  {
  }

  lemma WorkerKeepsTracks(s: System, w: nat, m: WorkerMove, p: Id)
    requires Tracks(s, p) && WorkerCan(s, w, m) && Orderly(s, ByWorker(w, m), p)
    ensures Tracks(AfterWorker(s, w, m), p)
  {
    var t := AfterWorker(s, w, m);
    forall v ensures WorkerSwap(t, v, p) ==
                     if v != w then WorkerSwap(s, v, p)
                     else if m.ApplyAlias? && m.fault.Acked? && s.workers[w].claim.project == p then Some(s.workers[w].claim.id)
                     else None {
      WorkerSwapAfter(s, w, m, p, v);
    }
    assert forall r :: PromoteSwap(t, r, p) == PromoteSwap(s, r, p);
    if WorkerSwap(s, w, p).Some? {
      WorkerPointsHere(s, w, p);
      AliasAfterWorker(s, w, m, p);
      hide AfterWorker, WorkerDb, WorkerCan;
      ColumnKeepsTracks(s, t, p, s.workers[w].claim.id);
    } else {
      WorkerLeavesUntouched(s, w, m, p);
      if m.ApplyAlias? && s.workers[w].claim.project == p && m.fault.Acked? {
        assert Targets(t, p, s.workers[w].claim.id);
        hide AfterWorker, WorkerDb, WorkerCan, Tracks;
        WorkerSwapKeepsTracks(s, t, p, w);
      } else {
        AliasAfterWorker(s, w, m, p);
        hide AfterWorker, WorkerDb, WorkerCan, Tracks;
        QuietKeepsTracks(s, t, p);
      }
    }
  }

  lemma PromoteSwapAfter(s: System, m: OtherMove, p: Id, q: nat)
    requires OtherCan(s, m)
    ensures var t := AfterOther(s, m);
            PromoteSwap(t, q, p) ==
            if m.PromoteAlias? && m.r == q && s.promotes[q].project == p then if m.fault.Acked? then Some(s.promotes[q].id) else None
            else if (m.PromoteWrite? || m.PromoteEnds?) && m.r == q then None
            else PromoteSwap(s, q, p)
  {
  }

  lemma AliasAfterOther(s: System, m: OtherMove, p: Id)
    requires OtherCan(s, m) && !(m.PromoteAlias? && !m.fault.Lost? && s.promotes[m.r].project == p)
    ensures SameAlias(s, AfterOther(s, m), p)
  {
  }

  lemma OtherKeepsTracks(s: System, m: OtherMove, p: Id)
    requires Tracks(s, p) && OtherCan(s, m) && Orderly(s, ByOther(m), p) && (forall id :: id in s.db.rows ==> id in s.db.issued)
    ensures Tracks(AfterOther(s, m), p)
  {
    var t := AfterOther(s, m);
    assert forall w :: WorkerSwap(t, w, p) == WorkerSwap(s, w, p);
    forall q ensures PromoteSwap(t, q, p) ==
                     if m.PromoteAlias? && m.r == q && s.promotes[q].project == p then if m.fault.Acked? then Some(s.promotes[q].id) else None
                     else if (m.PromoteWrite? || m.PromoteEnds?) && m.r == q then None
                     else PromoteSwap(s, q, p) {
      PromoteSwapAfter(s, m, p, q);
    }
    if m.PromoteWrite? && s.promotes[m.r].project == p {
      AliasAfterOther(s, m, p);
      assert PromoteSwap(s, m.r, p).Some?;
      assert t.db.projects[p].production == Some(s.promotes[m.r].id);
      hide AfterOther, OtherCan;
      ColumnKeepsTracks(s, t, p, s.promotes[m.r].id);
    } else {
      OtherLeavesUntouched(s, m, p);
      if m.PromoteAlias? && s.promotes[m.r].project == p && m.fault.Acked? {
        assert Targets(t, p, s.promotes[m.r].id);
        hide AfterOther, OtherCan, Tracks;
        PromoteSwapKeepsTracks(s, t, p, m.r);
      } else {
        AliasAfterOther(s, m, p);
        assert m.PromoteAlias? ==> PromoteSwap(s, m.r, p).None?;
        hide AfterOther, OtherCan, Tracks;
        QuietKeepsTracks(s, t, p);
      }
    }
  }

  lemma HandlerKeepsTracks(s: System, d: string, m: HandlerMove, p: Id)
    requires Tracks(s, p) && HandlerCan(s, d, m) && (forall id :: id in s.db.rows ==> id in s.db.issued)
    ensures Tracks(AfterHandler(s, d, m), p)
  {
    HandlerLeavesUntouched(s, d, m, p);
    var t := AfterHandler(s, d, m);
    hide AfterHandler, HandlerCan;
    QuietKeepsTracks(s, t, p);
  }

  // ----- runs -----

  lemma {:induction false} OrderlyRunKeepsTracks(s: System, steps: seq<Step>, t: System, p: Id)
    requires Inv(s) && OneWorker(s) && Tracks(s, p) && OrderlyRun(s, steps, t, p)
    ensures Tracks(t, p)
    decreases |steps|
  {
    if steps != [] {
      StepKeepsInv(s, steps[0]);
      RowsAreIssued(s);
      hide Inv, Tracks, OneWorker, Orderly, AfterWorker, AfterHandler, AfterOther, WorkerCan, HandlerCan, OtherCan;
      match steps[0] {
        case ByWorker(w, m) => WorkerKeepsTracks(s, w, m, p);
        case ByHandler(d, m) => HandlerKeepsTracks(s, d, m, p);
        case ByOther(m) => OtherKeepsTracks(s, m, p);
      }
      OrderlyRunKeepsTracks(Apply(s, steps[0]), steps[1..], t, p);
    }
  }

  lemma RowsAreIssued(s: System)
    requires Inv(s)
    ensures forall id :: id in s.db.rows ==> id in s.db.issued
  {
    forall id | id in s.db.rows ensures id in s.db.issued {
      assert HasProject(s.db, id);
    }
  }

  /** As long as builds and promotes of a project do not overlap between their two writes, the
      column names the deployment behind the alias whenever nobody is between them. */
  lemma AliasAndColumnAgree(s: System, steps: seq<Step>, t: System, p: Id)
    requires Reachable(s) && Tracks(s, p) && OrderlyRun(s, steps, t, p) && !Busy(t, p)
    ensures Agree(t, p)
  {
    ReachableInv(s);
    hide Inv, Reachable, OneWorker, OrderlyRun;
    OrderlyRunKeepsTracks(s, steps, t, p);
  }

  /** From the creation of a project on, in any run without overlap. */
  lemma NewProjectAgrees(s: System, create: OtherMove, steps: seq<Step>, t: System)
    requires Reachable(s) && OtherCan(s, create) && create.CreateProject?
    requires create.project !in s.alias && !Busy(s, create.project)
    requires OrderlyRun(AfterOther(s, create), steps, t, create.project) && !Busy(t, create.project)
    ensures Agree(t, create.project)
  {
    var u, p := AfterOther(s, create), create.project;
    assert forall w :: WorkerSwap(u, w, p) == WorkerSwap(s, w, p);
    assert forall r :: PromoteSwap(u, r, p) == PromoteSwap(s, r, p);
    NewProjectTracks(u, p);
    ReachableInv(s);
    StepKeepsInv(s, ByOther(create));
    assert Apply(s, ByOther(create)) == u;
    hide Inv, Reachable, OneWorker, OrderlyRun, Tracks, Agree;
    OrderlyRunKeepsTracks(u, steps, t, p);
    TracksAgrees(t, p);
  }

  lemma TracksAgrees(s: System, p: Id)
    requires Tracks(s, p) && !Busy(s, p)
    ensures Agree(s, p)
  {
  }

  /** A project starts out without either. */
  lemma NewProjectTracks(s: System, p: Id)
    requires p in s.db.projects && s.db.projects[p].production == None && p !in s.alias && !Busy(s, p)
    ensures Tracks(s, p)
  {
    assert forall w :: WorkerSwap(s, w, p).None?;
    assert forall r :: PromoteSwap(s, r, p).None?;
  }

  // ----- any run -----

  function AliasOf(s: System, p: Id): Option<Id> {
    if p in s.alias then Some(s.alias[p]) else None
  }

  function ColumnOf(s: System, p: Id): Option<Id> {
    if p in s.db.projects then s.db.projects[p].production else None
  }

  /** The deployment to which a step moves the alias of `p`. */
  function MoveOf(s: System, step: Step, p: Id): Option<Id>
    requires Enabled(s, step)
  {
    match step
    case ByWorker(w, m) =>
      if m.ApplyAlias? && !m.fault.Lost? && s.workers[w].claim.project == p then Some(s.workers[w].claim.id) else None
    case ByHandler(d, m) => None
    case ByOther(m) =>
      if m.PromoteAlias? && !m.fault.Lost? && s.promotes[m.r].project == p then Some(s.promotes[m.r].id) else None
  }

  /** What a step writes into the column of `p`; deleting and creating a project clear it. */
  function WriteOf(s: System, step: Step, p: Id): Option<Option<Id>>
    requires Enabled(s, step)
  {
    match step
    case ByWorker(w, m) =>
      var c := s.workers[w];
      if m.PointProduction? && !m.fault.Lost? && c.claim.project == p && p in s.db.projects && c.claim.id in s.db.rows
      then Some(Some(c.claim.id)) else None
    case ByHandler(d, m) => None
    case ByOther(m) =>
      if m.PromoteWrite? && !m.fault.Lost? && s.promotes[m.r].project == p && p in s.db.projects && s.promotes[m.r].id in s.db.rows
      then Some(Some(s.promotes[m.r].id))
      else if (m.DeleteProject? || m.CreateProject?) && m.project == p then Some(None)
      else None
  }

  /** The last move of the alias of `p` in a run. */
  ghost function LastMove(s: System, steps: seq<Step>, t: System, p: Id): Option<Id>
    requires Executes(s, steps, t)
    decreases |steps|
  {
    if steps == [] then None
    else
      var later := LastMove(Apply(s, steps[0]), steps[1..], t, p);
      if later.Some? then later else MoveOf(s, steps[0], p)
  }

  /** The last write of the column of `p` in a run. */
  ghost function LastWrite(s: System, steps: seq<Step>, t: System, p: Id): Option<Option<Id>>
    requires Executes(s, steps, t)
    decreases |steps|
  {
    if steps == [] then None
    else
      var later := LastWrite(Apply(s, steps[0]), steps[1..], t, p);
      if later.Some? then later else WriteOf(s, steps[0], p)
  }

  lemma AliasAfterStep(s: System, step: Step, p: Id)
    requires Enabled(s, step)
    ensures AliasOf(Apply(s, step), p) == if MoveOf(s, step, p).Some? then MoveOf(s, step, p) else AliasOf(s, p)
  {
  }

  lemma ColumnAfterWorker(s: System, w: nat, m: WorkerMove, p: Id)
    requires WorkerCan(s, w, m)
    ensures ColumnOf(AfterWorker(s, w, m), p) == WriteOf(s, ByWorker(w, m), p).GetOr(ColumnOf(s, p))
  {
  }

  lemma ColumnAfterOther(s: System, m: OtherMove, p: Id)
    requires OtherCan(s, m)
    ensures ColumnOf(AfterOther(s, m), p) == WriteOf(s, ByOther(m), p).GetOr(ColumnOf(s, p))
  {
  }

  lemma ColumnAfterStep(s: System, step: Step, p: Id)
    requires Enabled(s, step)
    ensures ColumnOf(Apply(s, step), p) == WriteOf(s, step, p).GetOr(ColumnOf(s, p))
  {
    hide WorkerDb, WorkerCan, OtherCan, ColumnOf, WriteOf, AfterWorker, AfterOther, AfterHandler;
    match step
    case ByWorker(w, m) => ColumnAfterWorker(s, w, m, p);
    case ByHandler(d, m) => ColumnAfterHandler(s, d, m, p);
    case ByOther(m) => ColumnAfterOther(s, m, p);
  }

  lemma ColumnAfterHandler(s: System, d: string, m: HandlerMove, p: Id)
    requires HandlerCan(s, d, m)
    ensures ColumnOf(AfterHandler(s, d, m), p) == ColumnOf(s, p) && WriteOf(s, ByHandler(d, m), p) == None
  {
  }

  lemma {:induction false} AliasIsTheLastMove(s: System, steps: seq<Step>, t: System, p: Id)
    requires Executes(s, steps, t)
    ensures AliasOf(t, p) == if LastMove(s, steps, t, p).Some? then LastMove(s, steps, t, p) else AliasOf(s, p)
    decreases |steps|
  {
    hide Enabled, Apply, AliasOf, MoveOf;
    if steps != [] {
      AliasAfterStep(s, steps[0], p);
      AliasIsTheLastMove(Apply(s, steps[0]), steps[1..], t, p);
    }
  }

  lemma {:induction false} ColumnIsTheLastWrite(s: System, steps: seq<Step>, t: System, p: Id)
    requires Executes(s, steps, t)
    ensures ColumnOf(t, p) == LastWrite(s, steps, t, p).GetOr(ColumnOf(s, p))
    decreases |steps|
  {
    hide Enabled, Apply, ColumnOf, WriteOf;
    if steps != [] {
      ColumnAfterStep(s, steps[0], p);
      ColumnIsTheLastWrite(Apply(s, steps[0]), steps[1..], t, p);
    }
  }

  /** In any run of any number of workers, overlapping or not, alias and column of a project that
      is there agree exactly when the last move and the last write were for the same deployment. */
  lemma AgreeIffLastWritesMatch(s: System, steps: seq<Step>, t: System, p: Id)
    requires Executes(s, steps, t) && p in t.db.projects
    ensures Agree(t, p) <==>
            LastWrite(s, steps, t, p).GetOr(ColumnOf(s, p)) ==
            if LastMove(s, steps, t, p).Some? then LastMove(s, steps, t, p) else AliasOf(s, p)
  {
    AliasIsTheLastMove(s, steps, t, p);
    ColumnIsTheLastWrite(s, steps, t, p);
    hide Executes;
  }

  /** After a build's column write that is committed, alias and column agree exactly when the
      alias was not moved since the build's own alias call, or was last moved back to its
      commit; after one that is lost, exactly when they did before. */
  lemma ColumnWriteAgreesIff(s: System, w: nat, steps: seq<Step>, t: System, fault: Fault)
    requires WorkerCan(s, w, ApplyAlias(Acked)) && Executes(AfterWorker(s, w, ApplyAlias(Acked)), steps, t)
    requires var c := s.workers[w].claim;
             w in t.workers && t.workers[w] == Holding(c, Aliased) && c.project in t.db.projects && c.id in t.db.rows
    ensures var c, u := s.workers[w].claim, AfterWorker(s, w, ApplyAlias(Acked));
            var last := LastMove(u, steps, t, c.project);
            Agree(AfterWorker(t, w, PointProduction(fault)), c.project) <==>
            if fault.Lost? then Agree(t, c.project) else last == None || last == Some(c.id)
  {
    var c, u := s.workers[w].claim, AfterWorker(s, w, ApplyAlias(Acked));
    AliasIsTheLastMove(u, steps, t, c.project);
    ColumnAfterWorker(t, w, PointProduction(fault), c.project);
    assert AliasOf(u, c.project) == Some(c.id);
    hide Executes, IsProduction;
  }

  /** The same for a promote. */
  lemma PromoteWriteAgreesIff(s: System, r: nat, steps: seq<Step>, t: System, fault: Fault)
    requires OtherCan(s, PromoteAlias(r, Acked)) && Executes(AfterOther(s, PromoteAlias(r, Acked)), steps, t)
    requires var x := s.promotes[r];
             r in t.promotes && t.promotes[r] == x.(swapped := true) && x.project in t.db.projects && x.id in t.db.rows
    ensures var x, u := s.promotes[r], AfterOther(s, PromoteAlias(r, Acked));
            var last := LastMove(u, steps, t, x.project);
            Agree(AfterOther(t, PromoteWrite(r, fault)), x.project) <==>
            if fault.Lost? then Agree(t, x.project) else last == None || last == Some(x.id)
  {
    var x, u := s.promotes[r], AfterOther(s, PromoteAlias(r, Acked));
    AliasIsTheLastMove(u, steps, t, x.project);
    ColumnAfterOther(t, PromoteWrite(r, fault), x.project);
    assert AliasOf(u, x.project) == Some(x.id);
    hide Executes;
  }

  // ----- a build and a promote that overlap -----

  lemma BothSwap(s: System, w: nat, r: nat) returns (steps: seq<Step>, t: System)
    requires w in s.workers && s.workers[w].Holding? && s.workers[w].phase.Serving? && IsProduction(s.workers[w].claim)
    requires r in s.promotes && !s.promotes[r].swapped && s.workers[w].claim.project == s.promotes[r].project
    ensures Executes(s, steps, t)
    ensures var c, x := s.workers[w].claim, s.promotes[r];
            t == s.(alias := s.alias[c.project := c.id][c.project := x.id], workers := s.workers[w := Holding(c, Aliased)],
                    promotes := s.promotes[r := x.(swapped := true)])
  {
    var a, b := ByWorker(w, ApplyAlias(Acked)), ByOther(PromoteAlias(r, Acked));
    TwoSteps(s, a, b);
    steps, t := [a, b], Apply(Apply(s, a), b);
    hide Executes;
  }

  lemma BothWrite(s: System, w: nat, r: nat) returns (steps: seq<Step>, t: System)
    requires w in s.workers && s.workers[w].Holding? && s.workers[w].phase.Aliased? && r in s.promotes && s.promotes[r].swapped
    requires var c, x := s.workers[w].claim, s.promotes[r];
             c.project == x.project && c.project in s.db.projects && c.id in s.db.rows && x.id in s.db.rows
    ensures Executes(s, steps, t) && t.alias == s.alias && t.promotes == s.promotes - {r}
    ensures t.workers == s.workers[w := Holding(s.workers[w].claim, Finishing)]
    ensures var c := s.workers[w].claim; c.project in t.db.projects && t.db.projects[c.project].production == Some(c.id)
  {
    var a, b := ByOther(PromoteWrite(r, Acked)), ByWorker(w, PointProduction(Acked));
    TwoSteps(s, a, b);
    steps, t := [a, b], Apply(Apply(s, a), b);
    hide Executes;
  }

  lemma BothAreDone(s: System, t: System, w: nat, r: nat)
    requires w in s.workers && s.workers[w].Holding? && r in s.promotes
    requires t.workers == s.workers[w := Holding(s.workers[w].claim, Finishing)] && t.promotes.Keys == s.promotes.Keys - {r}
    requires forall q :: q in t.promotes ==> t.promotes[q] == s.promotes[q]
    ensures forall p :: Busy(t, p) ==> Busy(s, p)
  {
    forall p | Busy(t, p) ensures Busy(s, p) {
      assert forall v :: WorkerSwap(t, v, p).Some? ==> WorkerSwap(s, v, p).Some?;
      assert forall q :: PromoteSwap(t, q, p).Some? ==> PromoteSwap(s, q, p).Some?;
    }
  }

  /** The build moves the alias, the promote moves it and writes the column, the build writes the
      column. Both are done, traffic goes to the promoted commit, and the column names the built
      one. */
  lemma OverlapDisagrees(s: System, w: nat, r: nat) returns (steps: seq<Step>, t: System)
    requires w in s.workers && s.workers[w].Holding? && s.workers[w].phase.Serving? && IsProduction(s.workers[w].claim)
    requires r in s.promotes && !s.promotes[r].swapped
    requires var c, x := s.workers[w].claim, s.promotes[r];
             c.project == x.project && c.id != x.id && c.project in s.db.projects && c.id in s.db.rows && x.id in s.db.rows
    ensures Executes(s, steps, t)
    ensures var p := s.workers[w].claim.project;
            && p in t.alias && t.alias[p] == s.promotes[r].id
            && p in t.db.projects && t.db.projects[p].production == Some(s.workers[w].claim.id) && !Agree(t, p)
            && (!Busy(s, p) ==> !Busy(t, p))
  {
    var first, u := BothSwap(s, w, r);
    var second;
    second, t := BothWrite(u, w, r);
    BothAreDone(s, t, w, r);
    hide Executes, Busy;
    Compose(s, first, u, second, t);
    steps := first + second;
  }

  /** What a build does to everything but its own row and its worker: nothing. */
  ghost predicate OnlyBuilds(s: System, t: System, w: nat, id: Id, next: Worker) {
    && t == s.(db := s.db.(rows := t.db.rows), workers := s.workers[w := next], observed := t.observed)
    && t.db.rows.Keys == s.db.rows.Keys && id in t.db.rows && SameIdentity(t.db.rows[id], s.db.rows[id])
    && forall o :: o in s.db.rows && o != id ==> t.db.rows[o] == s.db.rows[o]
  }

  lemma BuildStarts(s: System, w: nat, id: Id) returns (steps: seq<Step>, t: System)
    requires w in s.workers && s.workers[w].Idle? && IsOldestQueued(s.db, id) && HasLogin(s.db, id)
    ensures Executes(s, steps, t) && OnlyBuilds(s, t, w, id, Holding(ClaimOf(s.db, id), JobDone))
  {
    var a, b := ByWorker(w, ClaimRow(id, Acked)), ByWorker(w, JobSucceeds);
    TwoSteps(s, a, b);
    steps, t := [a, b], Apply(Apply(s, a), b);
    hide Executes;
  }

  lemma BuildServes(s: System, w: nat, c: Claim) returns (steps: seq<Step>, t: System)
    requires w in s.workers && s.workers[w] == Holding(c, JobDone) && c.id in s.db.rows && c.login != ""
    ensures Executes(s, steps, t) && OnlyBuilds(s, t, w, c.id, Holding(c, Serving)) && t.db.rows[c.id].status.Ready?
  {
    var a, b := ByWorker(w, MarkDeploying(Acked)), ByWorker(w, MarkReady(Acked));
    TwoSteps(s, a, b);
    steps, t := [a, b], Apply(Apply(s, a), b);
    hide Executes;
  }

  lemma BuildRuns(s: System, w: nat, id: Id) returns (steps: seq<Step>, t: System)
    requires w in s.workers && s.workers[w].Idle? && IsOldestQueued(s.db, id) && HasLogin(s.db, id) && ClaimOf(s.db, id).login != ""
    ensures Executes(s, steps, t) && OnlyBuilds(s, t, w, id, Holding(ClaimOf(s.db, id), Serving)) && t.db.rows[id].status.Ready?
  {
    hide Executes;
    var first, u := BuildStarts(s, w, id);
    var second;
    second, t := BuildServes(u, w, ClaimOf(s.db, id));
    Compose(s, first, u, second, t);
    steps := first + second;
  }

  lemma TailRuns(s: System, w: nat) returns (steps: seq<Step>, t: System)
    requires w in s.workers && s.workers[w].Holding? && s.workers[w].phase.Serving? && IsProduction(s.workers[w].claim)
    requires var c := s.workers[w].claim; c.project in s.db.projects && c.id in s.db.rows
    ensures Executes(s, steps, t)
    ensures var c := s.workers[w].claim;
            t == s.(alias := s.alias[c.project := c.id], workers := s.workers[w := Idle], db := AfterSetProduction(s.db, c.project, c.id))
  {
    var a, b, c := ByWorker(w, ApplyAlias(Acked)), ByWorker(w, PointProduction(Acked)), ByWorker(w, Finish);
    TwoSteps(s, a, b);
    var u := Apply(Apply(s, a), b);
    Extend(s, [a, b], u, c);
    steps, t := [a, b] + [c], Apply(u, c);
    hide Executes;
  }

  function RowOfProject1(sha: string, now: int): Row {
    NewRow(1, sha, "refs/heads/main", Manual, None, now)
  }

  lemma QueuedRow(s: System, id: Id, sha: string) returns (step: Step, t: System)
    requires id !in s.db.issued && 1 in s.db.projects
    ensures Enabled(s, step) && Apply(s, step) == t
    ensures t == s.(db := s.db.(rows := s.db.rows[id := RowOfProject1(sha, s.now)], issued := s.db.issued + [id]))
  {
    step := ByOther(InsertDirect(id, 1, sha, "refs/heads/main", Manual));
    t := Apply(s, step);
  }

  lemma FirstRowIsQueued(s0: System, w: nat) returns (steps: seq<Step>, s: System)
    requires Init(s0) && w in s0.workers
    ensures Executes(s0, steps, s)
    ensures s == s0.(db := s0.db.(rows := map[0 := RowOfProject1("c0ffee", s0.now)], projects := Projects(),
                                  logins := Logins(), issued := [0]),
                     workers := s0.workers[w := Idle])
  {
    var first, u := ProjectsExist(s0);
    var insert, v := QueuedRow(u, 0, "c0ffee");
    Boots(v, w);
    s := Apply(v, ByWorker(w, Boot(Acked)));
    hide Executes, Enabled, Apply;
    Extend(s0, first, u, insert);
    Extend(s0, first + [insert], v, ByWorker(w, Boot(Acked)));
    steps := first + [insert] + [ByWorker(w, Boot(Acked))];
  }

  /** The only queued row is built and goes live. */
  lemma GoesLive(s: System, w: nat, id: Id) returns (steps: seq<Step>, t: System)
    requires w in s.workers && s.workers[w].Idle? && IsOldestQueued(s.db, id) && HasLogin(s.db, id)
    requires ClaimOf(s.db, id).login != "" && IsProduction(ClaimOf(s.db, id))
    ensures Executes(s, steps, t) && t.workers == s.workers[w := Idle] && t.promotes == s.promotes
    ensures t.db.rows.Keys == s.db.rows.Keys && id in t.db.rows && t.db.rows[id].status.Ready?
    ensures t.db.rows[id].project == s.db.rows[id].project && t.db.issued == s.db.issued && t.db.logins == s.db.logins
    ensures var p := s.db.rows[id].project;
            p in s.db.projects && t.db.projects == s.db.projects[p := s.db.projects[p].(production := Some(id))]
  {
    var first, u := BuildRuns(s, w, id);
    var second;
    second, t := TailRuns(u, w);
    hide Executes;
    Compose(s, first, u, second, t);
    steps := first + second;
  }

  /** A first commit is live, from an empty database. */
  lemma FirstCommitIsLive(s0: System, w: nat) returns (steps: seq<Step>, s: System)
    requires Init(s0) && w in s0.workers
    ensures Executes(s0, steps, s) && s.workers == s0.workers[w := Idle] && s.promotes == map[] && s.db.issued == [0]
    ensures s.db.rows.Keys == {0} && s.db.rows[0].status.Ready? && s.db.rows[0].project == 1
    ensures s.db.projects.Keys == {0, 1} && s.db.projects[1] == Project(2, 2, "beta", "main", Some(0)) && s.db.logins == Logins()
  {
    var first, u := FirstRowIsQueued(s0, w);
    hide Executes;
    var second;
    second, s := GoesLive(u, w, 0);
    Compose(s0, first, u, second, s);
    steps := first + second;
  }

  lemma PromoteStarts(s: System, r: nat, id: Id) returns (step: Step, t: System)
    requires r !in s.promotes && id in s.db.rows && s.db.rows[id].status.Ready?
    ensures Enabled(s, step) && Apply(s, step) == t
    ensures t == s.(promotes := s.promotes[r := Promote(s.db.rows[id].project, id, false)])
  {
    step := ByOther(PromoteRead(r, id));
    t := Apply(s, step);
  }

  /** A second commit is built while somebody promotes the first one. */
  lemma SecondCommitServes(s: System, w: nat) returns (steps: seq<Step>, t: System)
    requires w in s.workers && s.workers[w].Idle? && s.promotes == map[] && s.db.issued == [0]
    requires s.db.rows.Keys == {0} && s.db.rows[0].status.Ready? && s.db.rows[0].project == 1
    requires 1 in s.db.projects && s.db.projects[1] == Project(2, 2, "beta", "main", Some(0)) && s.db.logins == Logins()
    ensures Executes(s, steps, t) && t.workers.Keys == s.workers.Keys && t.workers[w].Holding? && t.workers[w].phase.Serving?
    ensures IsProduction(t.workers[w].claim) && t.workers[w].claim.id == 1 && t.workers[w].claim.project == 1
    ensures t.promotes == map[0 := Promote(1, 0, false)] && 1 in t.db.projects && 0 in t.db.rows && 1 in t.db.rows
  {
    hide Executes, Enabled, Apply;
    var insert, u := QueuedRow(s, 1, "facade");
    var middle, v := BuildRuns(u, w, 1);
    var read;
    read, t := PromoteStarts(v, 0, 0);
    JustOne(s, insert, u);
    Compose(s, [insert], u, middle, v);
    Extend(s, [insert] + middle, v, read);
    steps := [insert] + middle + [read];
  }

  lemma JustOne(s: System, step: Step, t: System)
    requires Enabled(s, step) && Apply(s, step) == t
    ensures Executes(s, [step], t)
  {
    assert [step][1..] == [];
  }

  lemma NobodySwaps(s: System, w: nat)
    requires s.workers.Keys == {w} && !(s.workers[w].Holding? && s.workers[w].phase.Aliased?)
    requires forall r :: r in s.promotes ==> !s.promotes[r].swapped
    ensures forall p :: !Busy(s, p)
  {
  }

  /** From an empty database one replica comes to a state in which nobody is between two writes,
      the alias serves one commit and the column names another. */
  lemma ColumnNamesAnotherCommit(s0: System, w: nat) returns (steps: seq<Step>, t: System)
    requires Init(s0) && s0.workers.Keys == {w}
    ensures Executes(s0, steps, t) && 1 in t.alias && t.alias[1] == 0
    ensures 1 in t.db.projects && t.db.projects[1].production == Some(1) && !Agree(t, 1) && !Busy(t, 1)
  {
    hide Executes, Busy;
    var first, s := FirstCommitIsLive(s0, w);
    var second, u := SecondCommitServes(s, w);
    NobodySwaps(u, w);
    var third;
    third, t := OverlapDisagrees(u, w, 0);
    Compose(s0, first, s, second, u);
    Compose(s0, first + second, u, third, t);
    steps := first + second + third;
  }
}
