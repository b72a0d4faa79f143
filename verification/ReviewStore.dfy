/** The review handlers as they run: row by row, query by query. Each method is shown to
    make exactly the step that the model prescribes. */
module ReviewStore {
  import opened Common
  import opened Text
  import opened ReviewModel
  import opened ReviewInvariants

  /** Steps with the ones in [f..i) approved and the i-th under way. */
  function Partway(steps: seq<Step>, f: nat, i: nat): (t: seq<Step>)
    requires f <= i <= |steps|
    ensures |t| == |steps|
  {
    seq(|steps|, j requires 0 <= j < |steps| =>
      if f <= j < i then steps[j].(status := Approved)
      else if j == i then steps[j].(status := InProgress)
      else steps[j])
  }

  /** The step at the frontier, if there is one, has been opened. */
  predicate Ready(steps: seq<Step>) {
    Frontier(steps) < |steps| ==> steps[Frontier(steps)].status == InProgress
  }

  lemma {:induction false} PartwayEnds(steps: seq<Step>)
    requires Ready(steps)
    ensures Partway(steps, Frontier(steps), Frontier(steps)) == steps
    ensures Partway(steps, Frontier(steps), SettledEnd(steps)) == Settled(steps)
  {
  }

  /** Opening the frontier step by hand makes no difference to settling. */
  lemma {:induction false} SettledAfterOpening(steps: seq<Step>)
    requires Settleable(steps) && Frontier(steps) < |steps|
    ensures var t := steps[Frontier(steps) := steps[Frontier(steps)].(status := InProgress)];
            Settleable(t) && Settled(t) == Settled(steps)
  {
    var f := Frontier(steps);
    var t := steps[f := steps[f].(status := InProgress)];
    FrontierIs(t, f);
    assert Defs(t) == Defs(steps);
  }

  /** With every step approved, advancing is completing, once or twice. */
  lemma {:induction false} AllApproved(s: State, sub: int)
    requires sub in s.instances && Frontier(s.instances[sub].steps) == |s.instances[sub].steps|
    ensures var t := ReviewModel.Finish(s, sub);
            t.instances[sub].steps == s.instances[sub].steps && Settle(t, sub) == t == Settle(s, sub)
  {
    var steps, t := s.instances[sub].steps, ReviewModel.Finish(s, sub);
    assert Settled(steps) == steps;
    assert WithSteps(s, sub, steps) == s && WithSteps(t, sub, steps) == t;
    SecondFinishIsNoOp(s, sub);
  }

  function Rows(table: map<int, Instance>, sub: int, steps: seq<Step>): map<int, Instance>
    requires sub in table
  {
    table[sub := table[sub].(steps := steps)]
  }

  function WithStatus(steps: seq<Step>, k: nat, st: Status): seq<Step>
    requires k < |steps|
  {
    steps[k := steps[k].(status := st)]
  }

  lemma {:induction false} FirstIs(steps: seq<Step>, st: Status, k: nat)
    requires k <= |steps| && forall j | 0 <= j < k :: steps[j].status != st
    requires k < |steps| ==> steps[k].status == st
    ensures First(steps, st) == k
  {
  }

  /** What the queries of the advance loop find when the steps up to i are done. */
  lemma {:induction false} PartwayQueries(steps: seq<Step>, f: nat, i: nat)
    requires f == Frontier(steps) <= i <= |steps| && Settleable(steps)
    ensures First(Partway(steps, f, i), InProgress) == i
    ensures i < |steps| ==>
      var t := WithStatus(Partway(steps, f, i), i, Approved);
      First(t, Pending) == i + 1 &&
      (i + 1 == |steps| ==> t == Partway(steps, f, i + 1)) &&
      (i + 1 < |steps| ==> WithStatus(t, i + 1, InProgress) == Partway(steps, f, i + 1))
  {
    var p := Partway(steps, f, i);
    FirstIs(p, InProgress, i);
    if i < |steps| {
      FirstIs(WithStatus(p, i, Approved), Pending, i + 1);
    }
  }

  class Server {
    var versions: map<int, Version>
    var submissions: map<int, Submission>
    var instances: map<int, Instance>
    var workflows: map<int, Workflow>
    var userOrg: map<int, int>
    var roles: set<int>
    var held: set<(int, int)>
    var nextSubmission: int
    var nextStep: int
    var nextWorkflow: int

    function View(): State
      reads this
    {
      State(versions, submissions, instances, workflows, userOrg, roles, held,
            nextSubmission, nextStep, nextWorkflow)
    }

    // ----- The auto-advance loop -----

    method Finish(sub: int)
      requires sub in instances
      modifies this
      ensures View() == old(ReviewModel.Finish(View(), sub))
    {
      if Unfinished(instances[sub].steps) {
        return;
      }
      var inst := instances[sub];
      instances := instances[sub := inst.(status := Approved)];
      submissions := WithSubmissionStatus(submissions, sub, Approved);
      versions := WithVersionStatus(versions, inst.version, Approved);
    }

    /** The loop ends because every turn approves one more open step; it stops at a manual step
        or when no step is open. */
    method ApproveAutoSteps(sub: int) returns (open: bool)
      requires sub in instances && Settleable(instances[sub].steps)
      requires Ready(instances[sub].steps)
      modifies `instances
      ensures old(sub in instances)
      ensures instances == old(Rows(instances, sub, Settled(instances[sub].steps)))
      ensures open <==> old(SettledEnd(instances[sub].steps) < |instances[sub].steps|)
    {
      ghost var table, steps0 := instances, instances[sub].steps;
      ghost var f, e := Frontier(steps0), SettledEnd(steps0);
      ghost var i := f;
      PartwayEnds(steps0);
      assert Rows(table, sub, steps0) == table;
      while true
        invariant f <= i <= e
        invariant instances == Rows(table, sub, Partway(steps0, f, i))
        decreases |steps0| - i
      {
        PartwayQueries(steps0, f, i);
        var k := First(instances[sub].steps, InProgress);
        if k == |instances[sub].steps| {
          return false;
        }
        assert Defs(steps0)[i] == instances[sub].steps[k].def;
        if instances[sub].steps[k].def.mode != Auto {
          return true;
        }
        SetStatus(sub, k, Approved);
        var next := First(instances[sub].steps, Pending);
        if next == |instances[sub].steps| {
          assert i + 1 == e;
          return false;
        }
        SetStatus(sub, next, InProgress);
        i := i + 1;
      }
    }

    /** What the loop does, and then completion unless it stopped at a manual step, is what the
        closed form says. */
    method Advance(sub: int)
      requires sub in instances && Settleable(instances[sub].steps)
      requires Ready(instances[sub].steps)
      modifies this
      ensures View() == old(Settle(View(), sub))
    {
      SettledShape(instances[sub].steps);
      var open := ApproveAutoSteps(sub);
      if !open {
        Finish(sub);
      }
    }

    /** `UPDATE skill_review_steps SET status=? WHERE id=?` */
    method SetStatus(sub: int, k: nat, st: Status)
      requires sub in instances && k < |instances[sub].steps|
      modifies `instances
      ensures old(sub in instances && k < |instances[sub].steps|)
      ensures instances == old(Rows(instances, sub, WithStatus(instances[sub].steps, k, st)))
    {
      var steps := instances[sub].steps;
      instances := instances[sub := instances[sub].(steps := steps[k := steps[k].(status := st)])];
    }

    // ----- Submission -----

    /** `ORDER BY id LIMIT 1` over the active workflows of an organization. */
    method ActiveWorkflow(org: int) returns (found: Option<int>)
      ensures found.Some? ==> IsChosenWorkflow(View(), org, found.value)
      ensures found.None? ==> forall w | w in workflows :: !(workflows[w].org == org && workflows[w].active)
    {
      var ids := set w | w in workflows && workflows[w].org == org && workflows[w].active;
      if ids == {} {
        assert forall w | w in workflows && workflows[w].org == org && workflows[w].active :: w in ids;
        return None;
      }
      HasLeast(ids);
      var w :| w in ids && forall x | x in ids :: w <= x;
      assert forall x | x in workflows && workflows[x].org == org && workflows[x].active :: x in ids;
      found := Some(w);
    }

    method OpenSubmission(user: int, version: int, defs: seq<StepDef>)
      requires version in versions
      modifies this
      ensures View() == old(Opened(View(), user, version, defs))
    {
      var sub := nextSubmission;
      submissions := submissions[sub := Submission(versions[version].skill, version, user, InReview)];
      nextSubmission := sub + 1;
      versions := WithVersionStatus(versions, version, InReview);
      var steps := [];
      for i := 0 to |defs|
        invariant steps == Snapshot(defs, nextStep)[..i]
      {
        steps := steps + [Step(nextStep + i, defs[i], if i == 0 then InProgress else Pending, None)];
      }
      assert steps == Snapshot(defs, nextStep);
      instances := instances[sub := Instance(version, InProgress, steps)];
      nextStep := nextStep + |defs|;
    }

    method Submit(user: int, version: int)
      requires Inv(View())
      modifies this
      ensures View() == old(ReviewModel.Submit(View(), user, version))
    {
      ghost var s := View();
      if version !in versions || HasOpenSubmission(View(), version) || user !in userOrg {
        return;
      }
      var found := ActiveWorkflow(userOrg[user]);
      if found.None? {
        assert forall w :: !CanSubmit(s, user, version, w);
        return;
      }
      forall w | CanSubmit(s, user, version, w) ensures found.value == w {
        ChosenWorkflowIsUnique(s, userOrg[user], w, found.value);
      }
      if workflows[found.value].steps == [] {
        return;
      }
      assert CanSubmit(s, user, version, found.value);
      var sub, defs := nextSubmission, workflows[found.value].steps;
      OpenedIsSettleable(s, user, version, defs);
      FrontierIs(Snapshot(defs, nextStep), 0);
      OpenSubmission(user, version, defs);
      Advance(sub);
    }

    // ----- Decisions -----

    method Decide(user: int, sub: int, stepId: int, verdict: Status)
      requires Inv(View())
      modifies this
      ensures View() == old(ReviewModel.Decide(View(), user, sub, stepId, verdict))
    {
      if stepId == 0 || !IsVerdict(verdict) || sub !in instances || instances[sub].status != InProgress {
        return;
      }
      var steps := instances[sub].steps;
      var k := Find(steps, stepId);
      if k == |steps| || steps[k].status != InProgress || steps[k].def.mode != Manual {
        return;
      }
      if steps[k].def.role.Some? && (user, steps[k].def.role.value) !in held {
        return;
      }
      AcceptedAtFrontier(View(), user, sub, stepId, verdict);
      Apply(user, sub, k, verdict);
    }

    /** The writes behind an accepted decision on step k. */
    method Apply(user: int, sub: int, k: nat, verdict: Status)
      requires Inv(View()) && sub in submissions && submissions[sub].status == InReview
      requires k == Frontier(instances[sub].steps) < |instances[sub].steps|
      modifies this
      ensures View() == old(if verdict == Approved then Settle(Marked(View(), user, sub, verdict), sub)
                            else Refused(Marked(View(), user, sub, verdict), sub, verdict))
    {
      ghost var s := View();
      if verdict == Approved {
        ApprovalIsSettleable(s, user, sub);
      }
      RecordVerdict(sub, k, user, verdict);
      assert View() == Marked(s, user, sub, verdict);
      if verdict == Approved {
        OpenNextAndAdvance(sub);
      } else {
        Refuse(sub, verdict);
      }
    }

    method Refuse(sub: int, verdict: Status)
      requires sub in instances
      modifies `instances, `submissions
      ensures View() == old(Refused(View(), sub, verdict))
    {
      instances := instances[sub := instances[sub].(status := verdict)];
      if sub in submissions {
        submissions := submissions[sub := submissions[sub].(status := verdict)];
      }
    }

    /** `UPDATE skill_review_steps SET status=?,reviewed_by=? WHERE id=?` */
    method RecordVerdict(sub: int, k: nat, user: int, verdict: Status)
      requires sub in instances && k < |instances[sub].steps|
      modifies `instances
      ensures old(sub in instances && k < |instances[sub].steps|)
      ensures View() == old(WithSteps(View(), sub, instances[sub].steps[
                                        k := instances[sub].steps[k].(status := verdict, reviewer := Some(user))]))
    {
      var steps := instances[sub].steps;
      steps := steps[k := steps[k].(status := verdict, reviewer := Some(user))];
      instances := instances[sub := instances[sub].(steps := steps)];
    }

    /** The tail of an approval: open the next pending step or complete, then advance. */
    method OpenNextAndAdvance(sub: int)
      requires InvExcept(View(), sub)
      requires forall j | 0 <= j < |instances[sub].steps| :: instances[sub].steps[j].status != InProgress
      modifies this
      ensures View() == old(Settle(View(), sub))
    {
      var steps := instances[sub].steps;
      var next := First(steps, Pending);
      assert next == Frontier(steps);
      if next == |steps| {
        AllApproved(View(), sub);
        Finish(sub);
      } else {
        SettledAfterOpening(steps);
        steps := steps[next := steps[next].(status := InProgress)];
        instances := instances[sub := instances[sub].(steps := steps)];
        FrontierIs(steps, next);
      }
      Advance(sub);
    }

    // ----- Publication -----

    method PublishSubmission(sub: int)
      modifies this
      ensures View() == old(ReviewModel.PublishSubmission(View(), sub))
    {
      if sub !in submissions || submissions[sub].status != Approved {
        return;
      }
      var v := submissions[sub].version;
      submissions := submissions[sub := submissions[sub].(status := Published)];
      if v in versions {
        versions := versions[v := versions[v].(status := Published, immutable := true)];
      }
    }

    method PublishVersion(v: int)
      modifies this
      ensures View() == old(ReviewModel.PublishVersion(View(), v))
    {
      if v !in versions || versions[v].status != Approved {
        return;
      }
      versions := versions[v := versions[v].(status := Published, immutable := true)];
    }

    // ----- Workflow administration -----

    method ValidateSteps(reqs: seq<StepRequest>) returns (ok: bool)
      ensures ok <==> forall r | r in reqs :: ValidStep(r, roles)
    {
      for i := 0 to |reqs|
        invariant forall r | r in reqs[..i] :: ValidStep(r, roles)
      {
        var r := reqs[i];
        assert r in reqs && reqs[..i + 1] == reqs[..i] + [r];
        if Trim(r.name) == "" {
          return false;
        }
        if r.mode.None? {
          return false;
        }
        if r.role.Some? && r.role.value !in roles {
          return false;
        }
        if r.mode == Some(Manual) && r.role.None? {
          return false;
        }
      }
      assert reqs[..|reqs|] == reqs;
      ok := true;
    }

    method SaveWorkflow(org: int, id: int, name: string, status: string, reqs: seq<StepRequest>)
      modifies this
      ensures View() == old(ReviewModel.SaveWorkflow(View(), org, id, name, status, reqs))
    {
      if Trim(name) == "" || |reqs| == 0 || status !in {"", "active", "disabled"} {
        return;
      }
      var ok := ValidateSteps(reqs);
      if !ok || (id != 0 && (id !in workflows || workflows[id].org != org)) || NameTaken(View(), org, Trim(name), id) {
        return;
      }
      assert CanSaveWorkflow(View(), org, id, name, status, reqs);
      var defs := [];
      for i := 0 to |reqs|
        invariant defs == Stored(reqs)[..i]
      {
        assert reqs[i] in reqs;
        defs := defs + [StepDef(Trim(reqs[i].name), reqs[i].role, reqs[i].mode.value, reqs[i].required)];
      }
      assert defs == Stored(reqs);
      var row := Workflow(org, Trim(name), status != "disabled", defs);
      if id == 0 {
        workflows := workflows[nextWorkflow := row];
        nextWorkflow := nextWorkflow + 1;
      } else {
        workflows := workflows[id := row];
      }
    }
  }
}
