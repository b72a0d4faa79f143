/** The decisions an instance accepts over a run, and the snapshot they are taken on. */
module ReviewLog {
  import opened Common
  import opened ReviewModel
  import opened ReviewInvariants

  /** One accepted decision: its step, who took it, and the roles that user then held. */
  datatype Entry = Entry(step: nat, user: int, verdict: Status, roles: set<int>)

  function RolesOf(s: State, user: int): set<int> {
    set p | p in s.held && p.0 == user :: p.1
  }

  /** The decisions on submission `sub` that the run accepts, oldest first. */
  ghost function Log(s: State, es: seq<Event>, sub: int): seq<Entry> {
    if es == [] then []
    else Log(s, es[..|es| - 1], sub) + Accepted(Run(s, es[..|es| - 1]), es[|es| - 1], sub)
  }

  function Accepted(t: State, e: Event, sub: int): seq<Entry> {
    match e
    case DecideStep(user, id, step, verdict) =>
      if id == sub && Accepts(t, user, sub, step, verdict)
      then [Entry(Find(t.instances[sub].steps, step), user, verdict, RolesOf(t, user))] else []
    case _ => []
  }

  function StepsOf(log: seq<Entry>): seq<nat> {
    seq(|log|, i requires 0 <= i < |log| => log[i].step)
  }

  /** The positions of the manual steps among the first n, in step order. */
  function ManualSteps(defs: seq<StepDef>, n: nat): (ks: seq<nat>)
    requires n <= |defs|
    ensures forall i | 0 <= i < |ks| :: ks[i] < n && defs[ks[i]].mode.Manual?
    ensures forall i, j | 0 <= i < j < |ks| :: ks[i] < ks[j]
  {
    if n == 0 then []
    else
      var rest := ManualSteps(defs, n - 1);
      if defs[n - 1].mode.Manual? then rest + [n - 1] else rest
  }

  /** The refusal that stopped the instance, if any. */
  function Refusal(steps: seq<Step>): Option<Status> {
    var f := Frontier(steps);
    if f < |steps| && steps[f].status != InProgress then Some(steps[f].status) else None
  }

  /** The log of an instance is read off its steps. */
  ghost predicate LogMatches(steps: seq<Step>, log: seq<Entry>) {
    LogIs(Defs(steps), Frontier(steps), Refusal(steps), log)
  }

  /** Every manual step before the frontier was approved, and the frontier refused if at all. */
  ghost predicate LogIs(defs: seq<StepDef>, f: nat, refusal: Option<Status>, log: seq<Entry>) {
    && f <= |defs|
    && StepsOf(log) == ManualSteps(defs, f) + (if refusal.Some? then [f] else [])
    && (forall i | 0 <= i < |log| ::
          log[i].verdict == if refusal.Some? && i == |log| - 1 then refusal.value else Approved)
    && forall i | 0 <= i < |log| :: RoleHeld(defs, log[i])
  }

  predicate RoleHeld(defs: seq<StepDef>, e: Entry) {
    e.step < |defs| && (defs[e.step].role.Some? ==> defs[e.step].role.value in e.roles)
  }

  // ----- Auto steps add nothing -----

  lemma {:induction false} AutoStepsAreNotManual(defs: seq<StepDef>, k: nat, e: nat)
    requires k <= e <= |defs| && forall j | k <= j < e :: defs[j].mode.Auto?
    ensures ManualSteps(defs, e) == ManualSteps(defs, k)
  {
    if k < e {
      AutoStepsAreNotManual(defs, k, e - 1);
    }
  }

  lemma {:induction false} ManualStepsPrefix(defs: seq<StepDef>, k: nat, n: nat)
    requires k <= n <= |defs|
    ensures ManualSteps(defs, k) <= ManualSteps(defs, n)
    ensures k < n && defs[k].mode.Manual? ==> ManualSteps(defs, k) + [k] <= ManualSteps(defs, n)
  {
    if k < n {
      ManualStepsPrefix(defs, k, n - 1);
    }
  }

  // ----- What a step does to the instances -----

  lemma {:induction false} DecideEffect(s: State, user: int, sub: int, stepId: int, verdict: Status)
    requires Inv(s) && Accepts(s, user, sub, stepId, verdict)
    ensures var steps, t := s.instances[sub].steps, Decide(s, user, sub, stepId, verdict);
            Find(steps, stepId) == Frontier(steps) < |steps| &&
            InstanceOk(s.instances[sub]) && s.instances[sub].status == InProgress &&
            t.instances.Keys == s.instances.Keys &&
            (forall id | id in s.instances && id != sub :: t.instances[id] == s.instances[id]) &&
            t.instances[sub].steps
              == if verdict == Approved then Settled(Mark(steps, user, verdict)) else Mark(steps, user, verdict)
  {
    assert SubmissionOk(s, sub);
  }

  lemma {:induction false} SubmitEffect(s: State, user: int, version: int) returns (w: int)
    requires Inv(s) && Submit(s, user, version) != s
    ensures CanSubmit(s, user, version, w)
    ensures var t, sub := Submit(s, user, version), s.nextSubmission;
            sub !in s.instances && t.instances.Keys == s.instances.Keys + {sub} &&
            (forall id | id in s.instances :: t.instances[id] == s.instances[id]) &&
            t.instances[sub].steps == Settled(Snapshot(s.workflows[w].steps, s.nextStep)) &&
            sub in t.submissions &&
            t.submissions[sub].submitter == user && t.submissions[sub].version == version
  {
    w :| CanSubmit(s, user, version, w)
      && Submit(s, user, version) == Settle(Opened(s, user, version, s.workflows[w].steps), s.nextSubmission);
    forall id | id in s.submissions ensures id < s.nextSubmission {
      assert SubmissionOk(s, id);
    }
    SettleEffect(Opened(s, user, version, s.workflows[w].steps), s.nextSubmission);
  }

  lemma {:induction false} SettleEffect(s: State, sub: int)
    requires sub in s.instances && sub in s.submissions
    ensures var t := Settle(s, sub);
            t.instances.Keys == s.instances.Keys &&
            (forall id | id in s.instances && id != sub :: t.instances[id] == s.instances[id]) &&
            t.instances[sub].steps == Settled(s.instances[sub].steps) &&
            sub in t.submissions && t.submissions[sub].submitter == s.submissions[sub].submitter &&
            t.submissions[sub].version == s.submissions[sub].version
  {
  }

  // ----- The snapshot is frozen -----

  /** No step changes the definitions an instance was created with. */
  lemma {:induction false} NextKeepsSnapshot(s: State, e: Event, sub: int)
    requires Inv(s) && sub in s.instances
    ensures sub in Next(s, e).instances
    ensures Defs(Next(s, e).instances[sub].steps) == Defs(s.instances[sub].steps)
  {
    match e
    case SubmitVersion(user, v) =>
      if Submit(s, user, v) != s {
        var w := SubmitEffect(s, user, v);
      }
    case DecideStep(user, id, step, verdict) =>
      if Accepts(s, user, id, step, verdict) {
        DecideEffect(s, user, id, step, verdict);
        SettledKeepsDefs(Mark(s.instances[id].steps, user, verdict));
      }
    case _ =>
  }

  lemma {:induction false} SettledKeepsDefs(steps: seq<Step>)
    ensures Defs(Settled(steps)) == Defs(steps)
  {
  }

  /** However the run goes on, workflow edits included, the step list of an instance stays
      the one it had when it was first seen. */
  lemma {:induction false} SnapshotIsFrozen(s: State, es: seq<Event>, more: seq<Event>, sub: int)
    requires Initial(s) && sub in Run(s, es).instances
    ensures sub in Run(s, es + more).instances
    ensures Defs(Run(s, es + more).instances[sub].steps) == Defs(Run(s, es).instances[sub].steps)
    decreases |more|
  {
    if more == [] {
      assert es + more == es;
    } else {
      var most := more[..|more| - 1];
      SnapshotIsFrozen(s, es, most, sub);
      RunKeepsInv(s, es + most);
      NextKeepsSnapshot(Run(s, es + most), more[|more| - 1], sub);
      assert (es + more)[..|es + more| - 1] == es + most;
    }
  }

  /** A new instance is the snapshot of the active workflow of the submitter's organization
      with the least id. */
  lemma {:induction false} SubmissionTakesSnapshot(s: State, user: int, version: int)
    requires Inv(s) && Submit(s, user, version) != s
    ensures var t, sub := Submit(s, user, version), s.nextSubmission;
            sub !in s.instances && sub in t.instances && user in s.userOrg &&
            t.submissions[sub].submitter == user && t.submissions[sub].version == version &&
            exists w :: IsChosenWorkflow(s, s.userOrg[user], w) &&
              Defs(t.instances[sub].steps) == s.workflows[w].steps
  {
    var w := SubmitEffect(s, user, version);
    SettledKeepsDefs(Snapshot(s.workflows[w].steps, s.nextStep));
  }

  // ----- The log of a run -----

  lemma {:induction false} ApprovalExtendsLog(defs: seq<StepDef>, f: nat, g: nat, log: seq<Entry>, e: Entry)
    requires LogIs(defs, f, None, log) && f < g <= |defs| && defs[f].mode.Manual?
    requires forall j | f < j < g :: defs[j].mode.Auto?
    requires e.step == f && e.verdict == Approved && RoleHeld(defs, e)
    ensures LogIs(defs, g, None, log + [e])
  {
    AutoStepsAreNotManual(defs, f + 1, g);
    assert StepsOf(log + [e]) == StepsOf(log) + [f];
  }

  lemma {:induction false} RefusalExtendsLog(defs: seq<StepDef>, f: nat, log: seq<Entry>, e: Entry)
    requires LogIs(defs, f, None, log) && e.step == f && RoleHeld(defs, e)
    ensures LogIs(defs, f, Some(e.verdict), log + [e])
  {
    assert StepsOf(log + [e]) == StepsOf(log) + [f];
  }

  /** Where the steps stand after the one at the frontier is decided. */
  lemma {:induction false} AfterVerdict(steps: seq<Step>, user: int, verdict: Status)
    requires InstanceOk(Instance(0, InProgress, steps)) && Frontier(steps) < |steps| && IsVerdict(verdict)
    ensures var f, marked := Frontier(steps), Mark(steps, user, verdict);
            steps[f].def.mode.Manual? && Refusal(steps) == None &&
            if verdict == Approved then
              var t := Settled(marked);
              f < Frontier(t) && Refusal(t) == None && Defs(t) == Defs(steps) &&
              forall j | f < j < Frontier(t) :: Defs(steps)[j].mode.Auto?
            else
              Frontier(marked) == f && Refusal(marked) == Some(verdict) && Defs(marked) == Defs(steps)
  {
    var f, marked := Frontier(steps), Mark(steps, user, verdict);
    if verdict == Approved {
      FrontierIs(marked, f + 1);
      SettledShape(marked);
    } else {
      FrontierIs(marked, f);
    }
  }

  lemma {:induction false} AcceptedEntry(s: State, user: int, sub: int, stepId: int, verdict: Status)
    requires Inv(s) && Accepts(s, user, sub, stepId, verdict)
    ensures var steps, made := s.instances[sub].steps, Accepted(s, DecideStep(user, sub, stepId, verdict), sub);
            |made| == 1 && made[0].step == Frontier(steps) && made[0].verdict == verdict &&
            RoleHeld(Defs(steps), made[0])
  {
    DecideEffect(s, user, sub, stepId, verdict);
    var role := s.instances[sub].steps[Find(s.instances[sub].steps, stepId)].def.role;
    if role.Some? {
      var p := (user, role.value);
      assert p in s.held && p.0 == user && p.1 in RolesOf(s, user);
    }
  }

  lemma {:induction false} DecisionExtendsLog(
      s: State, user: int, sub: int, stepId: int, verdict: Status, log: seq<Entry>)
    requires Inv(s) && Accepts(s, user, sub, stepId, verdict)
    requires LogMatches(s.instances[sub].steps, log)
    ensures LogMatches(Decide(s, user, sub, stepId, verdict).instances[sub].steps,
                       log + Accepted(s, DecideStep(user, sub, stepId, verdict), sub))
  {
    DecideEffect(s, user, sub, stepId, verdict);
    AcceptedEntry(s, user, sub, stepId, verdict);
    var steps, made := s.instances[sub].steps, Accepted(s, DecideStep(user, sub, stepId, verdict), sub);
    assert made == [made[0]];
    AfterVerdict(steps, user, verdict);
    var f := Frontier(steps);
    if verdict == Approved {
      ApprovalExtendsLog(Defs(steps), f, Frontier(Settled(Mark(steps, user, verdict))), log, made[0]);
    } else {
      RefusalExtendsLog(Defs(steps), f, log, made[0]);
    }
  }

  lemma {:induction false} NewInstanceHasEmptyLog(defs: seq<StepDef>, firstId: int)
    requires defs != []
    ensures LogMatches(Settled(Snapshot(defs, firstId)), [])
  {
    var steps := Snapshot(defs, firstId);
    FrontierIs(steps, 0);
    SettledShape(steps);
    AutoStepsAreNotManual(defs, 0, SettledEnd(steps));
  }

  /** The log and the steps agree, or there is neither. */
  ghost predicate Logged(t: State, sub: int, log: seq<Entry>) {
    if sub in t.instances then LogMatches(t.instances[sub].steps, log) else log == []
  }

  lemma {:induction false} StepExtendsLog(t: State, e: Event, sub: int, log: seq<Entry>)
    requires Inv(t) && Logged(t, sub, log)
    ensures Logged(Next(t, e), sub, log + Accepted(t, e, sub))
  {
    assert log + [] == log;
    match e
    case DecideStep(user, id, step, verdict) =>
      if Accepts(t, user, id, step, verdict) {
        DecideEffect(t, user, id, step, verdict);
        if id == sub {
          DecisionExtendsLog(t, user, sub, step, verdict, log);
        }
      }
    case SubmitVersion(user, version) =>
      SubmitExtendsLog(t, user, version, sub, log);
    case _ =>
      assert Next(t, e).instances == t.instances;
  }

  lemma {:induction false} SubmitExtendsLog(t: State, user: int, version: int, sub: int, log: seq<Entry>)
    requires Inv(t) && Logged(t, sub, log)
    ensures Logged(Submit(t, user, version), sub, log)
  {
    if Submit(t, user, version) != t {
      var w := SubmitEffect(t, user, version);
      NewInstanceHasEmptyLog(t.workflows[w].steps, t.nextStep);
    }
  }

  lemma {:induction false} RunLog(s: State, es: seq<Event>, sub: int)
    requires Initial(s)
    ensures Logged(Run(s, es), sub, Log(s, es, sub))
  {
    if es != [] {
      var t, e := Run(s, es[..|es| - 1]), es[|es| - 1];
      RunLog(s, es[..|es| - 1], sub);
      RunKeepsInv(s, es[..|es| - 1]);
      StepExtendsLog(t, e, sub, Log(s, es[..|es| - 1], sub));
    }
  }

  /** Over any run from an empty review table, with workflow edits and role changes anywhere
      in between: the decisions an instance accepts are taken on its manual steps in step
      order, each by a user who then held the role the step requires; there are never more
      of them than manual steps; only the last can be a refusal; and the instance is
      approved exactly when every manual step has been approved. */
  lemma {:induction false} DecisionsFollowTheManualSteps(s: State, es: seq<Event>, sub: int)
    requires Initial(s) && sub in Run(s, es).instances
    ensures var inst, log := Run(s, es).instances[sub], Log(s, es, sub);
            var defs := Defs(inst.steps);
            var manual := ManualSteps(defs, |defs|);
            StepsOf(log) <= manual && |log| <= |manual| &&
            (forall i | 0 <= i < |log| :: RoleHeld(defs, log[i])) &&
            (forall i | 0 <= i < |log| - 1 :: log[i].verdict == Approved) &&
            (inst.status == Approved <==>
              (|log| == |manual| && forall i | 0 <= i < |log| :: log[i].verdict == Approved)) &&
            (log != [] && log[|log| - 1].verdict != Approved ==> inst.status == log[|log| - 1].verdict)
  {
    RunKeepsInv(s, es);
    RunLog(s, es, sub);
    var inst, log := Run(s, es).instances[sub], Log(s, es, sub);
    assert SubmissionOk(Run(s, es), sub);
    var defs, f := Defs(inst.steps), Frontier(inst.steps);
    ManualStepsPrefix(defs, f, |defs|);
    assert |StepsOf(log)| == |log|;
    if f < |defs| {
      assert defs[f].mode.Manual?;
      assert ManualSteps(defs, f) + [f] <= ManualSteps(defs, |defs|);
      if Refusal(inst.steps).Some? {
        assert log[|log| - 1].verdict == inst.steps[f].status;
      }
    }
  }
}
