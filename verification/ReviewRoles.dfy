/** Validated workflows name a reviewer role on every manual step, so every decision on an
    instance made from them was taken by a holder of its role. */
module ReviewRoles {
  import opened Text
  import opened ReviewModel
  import opened ReviewInvariants
  import opened ReviewLog

  /** What the workflow editor accepts, as stored. */
  predicate WellDefined(defs: seq<StepDef>) {
    forall d | d in defs :: d.name != "" && Trimmed(d.name) && (d.mode.Manual? ==> d.role.Some?)
  }

  ghost predicate Guarded(s: State) {
    (forall w | w in s.workflows :: WellDefined(s.workflows[w].steps)) &&
    forall sub | sub in s.instances :: WellDefined(Defs(s.instances[sub].steps))
  }

  lemma {:induction false} StoredIsWellDefined(reqs: seq<StepRequest>, roles: set<int>)
    requires forall r | r in reqs :: r.mode.Some? && ValidStep(r, roles)
    ensures WellDefined(Stored(reqs))
  {
    var defs := Stored(reqs);
    forall d | d in defs ensures d.name != "" && Trimmed(d.name) && (d.mode.Manual? ==> d.role.Some?) {
      var i :| 0 <= i < |defs| && defs[i] == d;
      assert reqs[i] in reqs;
      TrimTrims(reqs[i].name);
    }
  }

  lemma {:induction false} SavingKeepsGuarded(
      s: State, org: int, id: int, name: string, status: string, reqs: seq<StepRequest>)
    requires Guarded(s)
    ensures Guarded(SaveWorkflow(s, org, id, name, status, reqs))
  {
    if CanSaveWorkflow(s, org, id, name, status, reqs) {
      StoredIsWellDefined(reqs, s.roles);
    }
  }

  lemma {:induction false} InstanceStaysWellDefined(s: State, e: Event, sub: int)
    requires Inv(s) && Guarded(s) && sub in Next(s, e).instances
    ensures WellDefined(Defs(Next(s, e).instances[sub].steps))
  {
    if sub in s.instances {
      NextKeepsSnapshot(s, e, sub);
    } else {
      match e
      case SubmitVersion(user, version) =>
        var w := SubmitEffect(s, user, version);
        SettledKeepsDefs(Snapshot(s.workflows[w].steps, s.nextStep));
      case DecideStep(user, id, stepId, verdict) =>
        DecideEffect(s, user, id, stepId, verdict);
      case _ =>
    }
  }

  lemma {:induction false} WorkflowsChangeOnlyBySaving(s: State, e: Event)
    requires !e.EditWorkflow?
    ensures Next(s, e).workflows == s.workflows
  {
    match e
    case SubmitVersion(user, version) =>
    case DecideStep(user, sub, stepId, verdict) =>
    case _ =>
  }

  lemma {:induction false} RunKeepsGuarded(s: State, es: seq<Event>)
    requires Initial(s) && Guarded(s)
    ensures Guarded(Run(s, es))
  {
    if es != [] {
      var t, e := Run(s, es[..|es| - 1]), es[|es| - 1];
      RunKeepsGuarded(s, es[..|es| - 1]);
      RunKeepsInv(s, es[..|es| - 1]);
      match e
      case EditWorkflow(org, id, name, status, reqs) =>
        SavingKeepsGuarded(t, org, id, name, status, reqs);
      case _ =>
        WorkflowsChangeOnlyBySaving(t, e);
        forall sub | sub in Next(t, e).instances ensures WellDefined(Defs(Next(t, e).instances[sub].steps)) {
          InstanceStaysWellDefined(t, e, sub);
        }
    }
  }

  /** From validated workflows on, every decision an instance ever accepts is taken by a user
      who at that moment holds the role its step requires. */
  lemma {:induction false} EveryDecisionIsByARoleHolder(s: State, es: seq<Event>, sub: int, i: nat)
    requires Initial(s) && Guarded(s) && sub in Run(s, es).instances && i < |Log(s, es, sub)|
    ensures var defs, entry := Defs(Run(s, es).instances[sub].steps), Log(s, es, sub)[i];
            entry.step < |defs| && defs[entry.step].role.Some? && defs[entry.step].role.value in entry.roles
  {
    RunKeepsGuarded(s, es);
    DecisionsFollowTheManualSteps(s, es, sub);
    var defs, log := Defs(Run(s, es).instances[sub].steps), Log(s, es, sub);
    assert StepsOf(log)[i] == ManualSteps(defs, |defs|)[i];
    assert defs[log[i].step] in defs;
  }
}
