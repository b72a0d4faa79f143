/** What each review request does to the tables, in terms of the tables alone: exactly when it
    is accepted, and every row it leaves behind. */
module ReviewOutcomes {
  import opened Common
  import opened Text
  import opened ReviewModel
  import opened ReviewInvariants
  import opened ReviewLog
  import opened ReviewProgress

  // ----- Submitting -----

  /** A submission is accepted exactly when the version exists, none of its submissions is
      pending, in review or approved, and the active workflow of the user's organization with
      the least id has steps. A refused or published submission does not stand in the way. */
  lemma {:induction false} SubmissionAcceptedIff(s: State, user: int, version: int)
    requires Inv(s)
    ensures Submit(s, user, version) != s <==>
              version in s.versions && user in s.userOrg &&
              (forall id | id in s.submissions && s.submissions[id].version == version ::
                 s.submissions[id].status != Pending && s.submissions[id].status != InReview &&
                 s.submissions[id].status != Approved) &&
              exists w | w in s.workflows ::
                s.workflows[w].org == s.userOrg[user] && s.workflows[w].active && s.workflows[w].steps != [] &&
                forall x | x in s.workflows && s.workflows[x].org == s.userOrg[user] && s.workflows[x].active :: w <= x
  {
    if exists w :: CanSubmit(s, user, version, w) {
      var w :| CanSubmit(s, user, version, w)
        && Submit(s, user, version) == Settle(Opened(s, user, version, s.workflows[w].steps), s.nextSubmission);
      assert Submit(s, user, version).nextSubmission == s.nextSubmission + 1;
      assert IsChosenWorkflow(s, s.userOrg[user], w);
    } else if version in s.versions && user in s.userOrg && !HasOpenSubmission(s, version) {
      forall w | w in s.workflows && s.workflows[w].steps != [] ensures !IsChosenWorkflow(s, s.userOrg[user], w) {
        assert !CanSubmit(s, user, version, w);
      }
    }
  }

  /** The first k steps run by themselves and the next one, if any, waits for a person. */
  predicate LeadingAutos(defs: seq<StepDef>, k: nat) {
    k <= |defs| && (forall j | 0 <= j < k :: defs[j].mode == Auto) && (k < |defs| ==> defs[k].mode == Manual)
  }

  /** The step list of a new instance: the leading auto steps are approved, the next step is
      open, the others are pending; nobody has decided anything; ids are handed out in order. */
  predicate FreshSteps(steps: seq<Step>, defs: seq<StepDef>, firstId: int, k: nat) {
    |steps| == |defs| &&
    forall j | 0 <= j < |defs| ::
      steps[j] == Step(firstId + j, defs[j], if j < k then Approved else if j == k then InProgress else Pending, None)
  }

  lemma {:induction false} SettledSnapshot(defs: seq<StepDef>, firstId: int) returns (k: nat)
    ensures LeadingAutos(defs, k) && FreshSteps(Settled(Snapshot(defs, firstId)), defs, firstId, k)
    ensures Unfinished(Settled(Snapshot(defs, firstId))) <==> k < |defs|
  {
    var steps := Snapshot(defs, firstId);
    k := AutoEnd(defs, 0);
    if defs != [] {
      FrontierIs(steps, 0);
      SettledShape(steps);
    }
  }

  /** An accepted submission adds one submission and one instance under a new id, from the
      chosen workflow; everything else stays. */
  lemma {:induction false} SubmissionOutcome(s: State, user: int, version: int) returns (w: int, k: nat)
    requires Inv(s) && Submit(s, user, version) != s
    ensures version in s.versions && user in s.userOrg && w in s.workflows
    ensures s.workflows[w].org == s.userOrg[user] && s.workflows[w].active
    ensures forall x | x in s.workflows && s.workflows[x].org == s.userOrg[user] && s.workflows[x].active :: w <= x
    ensures LeadingAutos(s.workflows[w].steps, k)
    ensures var t, id, defs := Submit(s, user, version), s.nextSubmission, s.workflows[w].steps;
            var done := k == |defs|;
            id !in s.submissions && id !in s.instances && id in t.instances &&
            t.submissions == s.submissions[
              id := Submission(s.versions[version].skill, version, user, if done then Approved else InReview)] &&
            t.versions == s.versions[
              version := s.versions[version].(status := if done then Approved else InReview)] &&
            t.instances == s.instances[id := t.instances[id]] &&
            t.instances[id].version == version &&
            t.instances[id].status == (if done then Approved else InProgress) &&
            FreshSteps(t.instances[id].steps, defs, s.nextStep, k) &&
            t == s.(submissions := t.submissions, versions := t.versions, instances := t.instances,
                    nextSubmission := id + 1, nextStep := s.nextStep + |defs|)
  {
    w :| CanSubmit(s, user, version, w)
      && Submit(s, user, version) == Settle(Opened(s, user, version, s.workflows[w].steps), s.nextSubmission);
    k := SettledSnapshot(s.workflows[w].steps, s.nextStep);
    forall id | id in s.submissions ensures id < s.nextSubmission {
      assert SubmissionOk(s, id);
    }
    OpenedThenSettled(s, user, version, s.workflows[w].steps, k);
  }

  lemma {:induction false} OpenedThenSettled(s: State, user: int, version: int, defs: seq<StepDef>, k: nat)
    requires version in s.versions && LeadingAutos(defs, k)
    requires FreshSteps(Settled(Snapshot(defs, s.nextStep)), defs, s.nextStep, k)
    requires Unfinished(Settled(Snapshot(defs, s.nextStep))) <==> k < |defs|
    ensures var t, id := Settle(Opened(s, user, version, defs), s.nextSubmission), s.nextSubmission;
            var done := k == |defs|;
            id in t.instances &&
            t.submissions == s.submissions[
              id := Submission(s.versions[version].skill, version, user, if done then Approved else InReview)] &&
            t.versions == s.versions[
              version := s.versions[version].(status := if done then Approved else InReview)] &&
            t.instances == s.instances[id := t.instances[id]] &&
            t.instances[id].version == version &&
            t.instances[id].status == (if done then Approved else InProgress) &&
            t.instances[id].steps == Settled(Snapshot(defs, s.nextStep)) &&
            t == s.(submissions := t.submissions, versions := t.versions, instances := t.instances,
                    nextSubmission := id + 1, nextStep := s.nextStep + |defs|)
  {
    var start, id, steps := Opened(s, user, version, defs), s.nextSubmission, Settled(Snapshot(defs, s.nextStep));
    var settled := WithSteps(start, id, steps);
    assert settled.instances == s.instances[id := Instance(version, InProgress, steps)];
    assert Settle(start, id) == if Unfinished(steps) then settled else Complete(settled, id);
  }

  // ----- Deciding -----

  /** A decision is accepted exactly when it is one of the three verdicts, the instance is in
      progress, and the step it names is an open manual step of that instance whose role, if
      it asks for one, the user holds. */
  lemma {:induction false} DecisionAcceptedIff(s: State, user: int, sub: int, stepId: int, verdict: Status)
    requires Inv(s) && Numbered(s)
    ensures Decide(s, user, sub, stepId, verdict) != s <==>
              (verdict == Approved || verdict == Rejected || verdict == ChangesRequested) &&
              sub in s.instances && s.instances[sub].status == InProgress &&
              exists k | 0 <= k < |s.instances[sub].steps| ::
                var step := s.instances[sub].steps[k];
                step.id == stepId && step.status == InProgress && step.def.mode == Manual &&
                (step.def.role.Some? ==> (user, step.def.role.value) in s.held)
  {
    if Accepts(s, user, sub, stepId, verdict) {
      AcceptedAtFrontier(s, user, sub, stepId, verdict);
      AcceptedChanges(s, user, sub, stepId, verdict);
    } else if sub in s.instances {
      var steps := s.instances[sub].steps;
      if k :| 0 <= k < |steps| && steps[k].id == stepId {
        assert Ids(steps)[k] == stepId && Ids(steps)[Find(steps, stepId)] == stepId;
        assert k == Find(steps, stepId);
      }
    }
  }

  lemma {:induction false} AcceptedChanges(s: State, user: int, sub: int, stepId: int, verdict: Status)
    requires Inv(s) && Accepts(s, user, sub, stepId, verdict)
    ensures Decide(s, user, sub, stepId, verdict) != s
  {
    AcceptedAtFrontier(s, user, sub, stepId, verdict);
    DecideEffect(s, user, sub, stepId, verdict);
    var steps := s.instances[sub].steps;
    var f := Frontier(steps);
    if verdict == Approved {
      FrontierIs(Mark(steps, user, verdict), f + 1);
    }
    assert Decide(s, user, sub, stepId, verdict).instances[sub].steps[f].status == verdict;
  }

  /** The steps after a verdict on step f: it carries the verdict and who gave it; an approval
      also approves the auto steps up to k and opens step k; nothing else changes. */
  predicate DecidedSteps(steps: seq<Step>, after: seq<Step>, f: nat, k: nat, user: int, verdict: Status) {
    f < k <= |steps| == |after| &&
    (forall j | f < j < k :: steps[j].def.mode == Auto) &&
    (verdict == Approved && k < |steps| ==> steps[k].def.mode == Manual) &&
    (verdict != Approved ==> k == f + 1) &&
    forall j | 0 <= j < |steps| ::
      after[j] == if j == f then steps[j].(status := verdict, reviewer := Some(user))
                  else if f < j < k then steps[j].(status := Approved)
                  else if j == k && verdict == Approved then steps[j].(status := InProgress)
                  else steps[j]
  }

  lemma {:induction false} VerdictOnSteps(steps: seq<Step>, user: int, verdict: Status) returns (k: nat)
    requires InstanceOk(Instance(0, InProgress, steps)) && IsVerdict(verdict) && Frontier(steps) < |steps|
    ensures var marked := Mark(steps, user, verdict);
            var after := if verdict == Approved then Settled(marked) else marked;
            DecidedSteps(steps, after, Frontier(steps), k, user, verdict) &&
            (verdict == Approved ==> (Unfinished(after) <==> k < |steps|))
  {
    var f, marked := Frontier(steps), Mark(steps, user, verdict);
    if verdict == Approved {
      FrontierIs(marked, f + 1);
      SettledShape(marked);
      k := SettledEnd(marked);
      forall j | f < j < k ensures steps[j].def.mode == Auto {
        assert Defs(marked)[j] == steps[j].def;
      }
      assert k < |steps| ==> Defs(marked)[k] == steps[k].def;
    } else {
      k := f + 1;
    }
  }

  lemma {:induction false} RefusalOutcome(s: State, user: int, sub: int, stepId: int, verdict: Status)
    requires Inv(s) && Accepts(s, user, sub, stepId, verdict) && verdict != Approved
    ensures sub in s.submissions && s.submissions[sub].status == InReview
    ensures var inst, t := s.instances[sub], Decide(s, user, sub, stepId, verdict);
            Frontier(inst.steps) < |inst.steps| &&
            t == s.(instances := s.instances[sub := inst.(steps := Mark(inst.steps, user, verdict), status := verdict)],
                    submissions := s.submissions[sub := s.submissions[sub].(status := verdict)])
  {
    AcceptedAtFrontier(s, user, sub, stepId, verdict);
    assert SubmissionOk(s, sub);
  }

  lemma {:induction false} ApprovalOutcome(s: State, user: int, sub: int, stepId: int)
    requires Inv(s) && Accepts(s, user, sub, stepId, Approved)
    ensures sub in s.submissions && s.submissions[sub].status == InReview
    ensures s.instances[sub].version in s.versions && Frontier(s.instances[sub].steps) < |s.instances[sub].steps|
    ensures var inst, t := s.instances[sub], Decide(s, user, sub, stepId, Approved);
            var after := Settled(Mark(inst.steps, user, Approved));
            t == if Unfinished(after) then s.(instances := s.instances[sub := inst.(steps := after)])
                 else s.(instances := s.instances[sub := inst.(steps := after, status := Approved)],
                         submissions := s.submissions[sub := s.submissions[sub].(status := Approved)],
                         versions := s.versions[inst.version := s.versions[inst.version].(status := Approved)])
  {
    AcceptedAtFrontier(s, user, sub, stepId, Approved);
    assert SubmissionOk(s, sub);
    assert Decide(s, user, sub, stepId, Approved) == Settle(Marked(s, user, sub, Approved), sub);
  }

  /** What an accepted decision leaves behind: the decided steps; after a refusal the verdict on
      instance and submission and an untouched version; after the last approval all three
      approved; otherwise only the steps change. */
  lemma {:induction false} DecisionOutcome(s: State, user: int, sub: int, stepId: int, verdict: Status)
    returns (f: nat, k: nat)
    requires Inv(s) && Decide(s, user, sub, stepId, verdict) != s
    ensures sub in s.submissions && sub in s.instances && s.instances[sub].version in s.versions
    ensures f == Frontier(s.instances[sub].steps) < |s.instances[sub].steps|
    ensures s.instances[sub].steps[f].id == stepId
    ensures var inst, t := s.instances[sub], Decide(s, user, sub, stepId, verdict);
            sub in t.instances && DecidedSteps(inst.steps, t.instances[sub].steps, f, k, user, verdict) &&
            var after := inst.(steps := t.instances[sub].steps);
            if verdict != Approved then
              t == s.(instances := s.instances[sub := after.(status := verdict)],
                      submissions := s.submissions[sub := s.submissions[sub].(status := verdict)])
            else if k < |inst.steps| then t == s.(instances := s.instances[sub := after])
            else
              t == s.(instances := s.instances[sub := after.(status := Approved)],
                      submissions := s.submissions[sub := s.submissions[sub].(status := Approved)],
                      versions := s.versions[inst.version := s.versions[inst.version].(status := Approved)])
  {
    assert Accepts(s, user, sub, stepId, verdict);
    AcceptedAtFrontier(s, user, sub, stepId, verdict);
    assert SubmissionOk(s, sub);
    var steps := s.instances[sub].steps;
    f := Frontier(steps);
    k := VerdictOnSteps(steps, user, verdict);
    if verdict == Approved {
      ApprovalOutcome(s, user, sub, stepId);
    } else {
      RefusalOutcome(s, user, sub, stepId, verdict);
    }
  }

  /** After a refusal nothing stands in the way of another submission of the version, and it
      opens a fresh instance. */
  lemma {:induction false} ResubmissionOpensFreshInstance(
      s: State, es: seq<Event>, sub: int, reviewer: int, stepId: int, verdict: Status, user: int)
    requires Initial(s) && (verdict == Rejected || verdict == ChangesRequested)
    requires Decide(Run(s, es), reviewer, sub, stepId, verdict) != Run(s, es)
    requires var t := Run(s, es);
             user in t.userOrg && exists w | w in t.workflows ::
               t.workflows[w].org == t.userOrg[user] && t.workflows[w].active && t.workflows[w].steps != [] &&
               forall x | x in t.workflows && t.workflows[x].org == t.userOrg[user] && t.workflows[x].active :: w <= x
    ensures var refused := Decide(Run(s, es), reviewer, sub, stepId, verdict);
            sub in refused.submissions && refused.submissions[sub].status == verdict &&
            var again := Submit(refused, user, refused.submissions[sub].version);
            again != refused && refused.nextSubmission !in refused.instances &&
            refused.nextSubmission in again.instances &&
            again.instances[refused.nextSubmission].version == refused.submissions[sub].version
  {
    var t := Run(s, es);
    RunKeepsInv(s, es);
    var f, k := DecisionOutcome(t, reviewer, sub, stepId, verdict);
    DecideKeepsInv(t, reviewer, sub, stepId, verdict);
    var refused := Decide(t, reviewer, sub, stepId, verdict);
    var version := refused.submissions[sub].version;
    NothingOpenAfterRefusal(t, reviewer, sub, stepId, verdict);
    SubmissionAcceptedIff(refused, user, version);
    var w, n := SubmissionOutcome(refused, user, version);
  }

  lemma {:induction false} NothingOpenAfterRefusal(t: State, reviewer: int, sub: int, stepId: int, verdict: Status)
    requires Inv(t) && Accepts(t, reviewer, sub, stepId, verdict) && verdict != Approved
    ensures var u := Decide(t, reviewer, sub, stepId, verdict);
            sub in u.submissions && u.submissions[sub].version in u.versions &&
            forall id | id in u.submissions && u.submissions[id].version == u.submissions[sub].version ::
              u.submissions[id].status != Pending && u.submissions[id].status != InReview &&
              u.submissions[id].status != Approved
  {
    RefusalOutcome(t, reviewer, sub, stepId, verdict);
    assert SubmissionOk(t, sub) && Open(t, sub);
    assert forall id | Open(t, id) && t.submissions[id].version == t.submissions[sub].version :: id == sub;
    assert forall id | id in t.submissions && OpenStatus(t.submissions[id].status) :: Open(t, id);
  }

  // ----- Who decided what -----

  /** Every decision taken is on record: its step carries the verdict and the user. */
  predicate OnRecord(steps: seq<Step>, log: seq<Entry>) {
    forall i | 0 <= i < |log| ::
      log[i].step < |steps| && steps[log[i].step].status == log[i].verdict &&
      steps[log[i].step].reviewer == Some(log[i].user)
  }

  lemma {:induction false} DecisionGoesOnRecord(
      t: State, user: int, sub: int, stepId: int, verdict: Status, log: seq<Entry>)
    requires Inv(t) && Accepts(t, user, sub, stepId, verdict) && Logged(t, sub, log)
    requires OnRecord(t.instances[sub].steps, log)
    ensures var u := Decide(t, user, sub, stepId, verdict);
            sub in u.instances &&
            OnRecord(u.instances[sub].steps, log + Accepted(t, DecideStep(user, sub, stepId, verdict), sub))
  {
    AcceptedChanges(t, user, sub, stepId, verdict);
    var f, k := DecisionOutcome(t, user, sub, stepId, verdict);
    var steps := t.instances[sub].steps;
    AcceptedEntry(t, user, sub, stepId, verdict);
    AcceptedAtFrontier(t, user, sub, stepId, verdict);
    assert SubmissionOk(t, sub) && Refusal(steps) == None;
    forall i | 0 <= i < |log| ensures log[i].step < Frontier(steps) {
      assert StepsOf(log)[i] == ManualSteps(Defs(steps), Frontier(steps))[i];
    }
    var after := Decide(t, user, sub, stepId, verdict).instances[sub].steps;
    RecordStays(steps, after, f, k, user, verdict, log);
  }

  lemma {:induction false} RecordStays(
      steps: seq<Step>, after: seq<Step>, f: nat, k: nat, user: int, verdict: Status, log: seq<Entry>)
    requires DecidedSteps(steps, after, f, k, user, verdict) && OnRecord(steps, log)
    requires forall i | 0 <= i < |log| :: log[i].step < f
    ensures OnRecord(after, log)
  {
  }

  lemma {:induction false} StepKeepsRecord(t: State, e: Event, sub: int, log: seq<Entry>)
    requires Inv(t) && Logged(t, sub, log) && (sub in t.instances ==> OnRecord(t.instances[sub].steps, log))
    ensures sub in Next(t, e).instances ==> OnRecord(Next(t, e).instances[sub].steps, log + Accepted(t, e, sub))
  {
    assert log + [] == log;
    match e
    case DecideStep(user, id, step, verdict) =>
      if Accepts(t, user, id, step, verdict) {
        DecideEffect(t, user, id, step, verdict);
        if id == sub {
          DecisionGoesOnRecord(t, user, sub, step, verdict, log);
        }
      }
    case SubmitVersion(user, version) =>
      if Submit(t, user, version) != t {
        var w := SubmitEffect(t, user, version);
      }
    case _ =>
      assert Next(t, e).instances == t.instances;
  }

  /** Over every run, each decision an instance has accepted is found on its step. */
  lemma {:induction false} DecisionsAreOnRecord(s: State, es: seq<Event>, sub: int)
    requires Initial(s) && sub in Run(s, es).instances
    ensures OnRecord(Run(s, es).instances[sub].steps, Log(s, es, sub))
  {
    if es != [] {
      var most := es[..|es| - 1];
      var t := Run(s, most);
      RunKeepsInv(s, most);
      RunLog(s, most, sub);
      if sub in t.instances {
        DecisionsAreOnRecord(s, most, sub);
      }
      StepKeepsRecord(t, es[|es| - 1], sub, Log(s, most, sub));
    }
  }

  // ----- Publishing -----

  /** Publishing a version: an approved one becomes published and immutable, nothing else
      changes; any other request changes nothing. */
  lemma {:induction false} VersionPublished(s: State, v: int)
    ensures var t := PublishVersion(s, v);
            if v in s.versions && s.versions[v].status == Approved
            then t == s.(versions := s.versions[v := Version(s.versions[v].skill, Published, true)])
            else t == s
  {
  }

  /** Publishing a submission of a reachable state: an approved one is published, and its
      version becomes published and immutable, whatever it was. */
  lemma {:induction false} SubmissionPublished(s: State, es: seq<Event>, sub: int)
    requires Initial(s)
    ensures var t, u := Run(s, es), PublishSubmission(Run(s, es), sub);
            if sub in t.submissions && t.submissions[sub].status == Approved then
              var v := t.submissions[sub].version;
              v in t.versions &&
              u == t.(submissions := t.submissions[sub := t.submissions[sub].(status := Published)],
                      versions := t.versions[v := Version(t.versions[v].skill, Published, true)])
            else u == t
  {
    RunKeepsInv(s, es);
    if sub in Run(s, es).submissions {
      assert SubmissionOk(Run(s, es), sub);
    }
  }

  // ----- Editing workflows -----

  /** What a request must be like to be saved. */
  predicate SoundRequest(s: State, org: int, id: int, name: string, status: string, reqs: seq<StepRequest>) {
    Trim(name) != "" && |reqs| > 0 && (status == "" || status == "active" || status == "disabled") &&
    (forall i | 0 <= i < |reqs| ::
       Trim(reqs[i].name) != "" && reqs[i].mode.Some? &&
       (reqs[i].role.Some? ==> reqs[i].role.value in s.roles) &&
       (reqs[i].mode == Some(Manual) ==> reqs[i].role.Some?)) &&
    (id == 0 || (id in s.workflows && s.workflows[id].org == org)) &&
    forall w | w in s.workflows && w != id && s.workflows[w].org == org :: s.workflows[w].name != Trim(name)
  }

  /** The stored steps are the requested ones, in order. */
  predicate AsRequested(defs: seq<StepDef>, reqs: seq<StepRequest>) {
    |defs| == |reqs| &&
    forall i | 0 <= i < |reqs| ::
      reqs[i].mode.Some? &&
      defs[i] == StepDef(Trim(reqs[i].name), reqs[i].role, reqs[i].mode.value, reqs[i].required)
  }

  /** A sound request stores exactly its steps, active unless it asks to be disabled, under its
      id or a new one, and touches no other workflow; any other request changes nothing. */
  lemma {:induction false} WorkflowSaved(
      s: State, org: int, id: int, name: string, status: string, reqs: seq<StepRequest>)
    ensures var t := SaveWorkflow(s, org, id, name, status, reqs);
            if SoundRequest(s, org, id, name, status, reqs) then
              var w := if id == 0 then s.nextWorkflow else id;
              w in t.workflows && AsRequested(t.workflows[w].steps, reqs) &&
              t.workflows == s.workflows[
                w := Workflow(org, Trim(name), status != "disabled", t.workflows[w].steps)] &&
              t == s.(workflows := t.workflows, nextWorkflow := s.nextWorkflow + if id == 0 then 1 else 0)
            else t == s
  {
    SoundnessIff(s, org, id, name, status, reqs);
    if CanSaveWorkflow(s, org, id, name, status, reqs) {
      assert AsRequested(Stored(reqs), reqs);
    }
  }

  lemma {:induction false} SoundnessIff(
      s: State, org: int, id: int, name: string, status: string, reqs: seq<StepRequest>)
    ensures SoundRequest(s, org, id, name, status, reqs) <==> CanSaveWorkflow(s, org, id, name, status, reqs)
  {
    if SoundRequest(s, org, id, name, status, reqs) {
      forall r | r in reqs ensures ValidStep(r, s.roles) {
        var i :| 0 <= i < |reqs| && reqs[i] == r;
      }
    }
    if CanSaveWorkflow(s, org, id, name, status, reqs) {
      forall i | 0 <= i < |reqs| ensures ValidStep(reqs[i], s.roles) {
        assert reqs[i] in reqs;
      }
    }
  }
}
