/** What every run of the review engine keeps. */
module ReviewInvariants {
  import opened Common
  import opened ReviewModel

  // ----- The invariant -----

  /** approved*, then at most one step that is under way or refused, then pending*; the
      instance status says which. */
  predicate InstanceOk(inst: Instance) {
    var steps, f := inst.steps, Frontier(inst.steps);
    steps != [] &&
    (f == |steps| ==> inst.status == Approved) &&
    (f < |steps| ==>
       steps[f].status in {InProgress, Rejected, ChangesRequested} &&
       steps[f].def.mode.Manual? && inst.status == steps[f].status &&
       forall j | f < j < |steps| :: steps[j].status == Pending)
  }

  predicate Corresponds(sub: Status, inst: Status) {
    match sub
    case InReview => inst == InProgress
    case Approved => inst == Approved
    case Published => inst == Approved
    case Rejected => inst == Rejected
    case ChangesRequested => inst == ChangesRequested
    case _ => false
  }

  /** What the tables say about one submission. */
  predicate SubmissionOk(s: State, id: int) {
    id in s.submissions && id in s.instances && id < s.nextSubmission &&
    var sub, inst := s.submissions[id], s.instances[id];
    InstanceOk(inst) && Corresponds(sub.status, inst.status) &&
    inst.version == sub.version && sub.version in s.versions &&
    (sub.status == InReview ==> s.versions[sub.version].status == InReview) &&
    (sub.status == Approved ==> s.versions[sub.version].status in {Approved, Published})
  }

  predicate Open(s: State, id: int) {
    id in s.submissions && OpenStatus(s.submissions[id].status)
  }

  ghost predicate OneOpenPerVersion(s: State) {
    forall a, b | Open(s, a) && Open(s, b) && s.submissions[a].version == s.submissions[b].version :: a == b
  }

  /** An approved version still has the approved submission that made it so. */
  ghost predicate VersionOk(s: State, v: int) {
    v in s.versions && s.versions[v].status == Approved ==> exists id :: Vouches(s, id, v)
  }

  predicate Vouches(s: State, id: int, v: int) {
    id in s.submissions && s.submissions[id].version == v && s.submissions[id].status == Approved
  }

  ghost predicate Inv(s: State) {
    && s.submissions.Keys == s.instances.Keys
    && (forall id | id in s.submissions :: SubmissionOk(s, id))
    && OneOpenPerVersion(s)
    && forall v | v in s.versions :: VersionOk(s, v)
  }

  // ----- Settling -----

  /** Only the step at the frontier may be under way; everything behind it is pending. */
  predicate Settleable(steps: seq<Step>) {
    var f := Frontier(steps);
    (f < |steps| ==> steps[f].status == Pending || steps[f].status == InProgress) &&
    forall j | f < j < |steps| :: steps[j].status == Pending
  }

  lemma {:induction false} SettledShape(steps: seq<Step>)
    requires Settleable(steps)
    ensures var t, e := Settled(steps), SettledEnd(steps);
            Frontier(t) == e && Defs(t) == Defs(steps) &&
            (e < |t| ==> t[e].status == InProgress && t[e].def.mode.Manual?) &&
            (forall j | e < j < |t| :: t[j].status == Pending) &&
            (Unfinished(t) <==> e < |t|)
  {
    var t, e := Settled(steps), SettledEnd(steps);
    assert forall j | 0 <= j < e :: t[j].status == Approved;
    FrontierIs(t, e);
    assert Defs(t) == Defs(steps);
    if e < |t| {
      assert t[e].def == Defs(steps)[e];
    }
  }

  /** Completing a second time changes nothing: the advance loop ends in a completion call
      of its own after a last-step approval has already completed the instance. */
  lemma {:induction false} SecondFinishIsNoOp(s: State, sub: int)
    requires sub in s.instances
    ensures Finish(Finish(s, sub), sub) == Finish(s, sub)
    ensures Finish(Settle(s, sub), sub) == Settle(s, sub)
  {
    FinishTwice(s, sub);
    FinishTwice(WithSteps(s, sub, Settled(s.instances[sub].steps)), sub);
  }

  lemma {:induction false} FinishTwice(s: State, sub: int)
    requires sub in s.instances
    ensures Finish(Finish(s, sub), sub) == Finish(s, sub)
  {
    var t := Finish(s, sub);
    assert Finish(t, sub).instances == t.instances;
    assert Finish(t, sub).submissions == t.submissions;
    assert Finish(t, sub).versions == t.versions;
  }

  /** One submission under review takes a settled instance; the rest of the tables is as
      the invariant wants it. */
  ghost predicate InvExcept(s: State, sub: int) {
    && s.submissions.Keys == s.instances.Keys && sub in s.submissions && sub < s.nextSubmission
    && s.submissions[sub].status == InReview && s.instances[sub].status == InProgress
    && s.instances[sub].version == s.submissions[sub].version
    && s.submissions[sub].version in s.versions
    && s.versions[s.submissions[sub].version].status == InReview
    && s.instances[sub].steps != [] && Settleable(s.instances[sub].steps)
    && (forall id | id in s.submissions && id != sub :: SubmissionOk(s, id))
    && OneOpenPerVersion(s)
    && forall v | v in s.versions :: VersionOk(s, v)
  }

  lemma {:induction false} SettleKeepsInv(s: State, sub: int)
    requires InvExcept(s, sub)
    ensures Inv(Settle(s, sub))
  {
    var steps, v := s.instances[sub].steps, s.submissions[sub].version;
    SettledShape(steps);
    var t := Settle(s, sub);
    assert SubmissionOk(t, sub);
    forall id | id in t.submissions && id != sub ensures SubmissionOk(t, id) {
      assert SubmissionOk(s, id);
      assert Open(s, sub);
      if Open(s, id) {
        assert s.submissions[id].version != v;
      }
    }
    forall a, b | Open(t, a) && Open(t, b) && t.submissions[a].version == t.submissions[b].version
      ensures a == b
    {
      assert Open(s, a) && Open(s, b);
    }
    forall w | w in t.versions ensures VersionOk(t, w) {
      assert VersionOk(s, w);
      if w == v {
        assert t.versions[w].status == Approved ==> Vouches(t, sub, w);
      } else if t.versions[w].status == Approved {
        var id :| Vouches(s, id, w);
        assert Vouches(t, id, w);
      }
    }
  }

  // ----- One step at a time -----

  /** A vouching submission is lost only together with the approval of its version. */
  lemma {:induction false} VersionStaysOk(s: State, t: State, v: int)
    requires VersionOk(s, v) && v in t.versions
    requires t.versions[v].status == Approved ==> v in s.versions && s.versions[v].status == Approved
    requires forall id | Vouches(s, id, v) && t.versions[v].status == Approved :: Vouches(t, id, v)
    ensures VersionOk(t, v)
  {
    if t.versions[v].status == Approved {
      var id :| Vouches(s, id, v);
      assert Vouches(t, id, v);
    }
  }

  lemma {:induction false} SubmitKeepsInv(s: State, user: int, version: int)
    requires Inv(s)
    ensures Inv(Submit(s, user, version))
  {
    if exists w :: CanSubmit(s, user, version, w) {
      var w :| CanSubmit(s, user, version, w)
        && Submit(s, user, version) == Settle(Opened(s, user, version, s.workflows[w].steps), s.nextSubmission);
      OpenedIsSettleable(s, user, version, s.workflows[w].steps);
      SettleKeepsInv(Opened(s, user, version, s.workflows[w].steps), s.nextSubmission);
    }
  }

  lemma {:induction false} OpenedIsSettleable(s: State, user: int, version: int, defs: seq<StepDef>)
    requires Inv(s) && version in s.versions && !HasOpenSubmission(s, version) && defs != []
    ensures InvExcept(Opened(s, user, version, defs), s.nextSubmission)
  {
    var t, sub := Opened(s, user, version, defs), s.nextSubmission;
    forall id | id in s.submissions ensures id < sub {
      assert SubmissionOk(s, id);
    }
    FrontierIs(t.instances[sub].steps, 0);
    forall id | id in t.submissions && id != sub ensures SubmissionOk(t, id) {
      assert SubmissionOk(s, id);
    }
    forall a, b | Open(t, a) && Open(t, b) && t.submissions[a].version == t.submissions[b].version
      ensures a == b
    {
      assert a != sub ==> Open(s, a);
      assert b != sub ==> Open(s, b);
    }
    forall v | v in t.versions ensures VersionOk(t, v) {
      assert VersionOk(s, v);
      if t.versions[v].status == Approved {
        var id :| Vouches(s, id, v);
        assert Vouches(t, id, v);
      }
    }
  }

  /** An accepted decision is always about the step at the frontier. */
  lemma {:induction false} AcceptedAtFrontier(s: State, user: int, sub: int, stepId: int, verdict: Status)
    requires Inv(s) && Accepts(s, user, sub, stepId, verdict)
    ensures var steps := s.instances[sub].steps; Find(steps, stepId) == Frontier(steps) < |steps|
    ensures s.submissions[sub].status == InReview
  {
    assert SubmissionOk(s, sub);
  }

  /** The steps just after the one at the frontier is decided, before anything follows from it. */
  function Mark(steps: seq<Step>, user: int, verdict: Status): (marked: seq<Step>)
    requires Frontier(steps) < |steps|
    ensures |marked| == |steps|
    ensures forall j | 0 <= j < |steps| :: marked[j].def == steps[j].def
  {
    var f := Frontier(steps);
    steps[f := steps[f].(status := verdict, reviewer := Some(user))]
  }

  function Marked(s: State, user: int, sub: int, verdict: Status): State
    requires sub in s.instances && Frontier(s.instances[sub].steps) < |s.instances[sub].steps|
  {
    WithSteps(s, sub, Mark(s.instances[sub].steps, user, verdict))
  }

  lemma {:induction false} DecideKeepsInv(s: State, user: int, sub: int, stepId: int, verdict: Status)
    requires Inv(s)
    ensures Inv(Decide(s, user, sub, stepId, verdict))
  {
    if Accepts(s, user, sub, stepId, verdict) {
      AcceptedAtFrontier(s, user, sub, stepId, verdict);
      assert SubmissionOk(s, sub);
      var t := Marked(s, user, sub, verdict);
      if verdict == Approved {
        ApprovalIsSettleable(s, user, sub);
        SettleKeepsInv(t, sub);
      } else {
        RefusalKeepsInv(s, user, sub, stepId, verdict);
      }
    }
  }

  lemma {:induction false} ApprovalIsSettleable(s: State, user: int, sub: int)
    requires Inv(s) && sub in s.submissions && s.submissions[sub].status == InReview
    ensures Frontier(s.instances[sub].steps) < |s.instances[sub].steps|
    ensures InvExcept(Marked(s, user, sub, Approved), sub)
  {
    assert SubmissionOk(s, sub);
    var t := Marked(s, user, sub, Approved);
    var f := Frontier(s.instances[sub].steps);
    FrontierIs(t.instances[sub].steps, f + 1);
    forall id | id in t.submissions && id != sub ensures SubmissionOk(t, id) {
      assert SubmissionOk(s, id);
    }
    forall a, b | Open(t, a) && Open(t, b) && t.submissions[a].version == t.submissions[b].version
      ensures a == b
    {
      assert Open(s, a) && Open(s, b);
    }
    forall v | v in t.versions ensures VersionOk(t, v) {
      VersionStaysOk(s, t, v);
    }
  }

  lemma {:induction false} RefusalKeepsInv(s: State, user: int, sub: int, stepId: int, verdict: Status)
    requires Inv(s) && Accepts(s, user, sub, stepId, verdict) && verdict != Approved
    ensures Inv(Decide(s, user, sub, stepId, verdict))
  {
    AcceptedAtFrontier(s, user, sub, stepId, verdict);
    assert SubmissionOk(s, sub);
    var t := Decide(s, user, sub, stepId, verdict);
    FrontierIs(t.instances[sub].steps, Frontier(s.instances[sub].steps));
    assert SubmissionOk(t, sub);
    forall id | id in t.submissions && id != sub ensures SubmissionOk(t, id) {
      assert SubmissionOk(s, id);
    }
    forall a, b | Open(t, a) && Open(t, b) && t.submissions[a].version == t.submissions[b].version
      ensures a == b
    {
      assert Open(s, a) && Open(s, b);
    }
    forall v | v in t.versions ensures VersionOk(t, v) {
      VersionStaysOk(s, t, v);
    }
  }

  lemma {:induction false} PublishSubmissionKeepsInv(s: State, sub: int)
    requires Inv(s)
    ensures Inv(PublishSubmission(s, sub))
  {
    var t := PublishSubmission(s, sub);
    forall id | id in t.submissions ensures SubmissionOk(t, id) {
      assert SubmissionOk(s, id);
      if t != s && id != sub && Open(s, id) {
        assert Open(s, sub);
      }
    }
    forall a, b | Open(t, a) && Open(t, b) && t.submissions[a].version == t.submissions[b].version
      ensures a == b
    {
      assert Open(s, a) && Open(s, b);
    }
    forall w | w in t.versions ensures VersionOk(t, w) {
      if t != s {
        assert SubmissionOk(s, sub);
        VersionStaysOk(s, t, w);
      }
    }
  }

  lemma {:induction false} PublishVersionKeepsInv(s: State, v: int)
    requires Inv(s)
    ensures Inv(PublishVersion(s, v))
  {
    var t := PublishVersion(s, v);
    forall id | id in t.submissions ensures SubmissionOk(t, id) {
      assert SubmissionOk(s, id);
    }
    forall w | w in t.versions ensures VersionOk(t, w) {
      VersionStaysOk(s, t, w);
    }
    assert forall a :: Open(t, a) == Open(s, a);
  }

  /** Steps that leave submissions and instances alone and touch no existing version. */
  lemma {:induction false} ElsewhereKeepsInv(s: State, t: State)
    requires Inv(s)
    requires t.submissions == s.submissions && t.instances == s.instances
    requires t.nextSubmission == s.nextSubmission
    requires forall v | v in s.versions :: v in t.versions && t.versions[v] == s.versions[v]
    requires forall v | v in t.versions && v !in s.versions :: t.versions[v].status == Draft
    ensures Inv(t)
  {
    forall id | id in t.submissions ensures SubmissionOk(t, id) {
      assert SubmissionOk(s, id);
    }
    assert forall a :: Open(t, a) == Open(s, a);
    forall v | v in t.versions ensures VersionOk(t, v) {
      if v in s.versions {
        VersionStaysOk(s, t, v);
      }
    }
  }

  lemma {:induction false} NextKeepsInv(s: State, e: Event)
    requires Inv(s)
    ensures Inv(Next(s, e))
  {
    match e
    case SubmitVersion(u, v) => SubmitKeepsInv(s, u, v);
    case DecideStep(u, sub, step, d) => DecideKeepsInv(s, u, sub, step, d);
    case PublishSub(sub) => PublishSubmissionKeepsInv(s, sub);
    case PublishVer(v) => PublishVersionKeepsInv(s, v);
    case _ => ElsewhereKeepsInv(s, Next(s, e));
  }

  // ----- Over whole runs -----

  lemma {:induction false} RunKeepsInv(s: State, es: seq<Event>)
    requires Initial(s)
    ensures Inv(Run(s, es))
  {
    if es != [] {
      RunKeepsInv(s, es[..|es| - 1]);
      NextKeepsInv(Run(s, es[..|es| - 1]), es[|es| - 1]);
    }
  }

  /** In every reachable state: the steps of an instance are approved*, then at most one
      step of another kind, then pending*, and the status of the instance is decided by
      them: in progress iff a manual step is in progress, approved iff all steps are
      approved, refused iff a step carries that refusal. */
  lemma {:induction false} ReviewShape(s: State, es: seq<Event>, sub: int)
    requires Initial(s) && sub in Run(s, es).instances
    ensures var inst := Run(s, es).instances[sub];
            var f := Frontier(inst.steps);
            (forall j | 0 <= j < f :: inst.steps[j].status == Approved) &&
            (forall j | f < j < |inst.steps| :: inst.steps[j].status == Pending) &&
            (inst.status == Approved <==> f == |inst.steps|) &&
            (inst.status == InProgress <==>
               f < |inst.steps| && inst.steps[f].status == InProgress && inst.steps[f].def.mode.Manual?) &&
            (inst.status == Rejected <==> f < |inst.steps| && inst.steps[f].status == Rejected) &&
            (inst.status == ChangesRequested <==> f < |inst.steps| && inst.steps[f].status == ChangesRequested) &&
            inst.status in {InProgress, Approved, Rejected, ChangesRequested}
  {
    RunKeepsInv(s, es);
    assert SubmissionOk(Run(s, es), sub);
  }

  /** In every reachable state a version has at most one submission that is in review or
      approved, each submission has its instance, and their statuses correspond. */
  lemma {:induction false} TablesAgree(s: State, es: seq<Event>)
    requires Initial(s)
    ensures var t := Run(s, es);
            t.submissions.Keys == t.instances.Keys && OneOpenPerVersion(t) &&
            forall id | id in t.submissions ::
              Corresponds(t.submissions[id].status, t.instances[id].status) &&
              t.instances[id].version == t.submissions[id].version
  {
    RunKeepsInv(s, es);
    var t := Run(s, es);
    forall id | id in t.submissions
      ensures Corresponds(t.submissions[id].status, t.instances[id].status) &&
              t.instances[id].version == t.submissions[id].version
    {
      assert SubmissionOk(t, id);
    }
  }

  // ----- Publication needs a full review -----

  /** A submission of the version that is approved and not yet published has an instance with
      every step approved; reviews of earlier rounds, already published, do not count. */
  ghost predicate FullyReviewed(s: State, v: int) {
    exists id :: Vouches(s, id, v) && ReviewedBy(s, id, v)
  }

  predicate ReviewedBy(s: State, id: int, v: int) {
    id in s.instances && s.instances[id].version == v &&
    Frontier(s.instances[id].steps) == |s.instances[id].steps|
  }

  /** A step that moves a version to published finds it fully reviewed in the current round,
      whichever of the two publication handlers runs. */
  lemma {:induction false} PublicationNeedsFullReview(s: State, es: seq<Event>, e: Event, v: int)
    requires Initial(s)
    requires var t := Run(s, es); v in Next(t, e).versions && Next(t, e).versions[v].status == Published
    requires var t := Run(s, es); !(v in t.versions && t.versions[v].status == Published)
    ensures FullyReviewed(Run(s, es), v)
  {
    RunKeepsInv(s, es);
    StepToPublished(Run(s, es), e, v);
  }

  lemma {:induction false} StepToPublished(t: State, e: Event, v: int)
    requires Inv(t)
    requires v in Next(t, e).versions && Next(t, e).versions[v].status == Published
    requires !(v in t.versions && t.versions[v].status == Published)
    ensures FullyReviewed(t, v)
  {
    match e
    case PublishSub(sub) =>
      assert SubmissionOk(t, sub);
      assert Vouches(t, sub, v) && ReviewedBy(t, sub, v);
    case PublishVer(_) =>
      assert VersionOk(t, v);
      var id :| Vouches(t, id, v);
      assert SubmissionOk(t, id);
      assert ReviewedBy(t, id, v);
    case _ =>
      NoOtherStepPublishes(t, e, v);
  }

  lemma {:induction false} NoOtherStepPublishes(t: State, e: Event, v: int)
    requires !e.PublishSub? && !e.PublishVer?
    requires v in Next(t, e).versions && Next(t, e).versions[v].status == Published
    ensures v in t.versions && t.versions[v].status == Published
  {
    match e
    case SubmitVersion(user, version) =>
      if exists w :: CanSubmit(t, user, version, w) {
        var w :| CanSubmit(t, user, version, w)
          && Submit(t, user, version) == Settle(Opened(t, user, version, t.workflows[w].steps), t.nextSubmission);
        SettleVersions(Opened(t, user, version, t.workflows[w].steps), t.nextSubmission);
      }
    case DecideStep(user, sub, stepId, verdict) =>
      DecideDoesNotPublish(t, user, sub, stepId, verdict);
    case _ =>
  }

  lemma {:induction false} SettleVersions(s: State, sub: int)
    requires sub in s.instances
    ensures Settle(s, sub).versions == s.versions
         || Settle(s, sub).versions == WithVersionStatus(s.versions, s.instances[sub].version, Approved)
  {
  }

  lemma {:induction false} DecideDoesNotPublish(s: State, user: int, sub: int, stepId: int, verdict: Status)
    ensures forall v | v in Decide(s, user, sub, stepId, verdict).versions
                       && Decide(s, user, sub, stepId, verdict).versions[v].status == Published ::
              v in s.versions && s.versions[v].status == Published
  {
    if Accepts(s, user, sub, stepId, verdict) && verdict == Approved {
      var inst := s.instances[sub];
      var k := Find(inst.steps, stepId);
      var decided := inst.steps[k := inst.steps[k].(status := verdict, reviewer := Some(user))];
      SettleVersions(WithSteps(s, sub, decided), sub);
    }
  }

  /** A published submission has an instance with every step approved. */
  lemma {:induction false} PublishedSubmissionIsFullyReviewed(s: State, es: seq<Event>, sub: int)
    requires Initial(s)
    requires sub in Run(s, es).submissions && Run(s, es).submissions[sub].status == Published
    ensures var t := Run(s, es);
            sub in t.instances && Frontier(t.instances[sub].steps) == |t.instances[sub].steps|
  {
    RunKeepsInv(s, es);
    assert SubmissionOk(Run(s, es), sub);
  }
}
