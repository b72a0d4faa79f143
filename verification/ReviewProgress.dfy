/** An open review never gets stuck: its frontier step accepts a verdict from any holder of the
    step's role, and the approvals of its remaining manual steps complete it. */
module ReviewProgress {
  import opened ReviewModel
  import opened ReviewInvariants
  import opened ReviewLog

  // ----- Step ids -----

  function Ids(steps: seq<Step>): (ids: seq<int>)
    ensures |ids| == |steps| && forall j | 0 <= j < |steps| :: ids[j] == steps[j].id
  {
    seq(|steps|, j requires 0 <= j < |steps| => steps[j].id)
  }

  predicate IdsOk(ids: seq<int>) {
    (forall i | 0 <= i < |ids| :: ids[i] > 0) && forall i, j | 0 <= i < j < |ids| :: ids[i] != ids[j]
  }

  /** Ids are handed out from 1 on and are distinct within an instance. */
  predicate Numbered(s: State) {
    s.nextStep > 0 && forall sub | sub in s.instances :: IdsOk(Ids(s.instances[sub].steps))
  }

  lemma {:induction false} SettledKeepsIds(steps: seq<Step>)
    ensures Ids(Settled(steps)) == Ids(steps)
  {
  }

  lemma {:induction false} MarkKeepsIds(steps: seq<Step>, user: int, verdict: Status)
    requires Frontier(steps) < |steps|
    ensures Ids(Mark(steps, user, verdict)) == Ids(steps)
  {
  }

  lemma {:induction false} SnapshotIds(defs: seq<StepDef>, firstId: int)
    requires firstId > 0
    ensures IdsOk(Ids(Settled(Snapshot(defs, firstId))))
  {
    SettledKeepsIds(Snapshot(defs, firstId));
  }

  lemma {:induction false} SubmitKeepsIds(s: State, user: int, version: int, sub: int)
    requires Inv(s) && Numbered(s) && sub in Submit(s, user, version).instances
    ensures IdsOk(Ids(Submit(s, user, version).instances[sub].steps))
    ensures sub in s.instances ==> Submit(s, user, version).instances[sub] == s.instances[sub]
  {
    if Submit(s, user, version) != s {
      var w := SubmitEffect(s, user, version);
      SnapshotIds(s.workflows[w].steps, s.nextStep);
    }
  }

  lemma {:induction false} DecideKeepsIds(s: State, user: int, id: int, stepId: int, verdict: Status, sub: int)
    requires Inv(s) && Numbered(s) && sub in Decide(s, user, id, stepId, verdict).instances
    ensures sub in s.instances
    ensures Ids(Decide(s, user, id, stepId, verdict).instances[sub].steps) == Ids(s.instances[sub].steps)
  {
    if Accepts(s, user, id, stepId, verdict) {
      DecideEffect(s, user, id, stepId, verdict);
      MarkKeepsIds(s.instances[id].steps, user, verdict);
      SettledKeepsIds(Mark(s.instances[id].steps, user, verdict));
    }
  }

  lemma {:induction false} NextKeepsIds(s: State, e: Event, sub: int)
    requires Inv(s) && Numbered(s) && sub in Next(s, e).instances
    ensures IdsOk(Ids(Next(s, e).instances[sub].steps))
  {
    match e
    case SubmitVersion(user, version) => SubmitKeepsIds(s, user, version, sub);
    case DecideStep(user, id, stepId, verdict) => DecideKeepsIds(s, user, id, stepId, verdict, sub);
    case _ =>
  }

  lemma {:induction false} NextStepGrows(s: State, e: Event)
    ensures Next(s, e).nextStep >= s.nextStep
  {
    match e
    case SubmitVersion(user, version) =>
    case DecideStep(user, sub, stepId, verdict) =>
    case _ =>
  }

  lemma {:induction false} NextKeepsNumbered(s: State, e: Event)
    requires Inv(s) && Numbered(s)
    ensures Numbered(Next(s, e))
  {
    NextStepGrows(s, e);
    forall sub | sub in Next(s, e).instances ensures IdsOk(Ids(Next(s, e).instances[sub].steps)) {
      NextKeepsIds(s, e, sub);
    }
  }

  lemma {:induction false} RunKeepsNumbered(s: State, es: seq<Event>)
    requires Initial(s) && s.nextStep > 0
    ensures Numbered(Run(s, es))
  {
    if es != [] {
      RunKeepsNumbered(s, es[..|es| - 1]);
      RunKeepsInv(s, es[..|es| - 1]);
      NextKeepsNumbered(Run(s, es[..|es| - 1]), es[|es| - 1]);
    }
  }

  // ----- The frontier accepts -----

  predicate MayDecide(t: State, user: int, def: StepDef) {
    def.role.Some? ==> (user, def.role.value) in t.held
  }

  lemma {:induction false} FrontierAccepts(t: State, sub: int, user: int, verdict: Status)
    requires Inv(t) && Numbered(t) && IsVerdict(verdict)
    requires sub in t.instances && t.instances[sub].status == InProgress
    ensures var steps := t.instances[sub].steps;
            var f := Frontier(steps);
            f < |steps| &&
            (Accepts(t, user, sub, steps[f].id, verdict) <==> MayDecide(t, user, steps[f].def))
  {
    assert SubmissionOk(t, sub);
    var steps := t.instances[sub].steps;
    var f := Frontier(steps);
    var k := Find(steps, steps[f].id);
    assert Ids(steps)[k] == Ids(steps)[f];
  }

  /** In every reachable state an instance under review accepts every verdict on its frontier
      step from exactly the users that hold the role the step asks for. */
  lemma {:induction false} OpenReviewAccepts(s: State, es: seq<Event>, sub: int, user: int, verdict: Status)
    requires Initial(s) && s.nextStep > 0 && IsVerdict(verdict)
    requires sub in Run(s, es).instances && Run(s, es).instances[sub].status == InProgress
    ensures var t, steps := Run(s, es), Run(s, es).instances[sub].steps;
            var f := Frontier(steps);
            f < |steps| &&
            (Accepts(t, user, sub, steps[f].id, verdict) <==> MayDecide(t, user, steps[f].def))
  {
    RunKeepsInv(s, es);
    RunKeepsNumbered(s, es);
    FrontierAccepts(Run(s, es), sub, user, verdict);
  }

  // ----- The remaining approvals complete -----

  /** The positions of the manual steps from k on. */
  function ManualFrom(defs: seq<StepDef>, k: nat): (ks: seq<nat>)
    requires k <= |defs|
    ensures forall i | 0 <= i < |ks| :: k <= ks[i] < |defs|
    decreases |defs| - k
  {
    if k == |defs| then []
    else if defs[k].mode.Manual? then [k] + ManualFrom(defs, k + 1)
    else ManualFrom(defs, k + 1)
  }

  lemma {:induction false} SkipAutoSteps(defs: seq<StepDef>, k: nat, g: nat)
    requires k <= g <= |defs| && forall j | k <= j < g :: defs[j].mode.Auto?
    ensures ManualFrom(defs, k) == ManualFrom(defs, g)
    decreases g - k
  {
    if k < g {
      SkipAutoSteps(defs, k + 1, g);
    }
  }

  function Remaining(steps: seq<Step>): (ks: seq<nat>)
    ensures forall i | 0 <= i < |ks| :: ks[i] < |steps|
  {
    ManualFrom(Defs(steps), Frontier(steps))
  }

  /** One approval after the other, each on the next manual step. */
  function Approvals(sub: int, ids: seq<int>, ks: seq<nat>, users: seq<int>): seq<Event>
    requires |users| == |ks| && forall i | 0 <= i < |ks| :: ks[i] < |ids|
  {
    seq(|ks|, i requires 0 <= i < |ks| => DecideStep(users[i], sub, ids[ks[i]], Approved))
  }

  lemma {:induction false} RunCons(s: State, e: Event, es: seq<Event>)
    ensures Run(s, [e] + es) == Run(Next(s, e), es)
  {
    var all := [e] + es;
    if es == [] {
      assert all[..0] == [] && all[0] == e;
    } else {
      assert all[..|all| - 1] == [e] + es[..|es| - 1];
      RunCons(s, e, es[..|es| - 1]);
    }
  }

  lemma {:induction false} ApprovalShortens(steps: seq<Step>, user: int)
    requires InstanceOk(Instance(0, InProgress, steps)) && Frontier(steps) < |steps|
    ensures var t := Settled(Mark(steps, user, Approved));
            Remaining(steps) == [Frontier(steps)] + Remaining(t) && Defs(t) == Defs(steps) && Ids(t) == Ids(steps)
  {
    var t := Settled(Mark(steps, user, Approved));
    AfterVerdict(steps, user, Approved);
    SkipAutoSteps(Defs(steps), Frontier(steps) + 1, Frontier(t));
    MarkKeepsIds(steps, user, Approved);
    SettledKeepsIds(Mark(steps, user, Approved));
  }

  predicate UnderReview(t: State, sub: int) {
    sub in t.instances && t.instances[sub].status == InProgress
  }

  function Approve(t: State, sub: int, user: int): Event
    requires sub in t.instances && Frontier(t.instances[sub].steps) < |t.instances[sub].steps|
  {
    DecideStep(user, sub, t.instances[sub].steps[Frontier(t.instances[sub].steps)].id, Approved)
  }

  /** An approval of the frontier step by a holder of its role moves the frontier to the next
      manual step, or completes the instance. */
  lemma {:induction false} ApprovalMovesOn(t: State, sub: int, user: int)
    requires Inv(t) && Numbered(t) && UnderReview(t, sub) && Frontier(t.instances[sub].steps) < |t.instances[sub].steps|
    requires MayDecide(t, user, t.instances[sub].steps[Frontier(t.instances[sub].steps)].def)
    ensures var steps, t' := t.instances[sub].steps, Next(t, Approve(t, sub, user));
            t'.held == t.held && sub in t'.instances &&
            t'.instances[sub].steps == Settled(Mark(steps, user, Approved)) &&
            t'.instances[sub].status in {InProgress, Approved}
  {
    var steps := t.instances[sub].steps;
    var id := steps[Frontier(steps)].id;
    FrontierAccepts(t, sub, user, Approved);
    DecideEffect(t, user, sub, id, Approved);
  }

  /** Each user may decide the step that comes up for them. */
  predicate MayDecideAll(t: State, steps: seq<Step>, ks: seq<nat>, users: seq<int>)
    requires forall i | 0 <= i < |ks| :: ks[i] < |steps|
  {
    |users| == |ks| && forall i | 0 <= i < |ks| :: MayDecide(t, users[i], steps[ks[i]].def)
  }

  lemma {:induction false} OthersMayStillDecide(
      t: State, t': State, steps: seq<Step>, after: seq<Step>, ks: seq<nat>, users: seq<int>)
    requires t'.held == t.held && Defs(after) == Defs(steps) && ks != []
    requires forall i | 0 <= i < |ks| :: ks[i] < |steps|
    requires MayDecideAll(t, steps, ks, users)
    ensures |after| == |steps| && MayDecideAll(t', after, ks[1..], users[1..])
  {
    forall i | 0 <= i < |ks[1..]| ensures MayDecide(t', users[1..][i], after[ks[1..][i]].def) {
      assert MayDecide(t, users[i + 1], steps[ks[i + 1]].def);
      assert Defs(after)[ks[i + 1]] == Defs(steps)[ks[i + 1]];
    }
  }

  lemma {:induction false} ApprovalsUnfold(sub: int, ids: seq<int>, ks: seq<nat>, users: seq<int>)
    requires |users| == |ks| > 0 && forall i | 0 <= i < |ks| :: ks[i] < |ids|
    ensures Approvals(sub, ids, ks, users)
         == [DecideStep(users[0], sub, ids[ks[0]], Approved)] + Approvals(sub, ids, ks[1..], users[1..])
  {
  }

  lemma {:induction false} NothingRemains(t: State, sub: int)
    requires Inv(t) && sub in t.instances && t.instances[sub].status in {InProgress, Approved}
    ensures InstanceOk(t.instances[sub])
    ensures t.instances[sub].status == Approved <==> Remaining(t.instances[sub].steps) == []
    ensures var steps := t.instances[sub].steps;
            t.instances[sub].status == InProgress ==>
              Frontier(steps) < |steps| && Remaining(steps)[0] == Frontier(steps)
  {
    assert SubmissionOk(t, sub);
  }

  /** With m manual steps left, m approvals by holders of their roles, one for each step in
      order, complete the instance. */
  lemma {:induction false} RemainingApprovalsComplete(t: State, sub: int, users: seq<int>)
    requires Inv(t) && Numbered(t) && sub in t.instances && t.instances[sub].status in {InProgress, Approved}
    requires MayDecideAll(t, t.instances[sub].steps, Remaining(t.instances[sub].steps), users)
    ensures var steps := t.instances[sub].steps;
            var done := Run(t, Approvals(sub, Ids(steps), Remaining(steps), users));
            sub in done.instances && done.instances[sub].status == Approved
    decreases |users|
  {
    var steps := t.instances[sub].steps;
    var ks, ids := Remaining(steps), Ids(steps);
    NothingRemains(t, sub);
    if ks != [] {
      var e := Approve(t, sub, users[0]);
      assert MayDecide(t, users[0], steps[ks[0]].def);
      ApprovalMovesOn(t, sub, users[0]);
      ApprovalShortens(steps, users[0]);
      var t' := Next(t, e);
      var after := t'.instances[sub].steps;
      assert ks[1..] == Remaining(after);
      NextKeepsInv(t, e);
      NextKeepsNumbered(t, e);
      OthersMayStillDecide(t, t', steps, after, ks, users);
      RemainingApprovalsComplete(t', sub, users[1..]);
      ApprovalsUnfold(sub, ids, ks, users);
      RunCons(t, e, Approvals(sub, ids, ks[1..], users[1..]));
    }
  }

  /** Every review under way in a reachable state can be completed by the approvals of its
      remaining manual steps. */
  lemma {:induction false} EveryReviewCanBeCompleted(s: State, es: seq<Event>, sub: int, users: seq<int>)
    requires Initial(s) && s.nextStep > 0 && UnderReview(Run(s, es), sub)
    requires var t, steps := Run(s, es), Run(s, es).instances[sub].steps;
             MayDecideAll(t, steps, Remaining(steps), users)
    ensures var t, steps := Run(s, es), Run(s, es).instances[sub].steps;
            var done := Run(t, Approvals(sub, Ids(steps), Remaining(steps), users));
            sub in done.instances && done.instances[sub].status == Approved
  {
    RunKeepsInv(s, es);
    RunKeepsNumbered(s, es);
    RemainingApprovalsComplete(Run(s, es), sub, users);
  }
}
