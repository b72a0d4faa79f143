/** The Skill review engine: submission, the snapshot of a workflow into steps, the
    auto-approval of machine steps, manual decisions, completion and publication.
    Each handler is one atomic step on the tables; a refused request changes nothing. */
module ReviewModel {
  import opened Common
  import opened Text

  // ----- Tables -----

  datatype Mode = Manual | Auto

  /** The status vocabulary that versions, submissions, instances and steps share. */
  datatype Status =
    | Draft | Pending | InProgress | InReview
    | Approved | Rejected | ChangesRequested | Published

  datatype StepDef = StepDef(name: string, role: Option<int>, mode: Mode, required: bool)
  datatype Step = Step(id: int, def: StepDef, status: Status, reviewer: Option<int>)
  datatype Workflow = Workflow(org: int, name: string, active: bool, steps: seq<StepDef>)
  datatype Version = Version(skill: int, status: Status, immutable: bool)
  datatype Submission = Submission(skill: int, version: int, submitter: int, status: Status)

  /** A review instance with its steps in step order. */
  datatype Instance = Instance(version: int, status: Status, steps: seq<Step>)

  /** `submission_id` is a unique key of the instance table, so instances are keyed by it.
      `held` is the set of (user, role) bindings. */
  datatype State = State(
    versions: map<int, Version>,
    submissions: map<int, Submission>,
    instances: map<int, Instance>,
    workflows: map<int, Workflow>,
    userOrg: map<int, int>,
    roles: set<int>,
    held: set<(int, int)>,
    nextSubmission: int,
    nextStep: int,
    nextWorkflow: int)

  // ----- Queries over the steps of an instance -----

  /** The first step with the given status, or the number of steps. */
  function First(steps: seq<Step>, st: Status): (k: nat)
    ensures k <= |steps|
    ensures forall j | 0 <= j < k :: steps[j].status != st
    ensures k < |steps| ==> steps[k].status == st
  {
    if steps == [] || steps[0].status == st then 0 else 1 + First(steps[1..], st)
  }

  /** The step with the given id, or the number of steps. */
  function Find(steps: seq<Step>, id: int): (k: nat)
    ensures k <= |steps|
    ensures forall j | 0 <= j < k :: steps[j].id != id
    ensures k < |steps| ==> steps[k].id == id
  {
    if steps == [] || steps[0].id == id then 0 else 1 + Find(steps[1..], id)
  }

  /** The number of leading approved steps. */
  function Frontier(steps: seq<Step>): (f: nat)
    ensures f <= |steps|
    ensures forall j | 0 <= j < f :: steps[j].status == Approved
    ensures f < |steps| ==> steps[f].status != Approved
  {
    if steps == [] || steps[0].status != Approved then 0 else 1 + Frontier(steps[1..])
  }

  lemma {:induction false} FrontierIs(steps: seq<Step>, f: nat)
    requires f <= |steps|
    requires forall j | 0 <= j < f :: steps[j].status == Approved
    requires f < |steps| ==> steps[f].status != Approved
    ensures Frontier(steps) == f
  {
    if f > 0 {
      FrontierIs(steps[1..], f - 1);
    }
  }

  predicate Unfinished(steps: seq<Step>) {
    exists j | 0 <= j < |steps| :: steps[j].status == Pending || steps[j].status == InProgress
  }

  function Defs(steps: seq<Step>): (defs: seq<StepDef>)
    ensures |defs| == |steps| && forall j | 0 <= j < |steps| :: defs[j] == steps[j].def
  {
    seq(|steps|, j requires 0 <= j < |steps| => steps[j].def)
  }

  // ----- Auto-advance in closed form -----

  /** The end of the maximal run of auto steps that starts at k. */
  function AutoEnd(defs: seq<StepDef>, k: nat): (e: nat)
    requires k <= |defs|
    ensures k <= e <= |defs|
    ensures forall j | k <= j < e :: defs[j].mode.Auto?
    ensures e < |defs| ==> defs[e].mode.Manual?
    decreases |defs| - k
  {
    if k < |defs| && defs[k].mode.Auto? then AutoEnd(defs, k + 1) else k
  }

  function SettledEnd(steps: seq<Step>): (e: nat)
    ensures Frontier(steps) <= e <= |steps|
  {
    AutoEnd(Defs(steps), Frontier(steps))
  }

  /** Approve the maximal run of auto steps from the frontier and open the step behind it. */
  function Settled(steps: seq<Step>): seq<Step> {
    var f, e := Frontier(steps), SettledEnd(steps);
    seq(|steps|, i requires 0 <= i < |steps| =>
      if f <= i < e then steps[i].(status := Approved)
      else if i == e then steps[i].(status := InProgress)
      else steps[i])
  }

  // ----- Completion -----

  function WithVersionStatus(vs: map<int, Version>, v: int, st: Status): map<int, Version> {
    if v in vs then vs[v := vs[v].(status := st)] else vs
  }

  function WithSubmissionStatus(subs: map<int, Submission>, id: int, st: Status): map<int, Submission> {
    if id in subs then subs[id := subs[id].(status := st)] else subs
  }

  function WithSteps(s: State, sub: int, steps: seq<Step>): State
    requires sub in s.instances
  {
    s.(instances := s.instances[sub := s.instances[sub].(steps := steps)])
  }

  /** Instance, submission and version become approved together. */
  function Complete(s: State, sub: int): State
    requires sub in s.instances
  {
    var inst := s.instances[sub];
    s.(instances := s.instances[sub := inst.(status := Approved)],
       submissions := WithSubmissionStatus(s.submissions, sub, Approved),
       versions := WithVersionStatus(s.versions, inst.version, Approved))
  }

  /** Complete the instance unless one of its steps is still open. */
  function Finish(s: State, sub: int): State
    requires sub in s.instances
  {
    if Unfinished(s.instances[sub].steps) then s else Complete(s, sub)
  }

  function Settle(s: State, sub: int): State
    requires sub in s.instances
  {
    Finish(WithSteps(s, sub, Settled(s.instances[sub].steps)), sub)
  }

  // ----- Submission -----

  predicate OpenStatus(st: Status) {
    st == Pending || st == InReview || st == Approved
  }

  predicate HasOpenSubmission(s: State, version: int) {
    exists id | id in s.submissions ::
      s.submissions[id].version == version && OpenStatus(s.submissions[id].status)
  }

  /** `w` is the active workflow of the organization with the least id. */
  predicate IsChosenWorkflow(s: State, org: int, w: int) {
    w in s.workflows && s.workflows[w].org == org && s.workflows[w].active &&
    forall x | x in s.workflows && s.workflows[x].org == org && s.workflows[x].active :: w <= x
  }

  function Snapshot(defs: seq<StepDef>, firstId: int): (steps: seq<Step>)
    ensures Defs(steps) == defs
  {
    seq(|defs|, i requires 0 <= i < |defs| =>
      Step(firstId + i, defs[i], if i == 0 then InProgress else Pending, None))
  }

  predicate CanSubmit(s: State, user: int, version: int, w: int) {
    version in s.versions && !HasOpenSubmission(s, version) && user in s.userOrg &&
    IsChosenWorkflow(s, s.userOrg[user], w) && s.workflows[w].steps != []
  }

  /** The new rows, before the auto steps are settled. */
  function Opened(s: State, user: int, version: int, defs: seq<StepDef>): State
    requires version in s.versions
  {
    var sub := s.nextSubmission;
    s.(submissions := s.submissions[sub := Submission(s.versions[version].skill, version, user, InReview)],
       versions := WithVersionStatus(s.versions, version, InReview),
       instances := s.instances[sub := Instance(version, InProgress, Snapshot(defs, s.nextStep))],
       nextSubmission := sub + 1,
       nextStep := s.nextStep + |defs|)
  }

  ghost function Submit(s: State, user: int, version: int): State {
    if exists w :: CanSubmit(s, user, version, w) then
      var w :| CanSubmit(s, user, version, w);
      Settle(Opened(s, user, version, s.workflows[w].steps), s.nextSubmission)
    else s
  }

  lemma {:induction false} ChosenWorkflowIsUnique(s: State, org: int, v: int, w: int)
    requires IsChosenWorkflow(s, org, v) && IsChosenWorkflow(s, org, w)
    ensures v == w
  {
    assert v <= w && w <= v;
  }

  // ----- Decisions -----

  predicate IsVerdict(d: Status) {
    d == Approved || d == Rejected || d == ChangesRequested
  }

  predicate Accepts(s: State, user: int, sub: int, stepId: int, verdict: Status) {
    stepId != 0 && IsVerdict(verdict) && sub in s.instances && s.instances[sub].status == InProgress &&
    var steps := s.instances[sub].steps;
    var k := Find(steps, stepId);
    k < |steps| && steps[k].status == InProgress && steps[k].def.mode.Manual? &&
    (steps[k].def.role.Some? ==> (user, steps[k].def.role.value) in s.held)
  }

  function Decide(s: State, user: int, sub: int, stepId: int, verdict: Status): State {
    if !Accepts(s, user, sub, stepId, verdict) then s
    else
      var inst := s.instances[sub];
      var k := Find(inst.steps, stepId);
      var s1 := WithSteps(s, sub,
                          inst.steps[k := inst.steps[k].(status := verdict, reviewer := Some(user))]);
      if verdict == Approved then Settle(s1, sub) else Refused(s1, sub, verdict)
  }

  /** A refusal stops the instance and its submission; the version stays in review. */
  function Refused(s: State, sub: int, verdict: Status): State
    requires sub in s.instances
  {
    s.(instances := s.instances[sub := s.instances[sub].(status := verdict)],
       submissions := WithSubmissionStatus(s.submissions, sub, verdict))
  }

  // ----- Publication -----

  function Publish(vs: map<int, Version>, v: int): map<int, Version> {
    if v in vs then vs[v := vs[v].(status := Published, immutable := true)] else vs
  }

  function PublishSubmission(s: State, sub: int): State {
    if sub in s.submissions && s.submissions[sub].status == Approved then
      s.(submissions := WithSubmissionStatus(s.submissions, sub, Published),
         versions := Publish(s.versions, s.submissions[sub].version))
    else s
  }

  function PublishVersion(s: State, v: int): State {
    if v in s.versions && s.versions[v].status == Approved then
      s.(versions := Publish(s.versions, v))
    else s
  }

  // ----- Workflow administration -----

  datatype StepRequest = StepRequest(name: string, role: Option<int>, mode: Option<Mode>, required: bool)

  predicate ValidStep(r: StepRequest, roles: set<int>) {
    Trim(r.name) != "" && r.mode.Some? &&
    (r.role.Some? ==> r.role.value in roles) &&
    (r.mode == Some(Manual) ==> r.role.Some?)
  }

  function Stored(reqs: seq<StepRequest>): (defs: seq<StepDef>)
    requires forall r | r in reqs :: r.mode.Some?
    ensures |defs| == |reqs|
  {
    seq(|reqs|, i requires 0 <= i < |reqs| =>
      assert reqs[i] in reqs;
      StepDef(Trim(reqs[i].name), reqs[i].role, reqs[i].mode.value, reqs[i].required))
  }

  predicate NameTaken(s: State, org: int, name: string, except: int) {
    exists w | w in s.workflows :: w != except && s.workflows[w].org == org && s.workflows[w].name == name
  }

  predicate CanSaveWorkflow(s: State, org: int, id: int, name: string, status: string, reqs: seq<StepRequest>) {
    Trim(name) != "" && reqs != [] && status in {"", "active", "disabled"} &&
    (forall r | r in reqs :: ValidStep(r, s.roles)) &&
    (id != 0 ==> id in s.workflows && s.workflows[id].org == org) &&
    !NameTaken(s, org, Trim(name), id)
  }

  function SaveWorkflow(s: State, org: int, id: int, name: string, status: string, reqs: seq<StepRequest>): State {
    if !CanSaveWorkflow(s, org, id, name, status, reqs) then s
    else
      var row := Workflow(org, Trim(name), status != "disabled", Stored(reqs));
      if id == 0 then s.(workflows := s.workflows[s.nextWorkflow := row], nextWorkflow := s.nextWorkflow + 1)
      else s.(workflows := s.workflows[id := row])
  }

  // ----- Runs -----

  /** `AddVersion` drafts a version; `SetDirectory` stands for every other change to users,
      roles and role bindings. */
  datatype Event =
    | SubmitVersion(user: int, version: int)
    | DecideStep(user: int, sub: int, stepId: int, verdict: Status)
    | PublishSub(sub: int)
    | PublishVer(version: int)
    | EditWorkflow(org: int, id: int, name: string, status: string, reqs: seq<StepRequest>)
    | AddVersion(version: int, skill: int)
    | SetDirectory(userOrg: map<int, int>, roles: set<int>, held: set<(int, int)>)

  ghost function Next(s: State, e: Event): State {
    match e
    case SubmitVersion(u, v) => Submit(s, u, v)
    case DecideStep(u, sub, step, d) => Decide(s, u, sub, step, d)
    case PublishSub(sub) => PublishSubmission(s, sub)
    case PublishVer(v) => PublishVersion(s, v)
    case EditWorkflow(org, id, name, status, reqs) => SaveWorkflow(s, org, id, name, status, reqs)
    case AddVersion(v, skill) =>
      if v in s.versions then s else s.(versions := s.versions[v := Version(skill, Draft, false)])
    case SetDirectory(userOrg, roles, held) => s.(userOrg := userOrg, roles := roles, held := held)
  }

  ghost function Run(s: State, es: seq<Event>): State {
    if es == [] then s else Next(Run(s, es[..|es| - 1]), es[|es| - 1])
  }

  /** Nothing has been submitted yet; seeded versions are drafts or already published. */
  predicate Initial(s: State) {
    s.submissions == map[] && s.instances == map[] &&
    forall v | v in s.versions :: s.versions[v].status == Draft || s.versions[v].status == Published
  }
}
