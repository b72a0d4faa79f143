/** Approval requests and what their decisions drive: executions and profile skill installs,
    with the runtime kill switch in between. */
module ApprovalModel {
  import opened Common

  // ----- Tables -----

  datatype Kind = SkillInstall | ExecutionRun | OtherKind(name: string)
  datatype Verdict = Pending | Approved | Rejected

  /** The metadata of a skill install; zero stands for a missing id. */
  datatype Install = Install(profile: int, skill: int, version: int)
  datatype Request = Request(
    kind: Kind, requester: int, reviewer: Option<int>, status: Verdict, meta: Option<Install>)

  /** The one approval step of a request: who is to decide it, or did, and how. */
  datatype Step = Step(reviewer: Option<int>, status: Verdict)

  datatype RunStatus = Queued | Running | WaitingApproval | Completed | RunRejected | Cancelled
  datatype Execution = Execution(status: RunStatus, runtime: Option<int>, request: Option<int>)

  datatype RowStatus = Installed | PendingApproval | InstallRejected
  datatype Applied = NotApplied | PendingMockApply
  datatype Row = Row(version: int, status: RowStatus, applied: Applied, request: Option<int>)

  datatype Power = Stopped | Other(name: string)
  datatype Runtime = Runtime(killed: bool, desired: Power, observed: Power, status: Power)

  /** Installs are identified by their unique key (profile, skill); `owners` maps a profile
      to its user. */
  datatype State = State(
    requests: map<int, Request>,
    steps: map<int, Step>,
    executions: map<int, Execution>,
    installs: map<(int, int), Row>,
    owners: map<int, int>,
    runtimes: map<int, Runtime>,
    nextRequest: int,
    nextExecution: int)

  // ----- Creating requests -----

  /** A pending request with its pending step. */
  function NewRequest(s: State, kind: Kind, user: int, meta: Option<Install>, reviewer: Option<int>): State {
    s.(requests := s.requests[s.nextRequest := Request(kind, user, reviewer, Pending, meta)],
       steps := s.steps[s.nextRequest := Step(reviewer, Pending)],
       nextRequest := s.nextRequest + 1)
  }

  function NewExecution(s: State, x: Execution): State {
    s.(executions := s.executions[s.nextExecution := x], nextExecution := s.nextExecution + 1)
  }

  /** A high or critical risk makes the execution wait for a request of its own; `reviewer`
      is the security administrator the request is put to, if there is one. */
  function CreateExecution(s: State, user: int, runtime: Option<int>, risky: bool, reviewer: Option<int>): State {
    if risky then
      NewExecution(NewRequest(s, ExecutionRun, user, None, reviewer),
                   Execution(WaitingApproval, runtime, Some(s.nextRequest)))
    else NewExecution(s, Execution(Completed, runtime, None))
  }

  // ----- Installing skills -----

  datatype Policy = Disabled | Allowed | ApprovalRequired

  predicate Owns(s: State, user: int, profile: int) {
    profile in s.owners && s.owners[profile] == user
  }

  /** The upsert that puts a skill in place. */
  function Apply(s: State, i: Install, request: Option<int>): State {
    s.(installs := s.installs[(i.profile, i.skill) := Row(i.version, Installed, PendingMockApply, request)])
  }

  /** The upsert that parks an install until its request is decided; an existing row keeps
      its runtime state. */
  function Park(s: State, i: Install, request: int): State {
    var k := (i.profile, i.skill);
    var applied := if k in s.installs then s.installs[k].applied else NotApplied;
    s.(installs := s.installs[k := Row(i.version, PendingApproval, applied, Some(request))])
  }

  /** `eligible`: the skill is visible to the user and the version is published. */
  function RequestInstall(s: State, user: int, i: Install, policy: Policy, eligible: bool): State {
    if i.profile == 0 || i.version == 0 || !eligible then s
    else
      match policy
      case Disabled => s
      case ApprovalRequired => Park(NewRequest(s, SkillInstall, user, Some(i), None), i, s.nextRequest)
      case Allowed => if Owns(s, user, i.profile) then Apply(s, i, None) else s
  }

  // ----- Deciding -----

  predicate Complete(meta: Option<Install>) {
    meta.Some? && meta.value.profile != 0 && meta.value.skill != 0 && meta.value.version != 0
  }

  /** The request is pending, the decision is not the requester's own, and it can be applied. */
  predicate CanDecide(s: State, user: int, id: int, approve: bool) {
    id in s.requests && s.requests[id].requester != user && s.requests[id].status == Pending &&
    (s.requests[id].kind == SkillInstall ==>
       Complete(s.requests[id].meta) &&
       (approve ==> Owns(s, s.requests[id].requester, s.requests[id].meta.value.profile)))
  }

  /** Request and step are resolved together; the step records who decided. */
  function Resolved(s: State, user: int, id: int, approve: bool): State
    requires id in s.requests
  {
    var verdict := if approve then Approved else Rejected;
    s.(requests := s.requests[id := s.requests[id].(status := verdict)],
       steps := if id in s.steps && s.steps[id].status == Pending
                then s.steps[id := Step(Some(user), verdict)] else s.steps)
  }

  function WithRejectedRows(s: State, id: int): State {
    s.(installs := map k | k in s.installs ::
         if s.installs[k].request == Some(id)
         then s.installs[k].(status := InstallRejected, applied := NotApplied) else s.installs[k])
  }

  function WithRuns(s: State, id: int, st: RunStatus): State {
    s.(executions := map x | x in s.executions ::
         if s.executions[x].request == Some(id) then s.executions[x].(status := st) else s.executions[x])
  }

  function Decide(s: State, user: int, id: int, approve: bool): State {
    if !CanDecide(s, user, id, approve) then s
    else
      var t := Resolved(s, user, id, approve);
      match s.requests[id].kind
      case SkillInstall =>
        if approve then Apply(t, s.requests[id].meta.value, Some(id)) else WithRejectedRows(t, id)
      case ExecutionRun => WithRuns(t, id, if approve then Completed else RunRejected)
      case OtherKind(_) => t
  }

  // ----- The kill switch -----

  predicate Killable(x: Execution, runtime: int) {
    x.runtime == Some(runtime) && (x.status == Queued || x.status == Running || x.status == WaitingApproval)
  }

  function KillSwitch(s: State, runtime: int): State {
    s.(executions := map x | x in s.executions ::
         if Killable(s.executions[x], runtime) then s.executions[x].(status := Cancelled) else s.executions[x],
       runtimes := if runtime in s.runtimes
                   then s.runtimes[runtime := Runtime(true, Stopped, Stopped, Stopped)] else s.runtimes)
  }

  // ----- Runs -----

  /** `OpenRequest` is the generic form: any kind, any metadata. `SetOwners` stands for every
      change to profiles, `SetRuntimes` for every other change to runtimes. */
  datatype Event =
    | NewRun(user: int, runtime: Option<int>, risky: bool, reviewer: Option<int>)
    | AskInstall(user: int, install: Install, policy: Policy, eligible: bool)
    | OpenRequest(user: int, kind: Kind, meta: Option<Install>, reviewer: Option<int>)
    | Decision(user: int, id: int, approve: bool)
    | Kill(target: int)
    | SetOwners(owners: map<int, int>)
    | SetRuntimes(runtimes: map<int, Runtime>)

  function Next(s: State, e: Event): State {
    match e
    case NewRun(user, runtime, risky, reviewer) => CreateExecution(s, user, runtime, risky, reviewer)
    case AskInstall(user, i, policy, eligible) => RequestInstall(s, user, i, policy, eligible)
    case OpenRequest(user, kind, meta, reviewer) => NewRequest(s, kind, user, meta, reviewer)
    case Decision(user, id, approve) => Decide(s, user, id, approve)
    case Kill(runtime) => KillSwitch(s, runtime)
    case SetOwners(owners) => s.(owners := owners)
    case SetRuntimes(runtimes) => s.(runtimes := runtimes)
  }

  function Run(s: State, es: seq<Event>): State {
    if es == [] then s else Next(Run(s, es[..|es| - 1]), es[|es| - 1])
  }

  predicate Initial(s: State) {
    s.requests == map[] && s.steps == map[] && s.executions == map[] && s.installs == map[]
  }
}
