/** What every interleaving of requests, decisions, installs and kill switches keeps. */
module ApprovalTheorems {
  import opened Common
  import opened ApprovalModel

  // ----- The invariant -----

  predicate RowMatches(row: RowStatus, verdict: Verdict) {
    match row
    case PendingApproval => verdict == Pending
    case Installed => verdict == Approved
    case InstallRejected => verdict == Rejected
  }

  /** A row that names a request names one with its own profile, skill and version. */
  predicate RowOk(s: State, k: (int, int)) {
    k in s.installs &&
    (s.installs[k].status == PendingApproval ==> s.installs[k].request.Some?) &&
    (s.installs[k].request.Some? ==>
       var r := s.installs[k].request.value;
       r in s.requests && s.requests[r].kind == SkillInstall &&
       s.requests[r].meta == Some(Install(k.0, k.1, s.installs[k].version)) &&
       RowMatches(s.installs[k].status, s.requests[r].status))
  }

  predicate StepOk(s: State, r: int) {
    r in s.requests && r < s.nextRequest && r in s.steps && s.steps[r].status == s.requests[r].status
  }

  ghost predicate Inv(s: State) {
    && (forall r | r in s.requests :: StepOk(s, r))
    && (forall k | k in s.installs :: RowOk(s, k))
  }

  // ----- One step at a time -----

  /** All requests but a new one, and their steps, are as they were. */
  predicate RequestsStay(s: State, t: State) {
    s.nextRequest <= t.nextRequest &&
    (forall r | r in s.requests :: r in t.requests && t.requests[r] == s.requests[r]) &&
    (forall r | r in s.requests && r in s.steps :: r in t.steps && t.steps[r] == s.steps[r]) &&
    forall r | r in t.requests && r !in s.requests ::
      s.nextRequest <= r < t.nextRequest && r in t.steps && t.steps[r].status == t.requests[r].status == Pending
  }

  predicate IdsOk(s: State) {
    forall r | r in s.requests :: r < s.nextRequest
  }

  lemma {:induction false} NewRequestAdds(s: State, kind: Kind, user: int, meta: Option<Install>, reviewer: Option<int>)
    requires IdsOk(s)
    ensures RequestsStay(s, NewRequest(s, kind, user, meta, reviewer))
  {
  }

  lemma {:induction false} NewRunAdds(
      s: State, user: int, runtime: Option<int>, risky: bool, reviewer: Option<int>)
    requires IdsOk(s)
    ensures RequestsStay(s, CreateExecution(s, user, runtime, risky, reviewer))
  {
    NewRequestAdds(s, ExecutionRun, user, None, reviewer);
  }

  lemma {:induction false} AskInstallAdds(s: State, user: int, i: Install, policy: Policy, eligible: bool)
    requires IdsOk(s)
    ensures RequestsStay(s, RequestInstall(s, user, i, policy, eligible))
  {
    NewRequestAdds(s, SkillInstall, user, Some(i), None);
  }

  lemma {:induction false} OtherStepAdds(s: State, e: Event)
    requires IdsOk(s) && !e.Decision?
    ensures RequestsStay(s, Next(s, e))
  {
    match e
    case NewRun(user, runtime, risky, reviewer) => NewRunAdds(s, user, runtime, risky, reviewer);
    case AskInstall(user, i, policy, eligible) => AskInstallAdds(s, user, i, policy, eligible);
    case OpenRequest(user, kind, meta, reviewer) => NewRequestAdds(s, kind, user, meta, reviewer);
    case _ =>
  }

  lemma {:induction false} DecideResolves(s: State, user: int, id: int, approve: bool)
    ensures var t := Decide(s, user, id, approve);
            var r := if CanDecide(s, user, id, approve) then Resolved(s, user, id, approve) else s;
            t.requests == r.requests && t.steps == r.steps && t.nextRequest == s.nextRequest
  {
  }

  lemma {:induction false} NextKeepsStep(s: State, e: Event, r: int)
    requires Inv(s) && r in Next(s, e).requests
    ensures StepOk(Next(s, e), r)
  {
    assert forall q | q in s.requests :: StepOk(s, q);
    match e
    case Decision(user, id, approve) =>
      DecideResolves(s, user, id, approve);
      assert StepOk(s, r);
    case _ =>
      OtherStepAdds(s, e);
      if r in s.requests {
        assert StepOk(s, r);
      }
  }

  /** A row is fine as long as it and the request it names stay as they are. */
  lemma {:induction false} RowStays(s: State, t: State, k: (int, int))
    requires RowOk(s, k) && k in t.installs && t.installs[k] == s.installs[k]
    requires s.installs[k].request.Some? ==>
               var r := s.installs[k].request.value;
               r in s.requests ==> r in t.requests && t.requests[r] == s.requests[r]
    ensures RowOk(t, k)
  {
  }

  lemma {:induction false} AppliedRowIsOk(s: State, user: int, id: int, k: (int, int))
    requires Inv(s) && CanDecide(s, user, id, true) && s.requests[id].kind == SkillInstall
    requires k in Decide(s, user, id, true).installs
    ensures RowOk(Decide(s, user, id, true), k)
  {
    var i := s.requests[id].meta.value;
    if k != (i.profile, i.skill) {
      assert RowOk(s, k);
      assert s.installs[k].request != Some(id);
      RowStays(s, Decide(s, user, id, true), k);
    }
  }

  lemma {:induction false} RejectedRowIsOk(s: State, user: int, id: int, k: (int, int))
    requires Inv(s) && CanDecide(s, user, id, false) && s.requests[id].kind == SkillInstall
    requires k in Decide(s, user, id, false).installs
    ensures RowOk(Decide(s, user, id, false), k)
  {
    assert RowOk(s, k);
    if s.installs[k].request != Some(id) {
      RowStays(s, Decide(s, user, id, false), k);
    }
  }

  lemma {:induction false} DecideKeepsRows(s: State, user: int, id: int, approve: bool, k: (int, int))
    requires Inv(s) && k in Decide(s, user, id, approve).installs
    ensures RowOk(Decide(s, user, id, approve), k)
  {
    if CanDecide(s, user, id, approve) {
      if s.requests[id].kind == SkillInstall {
        if approve {
          AppliedRowIsOk(s, user, id, k);
        } else {
          RejectedRowIsOk(s, user, id, k);
        }
      } else {
        assert RowOk(s, k);
        RowStays(s, Decide(s, user, id, approve), k);
      }
    }
  }

  lemma {:induction false} AskKeepsRows(s: State, user: int, i: Install, policy: Policy, eligible: bool, k: (int, int))
    requires Inv(s) && k in RequestInstall(s, user, i, policy, eligible).installs
    ensures RowOk(RequestInstall(s, user, i, policy, eligible), k)
  {
    if k in s.installs && k != (i.profile, i.skill) {
      assert RowOk(s, k);
      assert s.installs[k].request.Some? ==> StepOk(s, s.installs[k].request.value);
      RowStays(s, RequestInstall(s, user, i, policy, eligible), k);
    }
  }

  lemma {:induction false} OtherStepKeepsRows(s: State, e: Event, k: (int, int))
    requires Inv(s) && !e.Decision? && !e.AskInstall? && k in Next(s, e).installs
    ensures RowOk(Next(s, e), k)
  {
    assert RowOk(s, k);
    assert s.installs[k].request.Some? ==> StepOk(s, s.installs[k].request.value);
    RowStays(s, Next(s, e), k);
  }

  lemma {:induction false} NextKeepsRow(s: State, e: Event, k: (int, int))
    requires Inv(s) && k in Next(s, e).installs
    ensures RowOk(Next(s, e), k)
  {
    match e
    case Decision(user, id, approve) => DecideKeepsRows(s, user, id, approve, k);
    case AskInstall(user, i, policy, eligible) => AskKeepsRows(s, user, i, policy, eligible, k);
    case _ => OtherStepKeepsRows(s, e, k);
  }

  lemma {:induction false} NextKeepsInv(s: State, e: Event)
    requires Inv(s)
    ensures Inv(Next(s, e))
  {
    var t := Next(s, e);
    forall r | r in t.requests ensures StepOk(t, r) {
      NextKeepsStep(s, e, r);
    }
    forall k | k in t.installs ensures RowOk(t, k) {
      NextKeepsRow(s, e, k);
    }
  }

  lemma {:induction false} RunKeepsInv(s: State, es: seq<Event>)
    requires Initial(s)
    ensures Inv(Run(s, es))
  {
    if es != [] {
      RunKeepsInv(s, es[..|es| - 1]);
      NextKeepsInv(Run(s, es[..|es| - 1]), es[|es| - 1]);
    }
  }

  // ----- Executions -----

  /** The event switches off the runtime of an execution that exists. */
  predicate Kills(t: State, e: Event, x: int) {
    e.Kill? && x in t.executions && t.executions[x].runtime == Some(e.target)
  }

  /** A kill switch of its runtime was thrown after the execution was created. */
  ghost predicate Killed(s: State, es: seq<Event>, x: int) {
    es != [] && (Killed(s, es[..|es| - 1], x) || Kills(Run(s, es[..|es| - 1]), es[|es| - 1], x))
  }

  function StatusOf(verdict: Verdict, killed: bool): RunStatus {
    match verdict
    case Approved => Completed
    case Rejected => RunRejected
    case Pending => if killed then Cancelled else WaitingApproval
  }

  /** The execution has the status its request and the kill switch prescribe. */
  predicate Follows(s: State, x: int, killed: bool) {
    x in s.executions && x < s.nextExecution &&
    (s.executions[x].request.Some? ==>
       var r := s.executions[x].request.value;
       r in s.requests && r < s.nextRequest && s.requests[r].kind == ExecutionRun &&
       s.executions[x].status == StatusOf(s.requests[r].status, killed))
  }

  lemma {:induction false} NewRunFollows(
      s: State, user: int, runtime: Option<int>, risky: bool, reviewer: Option<int>, x: int, killed: bool)
    requires Follows(s, x, killed)
          || (x !in s.executions && x in CreateExecution(s, user, runtime, risky, reviewer).executions && !killed)
    ensures Follows(CreateExecution(s, user, runtime, risky, reviewer), x, killed)
  {
  }

  lemma {:induction false} AskInstallFollows(
      s: State, user: int, i: Install, policy: Policy, eligible: bool, x: int, killed: bool)
    requires Follows(s, x, killed)
    ensures Follows(RequestInstall(s, user, i, policy, eligible), x, killed)
  {
  }

  lemma {:induction false} DecisionFollows(s: State, user: int, id: int, approve: bool, x: int, killed: bool)
    requires Follows(s, x, killed)
    ensures Follows(Decide(s, user, id, approve), x, killed)
  {
    DecideResolves(s, user, id, approve);
    if CanDecide(s, user, id, approve) && s.requests[id].kind != ExecutionRun {
      assert Decide(s, user, id, approve).executions == s.executions;
    }
  }

  lemma {:induction false} KillFollows(s: State, runtime: int, x: int, killed: bool)
    requires Follows(s, x, killed)
    ensures Follows(KillSwitch(s, runtime), x, killed || Kills(s, Kill(runtime), x))
  {
  }

  lemma {:induction false} NextFollows(s: State, e: Event, x: int, killed: bool)
    requires Follows(s, x, killed)
    ensures Follows(Next(s, e), x, killed || Kills(s, e, x))
  {
    match e
    case NewRun(user, runtime, risky, reviewer) => NewRunFollows(s, user, runtime, risky, reviewer, x, killed);
    case AskInstall(user, i, policy, eligible) => AskInstallFollows(s, user, i, policy, eligible, x, killed);
    case Decision(user, id, approve) => DecisionFollows(s, user, id, approve, x, killed);
    case Kill(runtime) => KillFollows(s, runtime, x, killed);
    case _ =>
  }

  /** Only a new run adds an execution, and none is ever removed. */
  lemma {:induction false} ExecutionsAdded(s: State, e: Event, x: int)
    ensures x in s.executions ==> x in Next(s, e).executions
    ensures x !in s.executions && x in Next(s, e).executions ==> e.NewRun?
  {
  }

  lemma {:induction false} NotKilledBeforeCreation(s: State, es: seq<Event>, x: int)
    requires x !in Run(s, es).executions
    ensures !Killed(s, es, x)
  {
    if es != [] {
      ExecutionsAdded(Run(s, es[..|es| - 1]), es[|es| - 1], x);
      NotKilledBeforeCreation(s, es[..|es| - 1], x);
    }
  }

  lemma {:induction false} RunFollows(s: State, es: seq<Event>, x: int)
    requires Initial(s) && x in Run(s, es).executions
    ensures Follows(Run(s, es), x, Killed(s, es, x))
  {
    var most, e := es[..|es| - 1], es[|es| - 1];
    var t := Run(s, most);
    if x in t.executions {
      RunFollows(s, most, x);
      NextFollows(t, e, x, Killed(s, most, x));
    } else {
      NotKilledBeforeCreation(s, most, x);
      ExecutionsAdded(t, e, x);
      NewRunFollows(t, e.user, e.runtime, e.risky, e.reviewer, x, false);
    }
  }

  /** In every interleaving with the kill switch, the status of an execution that was created
      with an approval request is a function of that request and of whether its runtime was
      switched off since: approved means completed, rejected means rejected, and a pending
      request means waiting or, after a kill, cancelled. In particular a cancelled execution
      is completed by a later approval. */
  lemma {:induction false} ExecutionFollowsRequest(s: State, es: seq<Event>, x: int)
    requires Initial(s) && x in Run(s, es).executions && Run(s, es).executions[x].request.Some?
    ensures var t := Run(s, es);
            var r := t.executions[x].request.value;
            r in t.requests && t.requests[r].kind == ExecutionRun &&
            t.executions[x].status == StatusOf(t.requests[r].status, Killed(s, es, x))
  {
    RunFollows(s, es, x);
  }

  /** Cancellation is not final: there is a run in which a cancelled execution completes. */
  lemma {:induction false} CancelledCanComplete(s: State, user: int, reviewer: int, runtime: int)
    requires Initial(s) && user != reviewer
    ensures var killed := [NewRun(user, Some(runtime), true, None), Kill(runtime)];
            var x := s.nextExecution;
            x in Run(s, killed).executions && Run(s, killed).executions[x].status == Cancelled &&
            x in Run(s, killed + [Decision(reviewer, s.nextRequest, true)]).executions &&
            Run(s, killed + [Decision(reviewer, s.nextRequest, true)]).executions[x].status == Completed
  {
    var one := [NewRun(user, Some(runtime), true, None)];
    var killed := one + [Kill(runtime)];
    var all := killed + [Decision(reviewer, s.nextRequest, true)];
    assert one[..0] == [] && Run(s, one[..0]) == s;
    assert killed[..1] == one && all[..2] == killed;
    assert Run(s, one) == CreateExecution(s, user, Some(runtime), true, None);
    assert Run(s, killed) == KillSwitch(Run(s, one), runtime);
    assert Run(s, all) == Decide(Run(s, killed), reviewer, s.nextRequest, true);
  }

  // ----- Decisions -----

  datatype Resolution = Resolution(user: int, approve: bool)

  function ResolvedBy(t: State, e: Event, id: int): seq<Resolution> {
    if e.Decision? && e.id == id && CanDecide(t, e.user, e.id, e.approve) then [Resolution(e.user, e.approve)] else []
  }

  /** The accepted decisions on a request, oldest first. */
  ghost function Resolutions(s: State, es: seq<Event>, id: int): seq<Resolution> {
    if es == [] then []
    else Resolutions(s, es[..|es| - 1], id) + ResolvedBy(Run(s, es[..|es| - 1]), es[|es| - 1], id)
  }

  /** Each request is resolved at most once, never by its requester; request and approval step
      say whether and how, and the step says by whom. */
  lemma {:induction false} ResolvedAtMostOnce(s: State, es: seq<Event>, id: int)
    requires Initial(s)
    ensures var t, log := Run(s, es), Resolutions(s, es, id);
            if id in t.requests then
              id in t.steps && t.steps[id].status == t.requests[id].status &&
              match t.requests[id].status
              case Pending => log == []
              case Approved =>
                |log| == 1 && log[0].approve && log[0].user != t.requests[id].requester &&
                t.steps[id].reviewer == Some(log[0].user)
              case Rejected =>
                |log| == 1 && !log[0].approve && log[0].user != t.requests[id].requester &&
                t.steps[id].reviewer == Some(log[0].user)
            else log == []
  {
    RunKeepsInv(s, es);
    assert id in Run(s, es).requests ==> StepOk(Run(s, es), id);
    if es != [] {
      var t := Run(s, es[..|es| - 1]);
      ResolvedAtMostOnce(s, es[..|es| - 1], id);
      RunKeepsInv(s, es[..|es| - 1]);
      assert id in t.requests ==> StepOk(t, id);
      RequestStep(t, es[|es| - 1], id);
    }
  }

  /** Only an accepted decision changes a request and its step. */
  lemma {:induction false} RequestStep(t: State, e: Event, id: int)
    requires Inv(t)
    ensures id in t.requests ==>
              id in Next(t, e).requests && id in Next(t, e).steps &&
              if ResolvedBy(t, e, id) == [] then
                Next(t, e).requests[id] == t.requests[id] && Next(t, e).steps[id] == t.steps[id]
              else
                var verdict := if e.approve then Approved else Rejected;
                Next(t, e).requests[id] == t.requests[id].(status := verdict) &&
                Next(t, e).steps[id] == Step(Some(e.user), verdict)
    ensures id !in t.requests && id in Next(t, e).requests ==> Next(t, e).requests[id].status == Pending
  {
    assert forall r | r in t.requests :: StepOk(t, r);
    match e
    case Decision(user, r, approve) =>
      DecideResolves(t, user, r, approve);
    case _ =>
      OtherStepAdds(t, e);
  }

  // ----- Installs -----

  /** An accepted approval applied the install of request r for a requester who then owned
      the profile. */
  predicate AppliesForOwner(t: State, e: Event, r: int) {
    e.Decision? && e.id == r && e.approve && CanDecide(t, e.user, r, true) &&
    t.requests[r].kind == SkillInstall && t.requests[r].meta.Some? &&
    Owns(t, t.requests[r].requester, t.requests[r].meta.value.profile)
  }

  ghost predicate AppliedForOwner(s: State, es: seq<Event>, r: int) {
    es != [] && (AppliedForOwner(s, es[..|es| - 1], r) || AppliesForOwner(Run(s, es[..|es| - 1]), es[|es| - 1], r))
  }

  /** With any number of overlapping requests for one profile and skill: a parked row names a
      request for exactly its profile, skill and version that is still pending; an installed
      row that names a request names an approved one, and the requester owned the profile
      when the approval was applied. */
  lemma {:induction false} InstallsFollowRequests(s: State, es: seq<Event>, k: (int, int))
    requires Initial(s) && k in Run(s, es).installs
    ensures var t := Run(s, es);
            var row := t.installs[k];
            (row.status == PendingApproval ==> row.request.Some?) &&
            (row.request.Some? ==>
               var r := row.request.value;
               r in t.requests && t.requests[r].kind == SkillInstall &&
               t.requests[r].meta == Some(Install(k.0, k.1, row.version)) &&
               (row.status == PendingApproval <==> t.requests[r].status == Pending) &&
               (row.status == Installed <==> t.requests[r].status == Approved) &&
               (row.status == InstallRejected <==> t.requests[r].status == Rejected) &&
               (row.status == Installed ==> AppliedForOwner(s, es, r)))
  {
    RunKeepsInv(s, es);
    assert RowOk(Run(s, es), k);
    var row := Run(s, es).installs[k];
    if row.request.Some? && row.status == Installed {
      ApprovedInstallWasApplied(s, es, row.request.value);
    }
  }

  lemma {:induction false} ApprovedInstallWasApplied(s: State, es: seq<Event>, r: int)
    requires Initial(s) && r in Run(s, es).requests
    requires Run(s, es).requests[r].kind == SkillInstall && Run(s, es).requests[r].status == Approved
    ensures AppliedForOwner(s, es, r)
  {
    var t, e := Run(s, es[..|es| - 1]), es[|es| - 1];
    RunKeepsInv(s, es[..|es| - 1]);
    RequestStep(t, e, r);
    if r in t.requests && t.requests[r].status == Approved {
      ApprovedInstallWasApplied(s, es[..|es| - 1], r);
    }
  }
}
