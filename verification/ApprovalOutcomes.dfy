/** What each approval request does to the tables, in terms of the tables alone. */
module ApprovalOutcomes {
  import opened Common
  import opened ApprovalModel
  import opened ApprovalTheorems

  // ----- Installing -----

  /** A request for a skill install: nothing happens without profile and version, for a skill or
      version that is not on offer, or under a disabled policy. An allowed install is put in
      place for the owner of the profile and nobody else. Under an approval policy a pending
      request of the user is filed with its step, and the row is parked for it whoever owns the
      profile, keeping the runtime state it had. */
  lemma {:induction false} InstallRequested(s: State, user: int, i: Install, policy: Policy, eligible: bool)
    ensures var t, k, id := RequestInstall(s, user, i, policy, eligible), (i.profile, i.skill), s.nextRequest;
            if i.profile == 0 || i.version == 0 || !eligible || policy == Disabled then t == s
            else if policy == Allowed then
              if i.profile in s.owners && s.owners[i.profile] == user
              then t == s.(installs := s.installs[k := Row(i.version, Installed, PendingMockApply, None)])
              else t == s
            else
              t == s.(requests := s.requests[id := Request(SkillInstall, user, None, Pending, Some(i))],
                      steps := s.steps[id := Step(None, Pending)],
                      installs := s.installs[k := Row(i.version, PendingApproval,
                                                      if k in s.installs then s.installs[k].applied else NotApplied,
                                                      Some(id))],
                      nextRequest := id + 1)
  {
  }

  // ----- Deciding -----

  /** A decision is taken exactly when the request exists, is pending and is not the user's own,
      and, for a skill install, names profile, skill and version, and to be approved belongs to
      a requester who owns the profile. */
  lemma {:induction false} DecisionTakenIff(s: State, user: int, id: int, approve: bool)
    ensures Decide(s, user, id, approve) != s <==>
              id in s.requests && s.requests[id].status == Pending && s.requests[id].requester != user &&
              (s.requests[id].kind == SkillInstall ==>
                 s.requests[id].meta.Some? &&
                 var i := s.requests[id].meta.value;
                 i.profile != 0 && i.skill != 0 && i.version != 0 &&
                 (approve ==> i.profile in s.owners && s.owners[i.profile] == s.requests[id].requester))
  {
    DecideResolves(s, user, id, approve);
  }

  lemma {:induction false} DecisionResolves(s: State, user: int, id: int, approve: bool)
    requires Inv(s) && Decide(s, user, id, approve) != s
    ensures CanDecide(s, user, id, approve) && id in s.requests
    ensures var t := Decide(s, user, id, approve);
            var verdict := if approve then Approved else Rejected;
            t.requests == s.requests[id := s.requests[id].(status := verdict)] &&
            t.steps == s.steps[id := Step(Some(user), verdict)]
  {
    DecideResolves(s, user, id, approve);
    assert StepOk(s, id);
  }

  /** The install rows after a decision: an approved install is put in place; after a rejection
      the rows that still name the request are rejected; other kinds leave them alone. */
  lemma {:induction false} DecidedInstalls(s: State, user: int, id: int, approve: bool)
    requires Decide(s, user, id, approve) != s && id in s.requests
    ensures var t, r := Decide(s, user, id, approve), s.requests[id];
            if r.kind == SkillInstall && approve then
              r.meta.Some? &&
              t.installs == s.installs[(r.meta.value.profile, r.meta.value.skill) :=
                                         Row(r.meta.value.version, Installed, PendingMockApply, Some(id))]
            else
              t.installs.Keys == s.installs.Keys && forall k | k in s.installs ::
                t.installs[k] == if r.kind == SkillInstall && s.installs[k].request == Some(id)
                                 then s.installs[k].(status := InstallRejected, applied := NotApplied)
                                 else s.installs[k]
  {
    assert CanDecide(s, user, id, approve);
  }

  /** The executions after a decision: those that name a decided execution request are completed
      or rejected; other kinds leave them alone. */
  lemma {:induction false} DecidedExecutions(s: State, user: int, id: int, approve: bool)
    requires Decide(s, user, id, approve) != s && id in s.requests
    ensures var t, r := Decide(s, user, id, approve), s.requests[id];
            t.executions.Keys == s.executions.Keys && forall x | x in s.executions ::
              t.executions[x] == if r.kind == ExecutionRun && s.executions[x].request == Some(id)
                                 then s.executions[x].(status := if approve then Completed else RunRejected)
                                 else s.executions[x]
  {
    assert CanDecide(s, user, id, approve);
  }

  /** A decision that is taken marks the request, and its step with who took it; beyond the
      install rows and executions nothing else changes. */
  lemma {:induction false} DecisionTaken(s: State, user: int, id: int, approve: bool)
    requires Inv(s) && Decide(s, user, id, approve) != s
    ensures id in s.requests
    ensures var t := Decide(s, user, id, approve);
            var verdict := if approve then Approved else Rejected;
            t == s.(requests := s.requests[id := s.requests[id].(status := verdict)],
                    steps := s.steps[id := Step(Some(user), verdict)],
                    installs := t.installs, executions := t.executions)
  {
    DecisionResolves(s, user, id, approve);
  }

  // ----- Executions -----

  /** A risky execution waits for a pending request of its own, put to the reviewer; any other
      is completed at once. */
  lemma {:induction false} ExecutionCreated(
      s: State, user: int, runtime: Option<int>, risky: bool, reviewer: Option<int>)
    ensures var t, id, x := CreateExecution(s, user, runtime, risky, reviewer), s.nextRequest, s.nextExecution;
            if risky then
              t == s.(requests := s.requests[id := Request(ExecutionRun, user, reviewer, Pending, None)],
                      steps := s.steps[id := Step(reviewer, Pending)],
                      executions := s.executions[x := Execution(WaitingApproval, runtime, Some(id))],
                      nextRequest := id + 1, nextExecution := x + 1)
            else t == s.(executions := s.executions[x := Execution(Completed, runtime, None)], nextExecution := x + 1)
  {
  }

  /** The kill switch marks the runtime, if it exists, as killed and stopped, and cancels exactly
      the executions on it that are queued, running or waiting for approval. */
  lemma {:induction false} RuntimeKilled(s: State, runtime: int)
    ensures var t := KillSwitch(s, runtime);
            t == s.(executions := t.executions, runtimes := t.runtimes) &&
            t.runtimes.Keys == s.runtimes.Keys &&
            (forall r | r in s.runtimes ::
               t.runtimes[r] == if r == runtime then Runtime(true, Stopped, Stopped, Stopped) else s.runtimes[r]) &&
            t.executions.Keys == s.executions.Keys &&
            forall x | x in s.executions ::
              t.executions[x]
              == if s.executions[x].runtime == Some(runtime) &&
                    (s.executions[x].status == Queued || s.executions[x].status == Running ||
                     s.executions[x].status == WaitingApproval)
                 then s.executions[x].(status := Cancelled) else s.executions[x]
  {
  }
}
