/** The approval handlers as they run. A transaction that fails puts back what it wrote. */
module ApprovalStore {
  import opened Common
  import opened ApprovalModel

  class Server {
    var requests: map<int, Request>
    var steps: map<int, Step>
    var executions: map<int, Execution>
    var installs: map<(int, int), Row>
    var owners: map<int, int>
    var runtimes: map<int, Runtime>
    var nextRequest: int
    var nextExecution: int

    function View(): State
      reads this
    {
      State(requests, steps, executions, installs, owners, runtimes, nextRequest, nextExecution)
    }

    method CreateApproval(kind: Kind, requester: int, meta: Option<Install>, reviewer: Option<int>) returns (id: int)
      modifies `requests, `steps, `nextRequest
      ensures id == old(nextRequest)
      ensures View() == old(NewRequest(View(), kind, requester, meta, reviewer))
    {
      id := nextRequest;
      requests := requests[id := Request(kind, requester, reviewer, Pending, meta)];
      nextRequest := id + 1;
      steps := steps[id := Step(reviewer, Pending)];
    }

    method CreateExecution(user: int, runtime: Option<int>, risky: bool, reviewer: Option<int>)
      modifies this
      ensures View() == old(ApprovalModel.CreateExecution(View(), user, runtime, risky, reviewer))
    {
      var status, approval: Option<int> := Completed, None;
      if risky {
        status := WaitingApproval;
        var id := CreateApproval(ExecutionRun, user, None, reviewer);
        approval := Some(id);
      }
      executions := executions[nextExecution := Execution(status, runtime, approval)];
      nextExecution := nextExecution + 1;
    }

    /** Refuses when the user does not own the profile. */
    method ApplyInstall(user: int, i: Install, approval: Option<int>) returns (ok: bool)
      modifies `installs
      ensures ok == Owns(View(), user, i.profile)
      ensures View() == if ok then old(Apply(View(), i, approval)) else old(View())
    {
      if i.profile !in owners || owners[i.profile] != user {
        return false;
      }
      installs := installs[(i.profile, i.skill) := Row(i.version, Installed, PendingMockApply, approval)];
      ok := true;
    }

    method CreateInstallApproval(user: int, i: Install)
      modifies this
      ensures View() == old(Park(NewRequest(View(), SkillInstall, user, Some(i), None), i, nextRequest))
    {
      var id := CreateApproval(SkillInstall, user, Some(i), None);
      var k := (i.profile, i.skill);
      if k in installs {
        installs := installs[k := installs[k].(version := i.version, status := PendingApproval, request := Some(id))];
      } else {
        installs := installs[k := Row(i.version, PendingApproval, NotApplied, Some(id))];
      }
    }

    method RequestInstall(user: int, i: Install, policy: Policy, eligible: bool)
      modifies this
      ensures View() == old(ApprovalModel.RequestInstall(View(), user, i, policy, eligible))
    {
      if i.profile == 0 || i.version == 0 || !eligible || policy == Disabled {
        return;
      }
      if policy == ApprovalRequired {
        CreateInstallApproval(user, i);
        return;
      }
      var ok := ApplyInstall(user, i, None);
    }

    method Decide(user: int, id: int, approve: bool)
      modifies this
      ensures View() == old(ApprovalModel.Decide(View(), user, id, approve))
    {
      if id !in requests || requests[id].requester == user || requests[id].status != Pending {
        return;
      }
      var request, before, stepsBefore := requests[id], requests, steps;
      var verdict := if approve then Approved else Rejected;
      requests := requests[id := request.(status := verdict)];
      if id in steps && steps[id].status == Pending {
        steps := steps[id := Step(Some(user), verdict)];
      }
      match request.kind {
        case SkillInstall =>
          if request.meta.None? || request.meta.value.profile == 0 || request.meta.value.skill == 0
             || request.meta.value.version == 0
          {
            requests, steps := before, stepsBefore;
            return;
          }
          if approve {
            var ok := ApplyInstall(request.requester, request.meta.value, Some(id));
            if !ok {
              requests, steps := before, stepsBefore;
            }
          } else {
            installs := map k | k in installs ::
              if installs[k].request == Some(id)
              then installs[k].(status := InstallRejected, applied := NotApplied) else installs[k];
          }
        case ExecutionRun =>
          var status := if approve then Completed else RunRejected;
          executions := map x | x in executions ::
            if executions[x].request == Some(id) then executions[x].(status := status) else executions[x];
        case OtherKind(_) =>
      }
    }

    method KillSwitch(runtime: int)
      modifies `executions, `runtimes
      ensures View() == old(ApprovalModel.KillSwitch(View(), runtime))
    {
      if runtime in runtimes {
        runtimes := runtimes[runtime := Runtime(true, Stopped, Stopped, Stopped)];
      }
      var runs := executions;
      executions := map x | x in runs ::
        if Killable(runs[x], runtime) then runs[x].(status := Cancelled) else runs[x];
    }
  }
}
