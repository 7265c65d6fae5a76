/** The guardian, the executor and the tick loop as code that updates its objects. */
module TickKernel {
  import opened TickModel

  class LoopGuardian {
    const limits: Limits
    var used: nat
    var seen: map<CallKey, nat>

    ghost function State(): Guard
      reads this
    {
      Guard(used, seen)
    }

    constructor (limits: Limits)
      ensures this.limits == limits && State() == Guard(0, map[])
    {
      this.limits := limits;
      used, seen := 0, map[];
    }

    method ResetTick()
      modifies this
      ensures State() == Guard(0, map[])
    {
      used, seen := 0, map[];
    }

    method Admit(k: CallKey, a: Asked) returns (v: Verdict)
      modifies this
      ensures (State(), v) == Admitted(limits, old(State()), k, a)
    {
      if !a.authorized { return Deny("unauthorized"); }
      if used >= limits.maxCalls { return Deny("tool_call_cap_reached"); }
      if !a.valid { return Block("malformed_payload"); }
      if a.certain { return Block("hallucination_detected"); }
      seen := seen[k := (if k in seen then seen[k] else 0) + 1];
      if seen[k] > limits.maxRepeat { return Block("repetitive_loop_detected"); }
      if !a.enabled { return Deny("capability_disabled"); }
      used := used + 1;
      return Allow;
    }
  }

  class Executor {
    const guardian: LoopGuardian
    var runs: seq<CallKey>
    var interventions: seq<(State, string)>

    constructor (guardian: LoopGuardian)
      ensures this.guardian == guardian && runs == [] && interventions == []
    {
      this.guardian := guardian;
      runs, interventions := [], [];
    }

    method FinishWith(current: State, terminal: State, reason: string) returns (r: Result)
      modifies this`interventions
      ensures r == Finish(current, terminal, reason)
      ensures interventions == old(interventions)
              + (if r.Finished? && (terminal == Failed || terminal == Blocked) then [(terminal, reason)] else [])
    {
      if terminal !in Successors(current) { return Illegal; }
      if terminal == Failed || terminal == Blocked {
        interventions := interventions + [(terminal, reason)];
      }
      return Finished(terminal, reason);
    }

    /** Runs one task; every failed or blocked one is recorded as an intervention. */
    method Run(t: Task) returns (r: Result)
      modifies this, guardian
      ensures var (g, result, called) := Executed(guardian.limits, old(guardian.State()), t);
              && guardian.State() == g && r == result
              && runs == old(runs) + (if called then [KeyOf(t)] else [])
      ensures interventions == old(interventions)
              + (if r.Finished? && (r.state == Failed || r.state == Blocked) then [(r.state, r.reason)] else [])
    {
      var state := Planning;
      if t.kind == "" {
        r := FinishWith(state, Rejected, "empty_task_type");
        return;
      }
      state := Executing;
      var verdict := guardian.Admit(KeyOf(t), Defaults);
      if verdict != Allow {
        var terminal := if BlockingReason(verdict.reason) then Blocked else Failed;
        r := FinishWith(state, terminal, verdict.reason);
        return;
      }
      runs := runs + [KeyOf(t)];
      match t.outcome {
        case Unauthorized(text) =>
          r := FinishWith(Executing, Blocked, "unauthorized:" + text);
        case Raised(name) =>
          r := FinishWith(Executing, Failed, name);
        case Returned(output) =>
          state := Validating;
          if !Clean(output) {
            r := FinishWith(state, Blocked, "hallucination_detected");
          } else if Completed !in Successors(state) {
            r := Illegal;
          } else {
            r := Finished(Completed, "");
          }
      }
    }
  }

  /** One heartbeat cycle over the claimed tasks. */
  method RunOneTick(limits: Limits, handled: set<string>, tasks: seq<Task>)
    returns (calls: seq<SourceCall>, runs: seq<CallKey>, count: nat)
    ensures var k := Ticked(limits, handled, tasks);
            calls == k.calls + [Beat] && runs == k.runs && count == |tasks|
    ensures Settlements(calls) == Ids(tasks) && Spent(calls) == Completions(calls)
    ensures |runs| == 0 || |runs| <= limits.maxCalls
    ensures forall key | key in runs :: multiset(runs)[key] <= limits.maxRepeat
  {
    var guardian := new LoopGuardian(limits);
    var executor := new Executor(guardian);
    calls := [];
    var i := 0;
    while i < |tasks|
      invariant i <= |tasks| && guardian.limits == limits && executor.guardian == guardian
      invariant fresh(guardian) && fresh(executor)
      invariant Ticked(limits, handled, tasks[..i]) == Tick(guardian.State(), executor.runs, calls, false)
    {
      var t := tasks[i];
      assert tasks[..i + 1][..i] == tasks[..i];
      NeverIllegal(limits, guardian.State(), t);
      if t.kind !in handled {
        calls := calls + [Fail(t.id, "no_handler:" + t.kind)];
      } else {
        var result := executor.Run(t);
        if result.state == Completed {
          calls := calls + [Complete(t.id)];
          calls := calls + [Spend(1)];
        } else {
          calls := calls + [Fail(t.id, StateName(result.state) + ":" + result.reason)];
        }
      }
      i := i + 1;
    }
    assert tasks[..i] == tasks;
    TickBounded(limits, handled, tasks);
    TickSettles(limits, handled, tasks);
    Appended(calls, Beat);
    calls := calls + [Beat];
    return calls, executor.runs, |tasks|;
  }
}
