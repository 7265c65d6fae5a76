/** One tick of the kernel: bounded admission of tool calls, the execution state machine,
    and the settlement of every claimed task. */
module TickModel {
  import opened Wrappers
  import opened Texts

  datatype State = Planning | Executing | Validating | Completed | Failed | Blocked | Rejected

  /** The transition table. */
  function Successors(s: State): set<State> {
    match s
    case Planning => {Executing, Failed, Rejected}
    case Executing => {Validating, Failed, Blocked}
    case Validating => {Completed, Failed, Blocked}
    case _ => {}
  }

  /** A call is counted under its tool and, when given, the hash of its arguments. */
  datatype CallKey = CallKey(tool: string, args: Option<string>)

  datatype Limits = Limits(maxCalls: int, maxRepeat: int)

  datatype Guard = Guard(used: nat, seen: map<CallKey, nat>)

  datatype Verdict = Allow | Deny(reason: string) | Block(reason: string)

  function SeenOf(g: Guard, k: CallKey): nat {
    if k in g.seen then g.seen[k] else 0
  }

  function Noted(g: Guard, k: CallKey): Guard {
    g.(seen := g.seen[k := SeenOf(g, k) + 1])
  }

  /** What the executor asks is whether the capabilities hold, the payload is valid and
      the output is believable; certain means the score reaches 0.95. */
  datatype Asked = Asked(authorized: bool, valid: bool, certain: bool, enabled: bool)

  function Admitted(l: Limits, g: Guard, k: CallKey, a: Asked): (Guard, Verdict) {
    if !a.authorized then (g, Deny("unauthorized"))
    else if g.used >= l.maxCalls then (g, Deny("tool_call_cap_reached"))
    else if !a.valid then (g, Block("malformed_payload"))
    else if a.certain then (g, Block("hallucination_detected"))
    else if SeenOf(Noted(g, k), k) > l.maxRepeat then (Noted(g, k), Block("repetitive_loop_detected"))
    else if !a.enabled then (Noted(g, k), Deny("capability_disabled"))
    else (Noted(g, k).(used := g.used + 1), Allow)
  }

  const Defaults: Asked := Asked(true, true, false, true)

  datatype Value = Text(text: string) | Other

  datatype ToolOutcome = Unauthorized(text: string) | Raised(name: string) | Returned(output: map<string, Value>)

  /** A claimed row with what its tool will do if it is called. */
  datatype Task = Task(id: string, kind: string, payload: string, outcome: ToolOutcome)

  predicate Fabricated(v: Value) {
    v.Text? && (Lower(Trimmed(v.text)) == "hallucinated" || Lower(Trimmed(v.text)) == "i made this up")
  }

  predicate Clean(output: map<string, Value>) {
    && "<HALLUCINATED>" !in output && "__mock_garbage__" !in output
    && forall k | k in output :: !Fabricated(output[k])
  }

  datatype Result = Finished(state: State, reason: string) | Illegal

  /** A terminal result, unless the table does not allow the move. */
  function Finish(current: State, terminal: State, reason: string): Result {
    if terminal in Successors(current) then Finished(terminal, reason) else Illegal
  }

  predicate BlockingReason(reason: string) {
    reason == "malformed_payload" || reason == "hallucination_detected" || reason == "repetitive_loop_detected"
  }

  function Settled(outcome: ToolOutcome): Result {
    match outcome
    case Unauthorized(text) => Finish(Executing, Blocked, "unauthorized:" + text)
    case Raised(name) => Finish(Executing, Failed, name)
    case Returned(output) =>
      if !Clean(output) then Finish(Validating, Blocked, "hallucination_detected")
      else Finish(Validating, Completed, "")
  }

  function KeyOf(t: Task): CallKey {
    CallKey(t.kind, Some(t.payload))
  }

  /** The guard, the result, and whether the tool was called. */
  function Executed(l: Limits, g: Guard, t: Task): (Guard, Result, bool) {
    if t.kind == "" then (g, Finish(Planning, Rejected, "empty_task_type"), false)
    else
      var (after, verdict) := Admitted(l, g, KeyOf(t), Defaults);
      match verdict
      case Allow => (after, Settled(t.outcome), true)
      case Deny(reason) => (after, Finish(Executing, if BlockingReason(reason) then Blocked else Failed, reason), false)
      case Block(reason) => (after, Finish(Executing, if BlockingReason(reason) then Blocked else Failed, reason), false)
  }

  /** The calls made on the task source. */
  datatype SourceCall = Complete(id: string) | Fail(id: string, error: string) | Spend(cents: int) | Beat

  function StateName(s: State): string {
    match s
    case Planning => "PLANNING"
    case Executing => "EXECUTING"
    case Validating => "VALIDATING"
    case Completed => "COMPLETED"
    case Failed => "FAILED"
    case Blocked => "BLOCKED"
    case Rejected => "REJECTED"
  }

  /** A tick so far: the guard, the tools called, the source calls, and whether an
      illegal transition escaped. */
  datatype Tick = Tick(g: Guard, runs: seq<CallKey>, calls: seq<SourceCall>, broken: bool)

  function Served(l: Limits, handled: set<string>, k: Tick, t: Task): Tick {
    if k.broken then k
    else if t.kind !in handled then k.(calls := k.calls + [Fail(t.id, "no_handler:" + t.kind)])
    else
      var (g, result, called) := Executed(l, k.g, t);
      var runs := if called then k.runs + [KeyOf(t)] else k.runs;
      if result.Illegal? then Tick(g, runs, k.calls, true)
      else Tick(g, runs, k.calls + Settling(t, result), false)
  }

  /** The source calls that settle an executed task. */
  function Settling(t: Task, result: Result): seq<SourceCall>
    requires result.Finished?
  {
    if result.state == Completed then [Complete(t.id), Spend(1)]
    else [Fail(t.id, StateName(result.state) + ":" + result.reason)]
  }

  function Fresh(): Tick {
    Tick(Guard(0, map[]), [], [], false)
  }

  /** The tick after the given tasks, before its heartbeat. */
  function Ticked(l: Limits, handled: set<string>, tasks: seq<Task>): Tick {
    if tasks == [] then Fresh() else Served(l, handled, Ticked(l, handled, tasks[..|tasks| - 1]), tasks[|tasks| - 1])
  }

  /** Every path through the executor follows the table: no illegal move is ever tried. */
  lemma NeverIllegal(l: Limits, g: Guard, t: Task)
    ensures Executed(l, g, t).1.Finished? && Successors(Executed(l, g, t).1.state) == {}
  {
  }

  /** Guard and runs agree: a call ran for each one used, a key ran no more often than it
      was seen and never beyond the repeat threshold. */
  predicate Bounded(l: Limits, k: Tick) {
    && |k.runs| == k.g.used && (k.g.used == 0 || k.g.used <= l.maxCalls)
    && forall key: CallKey | key in k.runs ::
         multiset(k.runs)[key] <= SeenOf(k.g, key) && multiset(k.runs)[key] <= l.maxRepeat
  }

  lemma RunAdded(runs: seq<CallKey>, k: CallKey, key: CallKey)
    ensures multiset(runs + [k])[key] == multiset(runs)[key] + (if key == k then 1 else 0)
    ensures key !in runs ==> multiset(runs)[key] == 0
  {
    assert key in runs <==> key in multiset(runs);
  }

  lemma AdmissionNotes(l: Limits, g: Guard, k: CallKey, a: Asked, key: CallKey)
    ensures var (after, verdict) := Admitted(l, g, k, a);
            && SeenOf(after, key) >= SeenOf(g, key)
            && (verdict == Allow ==> SeenOf(after, k) == SeenOf(g, k) + 1 <= l.maxRepeat && g.used < l.maxCalls)
            && after.used == g.used + (if verdict == Allow then 1 else 0)
  {
  }

  lemma ServedRuns(l: Limits, handled: set<string>, k: Tick, t: Task)
    requires !k.broken && t.kind in handled && t.kind != ""
    ensures var after, (g, verdict) := Served(l, handled, k, t), Admitted(l, k.g, KeyOf(t), Defaults);
            after.g == g && after.runs == if verdict == Allow then k.runs + [KeyOf(t)] else k.runs
  {
  }

  lemma ServedBounded(l: Limits, handled: set<string>, k: Tick, t: Task)
    requires Bounded(l, k)
    ensures Bounded(l, Served(l, handled, k, t))
  {
    if !k.broken && t.kind in handled && t.kind != "" {
      var after := Served(l, handled, k, t);
      ServedRuns(l, handled, k, t);
      AdmissionNotes(l, k.g, KeyOf(t), Defaults, KeyOf(t));
      forall key: CallKey | key in after.runs
        ensures multiset(after.runs)[key] <= SeenOf(after.g, key) && multiset(after.runs)[key] <= l.maxRepeat
      {
        RunAdded(k.runs, KeyOf(t), key);
        AdmissionNotes(l, k.g, KeyOf(t), Defaults, key);
      }
    } else {
      assert Served(l, handled, k, t).g == k.g && Served(l, handled, k, t).runs == k.runs;
    }
  }

  /** However many tasks are claimed, at most maxCalls tools run, and none more than
      maxRepeat times on one payload. */
  lemma {:induction false} TickBounded(l: Limits, handled: set<string>, tasks: seq<Task>)
    ensures Bounded(l, Ticked(l, handled, tasks)) && !Ticked(l, handled, tasks).broken
  {
    if tasks != [] {
      var before := Ticked(l, handled, tasks[..|tasks| - 1]);
      TickBounded(l, handled, tasks[..|tasks| - 1]);
      ServedBounded(l, handled, before, tasks[|tasks| - 1]);
      NeverIllegal(l, before.g, tasks[|tasks| - 1]);
    }
  }

  /** The ids settled by a list of source calls, in order. */
  function Settlements(calls: seq<SourceCall>): seq<string> {
    if calls == [] then []
    else
      var last := calls[|calls| - 1];
      Settlements(calls[..|calls| - 1]) + (if last.Complete? || last.Fail? then [last.id] else [])
  }

  function Ids(tasks: seq<Task>): seq<string> {
    if tasks == [] then [] else Ids(tasks[..|tasks| - 1]) + [tasks[|tasks| - 1].id]
  }

  function Completions(calls: seq<SourceCall>): nat {
    if calls == [] then 0
    else Completions(calls[..|calls| - 1]) + (if calls[|calls| - 1].Complete? then 1 else 0)
  }

  function Spent(calls: seq<SourceCall>): int {
    if calls == [] then 0
    else Spent(calls[..|calls| - 1]) + (if calls[|calls| - 1].Spend? then calls[|calls| - 1].cents else 0)
  }

  lemma Appended(calls: seq<SourceCall>, c: SourceCall)
    ensures Settlements(calls + [c]) == Settlements(calls) + (if c.Complete? || c.Fail? then [c.id] else [])
    ensures Completions(calls + [c]) == Completions(calls) + (if c.Complete? then 1 else 0)
    ensures Spent(calls + [c]) == Spent(calls) + (if c.Spend? then c.cents else 0)
  {
    assert (calls + [c])[..|calls|] == calls;
  }

  lemma SettlingCounts(calls: seq<SourceCall>, t: Task, result: Result)
    requires result.Finished?
    ensures var after := calls + Settling(t, result);
            && Settlements(after) == Settlements(calls) + [t.id]
            && Spent(after) - Spent(calls) == Completions(after) - Completions(calls)
  {
    if result.state == Completed {
      Appended(calls, Complete(t.id));
      Appended(calls + [Complete(t.id)], Spend(1));
      assert calls + [Complete(t.id), Spend(1)] == calls + [Complete(t.id)] + [Spend(1)];
    } else {
      Appended(calls, Fail(t.id, StateName(result.state) + ":" + result.reason));
    }
  }

  lemma ServedSettles(l: Limits, handled: set<string>, k: Tick, t: Task)
    requires !k.broken
    ensures var after := Served(l, handled, k, t);
            && Settlements(after.calls) == Settlements(k.calls) + [t.id]
            && Spent(after.calls) - Spent(k.calls) == Completions(after.calls) - Completions(k.calls)
  {
    if t.kind in handled {
      NeverIllegal(l, k.g, t);
      SettlingCounts(k.calls, t, Executed(l, k.g, t).1);
    } else {
      Appended(k.calls, Fail(t.id, "no_handler:" + t.kind));
    }
  }

  /** Every claimed task is settled by exactly one complete or fail, in claim order, and
      the spend equals the completions. */
  lemma {:induction false} TickSettles(l: Limits, handled: set<string>, tasks: seq<Task>)
    ensures var calls := Ticked(l, handled, tasks).calls;
            Settlements(calls) == Ids(tasks) && Spent(calls) == Completions(calls)
  {
    if tasks != [] {
      var n := |tasks| - 1;
      TickSettles(l, handled, tasks[..n]);
      TickBounded(l, handled, tasks[..n]);
      ServedSettles(l, handled, Ticked(l, handled, tasks[..n]), tasks[n]);
    }
  }

  /** A task's tool is called exactly when it has a kind and a handler, the cap is not
      reached, and its payload was proposed fewer times than the threshold. */
  lemma CalledExactly(l: Limits, handled: set<string>, k: Tick, t: Task)
    requires !k.broken
    ensures |Served(l, handled, k, t).runs| == |k.runs| + 1
       <==> t.kind in handled && t.kind != "" && k.g.used < l.maxCalls && SeenOf(k.g, KeyOf(t)) < l.maxRepeat
  {
  }
}
