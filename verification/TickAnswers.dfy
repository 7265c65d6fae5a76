/** How a claimed task ends, case by case, with every marker and message spelled out. */
module TickAnswers {
  import opened Texts
  import opened TickModel

  lemma BlankJoined(a: string, b: string)
    requires Blank(a) && Blank(b)
    ensures Blank(a + b)
  {
  }

  /** What stripping leaves: the text between its leading and trailing spaces. */
  lemma {:induction false} TrimmedBetween(s: string) returns (before: string, after: string)
    ensures Blank(before) && Blank(after) && s == before + Trimmed(s) + after
    ensures Trimmed(s) != "" ==> !Space(Trimmed(s)[0]) && !Space(Trimmed(s)[|Trimmed(s)| - 1])
  {
    before, after := "", "";
    if s != "" && Space(s[0]) {
      var rest := s[1..];
      var head, tail := TrimmedBetween(rest);
      BlankJoined([s[0]], head);
      before, after := [s[0]] + head, tail;
      assert s == [s[0]] + rest;
    } else if s != "" && Space(s[|s| - 1]) {
      var rest, last := s[..|s| - 1], s[|s| - 1];
      var head, tail := TrimmedBetween(rest);
      BlankJoined(tail, [last]);
      before, after := head, tail + [last];
      assert s == rest + [last];
    }
  }

  /** Case does not matter, and a text without capitals is its own lower case. */
  lemma LowerIgnoresCase(s: string, t: string)
    requires |s| == |t|
    requires forall i | 0 <= i < |s| :: t[i] == s[i] || ('A' <= s[i] <= 'Z' && t[i] as int == s[i] as int + 32)
    requires forall i | 0 <= i < |t| :: !('A' <= t[i] <= 'Z') && t[i] != '\U{212a}'
    ensures Lower(s) == t
  {
    forall i | 0 <= i < |s| ensures Lower(s)[i] == t[i] {
      if s[i] != t[i] { assert LowerChar(s[i]) as int == t[i] as int; }
    }
  }

  /** A call is admitted exactly when it is authorized, below the cap, valid, believable,
      enabled, and proposed fewer times than the threshold; each refusal has its own cause. */
  lemma AdmittedExactly(l: Limits, g: Guard, k: CallKey, a: Asked)
    ensures var (after, v) := Admitted(l, g, k, a);
            && (v == Allow <==>
                  a.authorized && g.used < l.maxCalls && a.valid && !a.certain && SeenOf(g, k) < l.maxRepeat && a.enabled)
            && (v == Deny("unauthorized") <==> !a.authorized)
            && (v == Deny("tool_call_cap_reached") <==> a.authorized && l.maxCalls <= g.used)
            && (v == Block("malformed_payload") <==> a.authorized && g.used < l.maxCalls && !a.valid)
            && (v == Block("hallucination_detected") <==> a.authorized && g.used < l.maxCalls && a.valid && a.certain)
            && (v == Block("repetitive_loop_detected") <==>
                  a.authorized && g.used < l.maxCalls && a.valid && !a.certain && l.maxRepeat <= SeenOf(g, k))
            && (v == Deny("capability_disabled") <==>
                  a.authorized && g.used < l.maxCalls && a.valid && !a.certain && SeenOf(g, k) < l.maxRepeat && !a.enabled)
  {
  }

  /** A proposal is counted exactly when it got as far as the repeat check, and a call when
      it is admitted. */
  lemma CountedExactly(l: Limits, g: Guard, k: CallKey, a: Asked, other: CallKey)
    ensures var (after, v) := Admitted(l, g, k, a);
            && after.used == g.used + (if v == Allow then 1 else 0)
            && SeenOf(after, other) == SeenOf(g, other)
                 + (if other == k && a.authorized && g.used < l.maxCalls && a.valid && !a.certain then 1 else 0)
  {
  }

  /** The output holds no marker key and no text that owns up to being made up. */
  predicate Believable(output: map<string, Value>) {
    && "<HALLUCINATED>" !in output && "__mock_garbage__" !in output
    && forall k | k in output && output[k].Text? ::
         Lower(Trimmed(output[k].text)) != "hallucinated" && Lower(Trimmed(output[k].text)) != "i made this up"
  }

  predicate Reached(l: Limits, handled: set<string>, k: Tick, t: Task) {
    t.kind in handled && t.kind != "" && k.g.used < l.maxCalls && SeenOf(k.g, KeyOf(t)) < l.maxRepeat
  }

  /** A task is completed and paid for exactly when its tool was called, returned, and gave
      an output that is believable. */
  lemma CompletedExactly(l: Limits, handled: set<string>, k: Tick, t: Task)
    requires !k.broken
    ensures Served(l, handled, k, t).calls == k.calls + [Complete(t.id), Spend(1)]
       <==> Reached(l, handled, k, t) && t.outcome.Returned? && Believable(t.outcome.output)
  {
    var after := Served(l, handled, k, t).calls;
    var done := k.calls + [Complete(t.id), Spend(1)];
    assert done[|k.calls|] == Complete(t.id);
    if t.kind in handled { NeverIllegal(l, k.g, t); }
    if after != done { assert |after| == |k.calls| + 1; }
  }

  /** What a task that is not completed is failed with. */
  function Message(l: Limits, handled: set<string>, k: Tick, t: Task): string {
    if t.kind !in handled then "no_handler:" + t.kind
    else if t.kind == "" then "REJECTED:empty_task_type"
    else if l.maxCalls <= k.g.used then "FAILED:tool_call_cap_reached"
    else if l.maxRepeat <= SeenOf(k.g, KeyOf(t)) then "BLOCKED:repetitive_loop_detected"
    else
      match t.outcome
      case Unauthorized(text) => "BLOCKED:unauthorized:" + text
      case Raised(name) => "FAILED:" + name
      case Returned(_) => "BLOCKED:hallucination_detected"
  }

  lemma RejectedText()
    ensures StateName(Rejected) + ":" + "empty_task_type" == "REJECTED:empty_task_type"
  {
  }

  lemma CapText()
    ensures StateName(Failed) + ":" + "tool_call_cap_reached" == "FAILED:tool_call_cap_reached"
  {
  }

  lemma LoopText()
    ensures StateName(Blocked) + ":" + "repetitive_loop_detected" == "BLOCKED:repetitive_loop_detected"
  {
  }

  lemma FabricatedText()
    ensures StateName(Blocked) + ":" + "hallucination_detected" == "BLOCKED:hallucination_detected"
  {
  }

  lemma RaisedText(name: string)
    ensures StateName(Failed) + ":" + name == "FAILED:" + name
  {
    assert "FAILED" + ":" == "FAILED:";
  }

  lemma UnauthorizedText(text: string)
    ensures StateName(Blocked) + ":" + ("unauthorized:" + text) == "BLOCKED:unauthorized:" + text
  {
    assert "BLOCKED" + ":" + "unauthorized:" == "BLOCKED:unauthorized:";
    assert "BLOCKED" + ":" + ("unauthorized:" + text) == "BLOCKED" + ":" + "unauthorized:" + text;
  }

  /** The state and the reason an executed task ends with. */
  lemma EndsWith(l: Limits, handled: set<string>, k: Tick, t: Task, state: State, reason: string)
    requires !k.broken && t.kind in handled && Executed(l, k.g, t).1 == Finished(state, reason) && state != Completed
    ensures Served(l, handled, k, t).calls == k.calls + [Fail(t.id, StateName(state) + ":" + reason)]
  {
  }

  lemma RefusedMessage(l: Limits, handled: set<string>, k: Tick, t: Task)
    requires !k.broken && t.kind in handled && !Reached(l, handled, k, t)
    ensures Served(l, handled, k, t).calls == k.calls + [Fail(t.id, Message(l, handled, k, t))]
  {
    if t.kind == "" {
      EndsWith(l, handled, k, t, Rejected, "empty_task_type");
      RejectedText();
    } else if l.maxCalls <= k.g.used {
      EndsWith(l, handled, k, t, Failed, "tool_call_cap_reached");
      CapText();
    } else {
      EndsWith(l, handled, k, t, Blocked, "repetitive_loop_detected");
      LoopText();
    }
  }

  lemma RanMessage(l: Limits, handled: set<string>, k: Tick, t: Task)
    requires !k.broken && Reached(l, handled, k, t) && (t.outcome.Returned? ==> !Believable(t.outcome.output))
    ensures Served(l, handled, k, t).calls == k.calls + [Fail(t.id, Message(l, handled, k, t))]
  {
    match t.outcome {
      case Unauthorized(text) =>
        EndsWith(l, handled, k, t, Blocked, "unauthorized:" + text);
        UnauthorizedText(text);
      case Raised(name) =>
        EndsWith(l, handled, k, t, Failed, name);
        RaisedText(name);
      case Returned(_) =>
        EndsWith(l, handled, k, t, Blocked, "hallucination_detected");
        FabricatedText();
    }
  }

  /** Every other task is failed with the message of its own cause. */
  lemma FailedExactly(l: Limits, handled: set<string>, k: Tick, t: Task)
    requires !k.broken
    requires !(Reached(l, handled, k, t) && t.outcome.Returned? && Believable(t.outcome.output))
    ensures Served(l, handled, k, t).calls == k.calls + [Fail(t.id, Message(l, handled, k, t))]
  {
    if t.kind !in handled {
      assert Served(l, handled, k, t).calls == k.calls + [Fail(t.id, "no_handler:" + t.kind)];
    } else if Reached(l, handled, k, t) {
      RanMessage(l, handled, k, t);
    } else {
      RefusedMessage(l, handled, k, t);
    }
  }
}
