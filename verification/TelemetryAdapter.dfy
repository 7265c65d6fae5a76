/** The telemetry adapter: every attempt ends in exactly one counter, and a failing
    collector is never felt by its caller. */
module TelemetryAdapter {
  import opened TelemetryModel

  datatype Counters = Counters(redaction: nat, sampling: nat, validation: nat, emitted: nat)

  /** One attempt: the event, the random draw, and whether the collector raises. */
  datatype Attempt = Attempt(event: Event, draw: real, fails: bool)

  datatype Ending = Disabled | NotSampled | NotRedacted | NotValid | Emitted | CollectorFailed

  function EndingOf(enabled: bool, rate: real, a: Attempt): Ending {
    if !enabled then Disabled
    else if rate < 1.0 && a.draw > rate then NotSampled
    else if !RedactEvent(a.event).Accepted? then NotRedacted
    else if !PermittedKeys(RedactEvent(a.event).event) then NotValid
    else if a.fails then CollectorFailed
    else Emitted
  }

  function Counted(c: Counters, ending: Ending): Counters {
    match ending
    case NotSampled => c.(sampling := c.sampling + 1)
    case NotRedacted => c.(redaction := c.redaction + 1)
    case NotValid => c.(validation := c.validation + 1)
    case Emitted => c.(emitted := c.emitted + 1)
    case _ => c
  }

  /** The counters after a run of attempts, and the events the collector received. */
  function CountersAfter(enabled: bool, rate: real, attempts: seq<Attempt>): Counters {
    if attempts == [] then Counters(0, 0, 0, 0)
    else
      var n := |attempts| - 1;
      Counted(CountersAfter(enabled, rate, attempts[..n]), EndingOf(enabled, rate, attempts[n]))
  }

  function Received(enabled: bool, rate: real, attempts: seq<Attempt>): seq<Event> {
    if attempts == [] then []
    else
      var n := |attempts| - 1;
      Received(enabled, rate, attempts[..n])
      + (if EndingOf(enabled, rate, attempts[n]) == Emitted then [RedactEvent(attempts[n].event).event] else [])
  }

  function Failures(enabled: bool, rate: real, attempts: seq<Attempt>): nat {
    if attempts == [] then 0
    else
      var n := |attempts| - 1;
      Failures(enabled, rate, attempts[..n]) + (if EndingOf(enabled, rate, attempts[n]) == CollectorFailed then 1 else 0)
  }

  function Attempts(c: Counters): nat {
    c.emitted + c.redaction + c.sampling + c.validation
  }

  lemma CountedOne(c: Counters, ending: Ending)
    requires ending != Disabled
    ensures Attempts(Counted(c, ending)) == Attempts(c) + (if ending == CollectorFailed then 0 else 1)
    ensures Counted(c, ending).emitted == c.emitted + (if ending == Emitted then 1 else 0)
  {
  }

  /** Of an enabled adapter: attempts = emitted + the three drops + collector failures. */
  lemma {:induction false} CountersConserve(rate: real, attempts: seq<Attempt>)
    ensures var c := CountersAfter(true, rate, attempts);
            |attempts| == c.emitted + c.redaction + c.sampling + c.validation + Failures(true, rate, attempts)
    ensures |Received(true, rate, attempts)| == CountersAfter(true, rate, attempts).emitted
  {
    if attempts != [] {
      var init, last := attempts[..|attempts| - 1], attempts[|attempts| - 1];
      CountersConserve(rate, init);
      CountedOne(CountersAfter(true, rate, init), EndingOf(true, rate, last));
    }
  }

  /** A disabled adapter counts nothing and sends nothing. */
  lemma {:induction false} DisabledIsSilent(rate: real, attempts: seq<Attempt>)
    ensures CountersAfter(false, rate, attempts) == Counters(0, 0, 0, 0) && Received(false, rate, attempts) == []
  {
    if attempts != [] { DisabledIsSilent(rate, attempts[..|attempts| - 1]); }
  }

  /** Everything any collector ever receives is safe: permitted keys, no secret leaf. */
  lemma {:induction false} ReceivedIsSafe(enabled: bool, rate: real, attempts: seq<Attempt>, i: nat)
    requires i < |Received(enabled, rate, attempts)|
    ensures var e := Received(enabled, rate, attempts)[i];
            PermittedKeys(e) && forall j | 0 <= j < |e| :: NoSecret(e[j].value)
  {
    var n := |attempts| - 1;
    if i < |Received(enabled, rate, attempts[..n])| {
      ReceivedIsSafe(enabled, rate, attempts[..n], i);
    } else {
      SentIsSafe(attempts[n].event);
    }
  }

  class Adapter {
    const enabled: bool
    const rate: real
    var droppedRedaction: nat
    var droppedSampling: nat
    var droppedValidation: nat
    var emitted: nat
    var sink: seq<Event>

    ghost function State(): Counters
      reads this
    {
      Counters(droppedRedaction, droppedSampling, droppedValidation, emitted)
    }

    constructor (enabled: bool, rate: real)
      ensures this.enabled == enabled && this.rate == rate && State() == Counters(0, 0, 0, 0) && sink == []
    {
      this.enabled, this.rate := enabled, rate;
      droppedRedaction, droppedSampling, droppedValidation, emitted, sink := 0, 0, 0, 0, [];
    }

    /** Never raises: a collector failure leaves every counter and the sink as they were. */
    method TryEmit(a: Attempt)
      modifies this
      ensures State() == Counted(old(State()), EndingOf(enabled, rate, a))
      ensures sink == old(sink) + (if EndingOf(enabled, rate, a) == Emitted then [RedactEvent(a.event).event] else [])
    {
      ghost var ending := EndingOf(enabled, rate, a);
      if !enabled { return; }
      if rate < 1.0 && a.draw > rate {
        assert ending == NotSampled;
        droppedSampling := droppedSampling + 1;
        return;
      }
      var result := Redacting(a.event);
      if result.Refused? {
        assert ending == NotRedacted;
        droppedRedaction := droppedRedaction + 1;
        return;
      }
      var ok, violations := ValidateFields(result.event);
      if !ok {
        assert ending == NotValid;
        droppedValidation := droppedValidation + 1;
        return;
      }
      if a.fails { return; }
      assert ending == Emitted;
      sink := sink + [result.event];
      emitted := emitted + 1;
    }
  }
}
