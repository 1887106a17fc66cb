/** The writer in use: producers, callers of Close and the one consumer. */
module MetricsRuns {
  import opened MetricsWriter
  import opened Wrappers

  /** A producer between calls, or inside Write with the read lock held and its event not yet sent. */
  datatype Producer = Idle | Sending(event: Event)

  /** A caller of Close before, in wait for the consumer, and after its return. */
  datatype Closer = Outside | AwaitingDone | Returned(err: Option<IOError>)

  /** sent records, per producer, the events whose Write returned without an error. */
  datatype System = System(view: View, producers: seq<Producer>, closers: seq<Closer>, sent: seq<seq<Event>>,
                           accepted: seq<Event>)

  datatype Step =
    | BeginWrite(i: nat, line: string)
    | Send(i: nat)
    | Close(j: nat)
    | CloseReturns(j: nat)
    | Receive(outcome: Outcome)
    | Tick(outcome: Outcome)
    | Finish(outcome: Outcome, closeError: Option<IOError>)

  ghost predicate AllIdle(producers: seq<Producer>) {
    forall i :: 0 <= i < |producers| ==> producers[i].Idle?
  }

  ghost predicate Init(s: System) {
    && s.view.capacity >= 1
    && s.view == View(s.view.capacity, false, [], false, false, None, [], [])
    && AllIdle(s.producers) && |s.sent| == |s.producers|
    && (forall j :: 0 <= j < |s.closers| ==> s.closers[j].Outside?)
    && (forall i :: 0 <= i < |s.sent| ==> s.sent[i] == [])
    && s.accepted == []
  }

  /** Close needs the lock to itself: no producer inside Write. */
  ghost predicate Enabled(s: System, step: Step) {
    match step
    case BeginWrite(i, _) => i < |s.producers| && s.producers[i].Idle?
    case Send(i) => i < |s.producers| && i < |s.sent| && s.producers[i].Sending? && |s.view.events| < s.view.capacity
    case Close(j) => j < |s.closers| && s.closers[j].Outside? && AllIdle(s.producers)
    case CloseReturns(j) => j < |s.closers| && s.closers[j].AwaitingDone? && s.view.done
    case Receive(_) => !s.view.done && s.view.events != []
    case Tick(_) => !s.view.done
    case Finish(_, _) => !s.view.done && s.view.events == [] && s.view.eventsClosed
  }

  ghost function Apply(s: System, step: Step): System
    requires Enabled(s, step)
  {
    match step
    case BeginWrite(i, line) =>
      if s.view.closed then s else s.(producers := s.producers[i := Sending(Event(i, line))])
    case Send(i) =>
      var event := s.producers[i].event;
      s.(view := s.view.(events := s.view.events + [event]), producers := s.producers[i := Idle],
         sent := s.sent[i := s.sent[i] + [event]], accepted := s.accepted + [event])
    case Close(j) =>
      s.(view := s.view.(closed := true, eventsClosed := true), closers := s.closers[j := AwaitingDone])
    case CloseReturns(j) => s.(closers := s.closers[j := Returned(s.view.err)])
    case Receive(outcome) => s.(view := Received(s.view, outcome))
    case Tick(outcome) => s.(view := Flushed(s.view, outcome))
    case Finish(outcome, closeError) => s.(view := Finished(s.view, outcome, closeError))
  }

  ghost predicate Run(s: System, steps: seq<Step>, s': System)
    decreases |steps|
  {
    if steps == [] then s == s' else Enabled(s, steps[0]) && Run(Apply(s, steps[0]), steps[1..], s')
  }

  ghost predicate Reachable(s: System) {
    exists s0, steps :: Init(s0) && Run(s0, steps, s)
  }

  /** The events of one producer in a sequence. */
  ghost function Of(events: seq<Event>, i: nat): seq<Event> {
    if events == [] then []
    else Of(events[..|events| - 1], i) + if events[|events| - 1].producer == i then [events[|events| - 1]] else []
  }

  ghost predicate ProducerOk(s: System, i: int)
    requires |s.sent| == |s.producers|
  {
    0 <= i < |s.producers| ==>
      && (s.producers[i].Sending? ==> s.producers[i].event.producer == i)
      && s.sent[i] == Of(s.accepted, i)
  }

  ghost predicate CloserOk(s: System, j: int) {
    0 <= j < |s.closers| ==>
      && (!s.closers[j].Outside? ==> s.view.closed)
      && (s.closers[j].Returned? ==> s.view.done && s.closers[j].err == s.view.err)
  }

  ghost predicate Inv(s: System) {
    && s.view.capacity >= 1 && |s.sent| == |s.producers|
    && s.view.eventsClosed == s.view.closed
    && (s.view.closed ==> AllIdle(s.producers))
    && (s.view.done ==> s.view.closed && s.view.events == [])
    && |s.view.events| <= s.view.capacity
    && (s.view.err.None? ==> s.accepted == s.view.file + s.view.buffer + s.view.events)
    && (s.view.err.None? && s.view.done ==> s.view.buffer == [])
    && (forall i {:trigger ProducerOk(s, i)} :: ProducerOk(s, i))
    && (forall j {:trigger CloserOk(s, j)} :: CloserOk(s, j))
  }

  /**
   * The moves on the writer itself: what its methods do to its fields is the step of the system that
   * the theorems are about.
   */
  method Perform(w: Writer, s: System, step: Step) returns (ghost s': System)
    requires Inv(s) && Enabled(s, step) && w.Abstract() == s.view
    modifies w
    ensures s' == Apply(s, step) && w.Abstract() == s'.view
  {
    match step {
      case BeginWrite(_, _) =>
      case Send(i) => w.Send(s.producers[i].event);
      case Close(_) => var first := w.MarkClosed();
      case CloseReturns(_) =>
      case Receive(outcome) => w.Receive(outcome);
      case Tick(outcome) => w.Flush(outcome);
      case Finish(outcome, closeError) => w.Finish(outcome, closeError);
    }
    s' := Apply(s, step);
  }

  lemma InitInv(s: System)
    requires Init(s)
    ensures Inv(s)
  {
    forall i ensures ProducerOk(s, i) {}
    forall j ensures CloserOk(s, j) {}
  }

  lemma OfAppend(events: seq<Event>, event: Event, i: nat)
    ensures Of(events + [event], i) == Of(events, i) + if event.producer == i then [event] else []
  {
    assert (events + [event])[..|events|] == events;
  }

  lemma SendKeepsInv(s: System, i: nat)
    requires Inv(s) && Enabled(s, Send(i))
    ensures Inv(Apply(s, Send(i)))
  {
    var s' := Apply(s, Send(i));
    var event := s.producers[i].event;
    assert ProducerOk(s, i);
    forall k ensures ProducerOk(s', k) {
      assert ProducerOk(s, k);
      if 0 <= k < |s.producers| {
        OfAppend(s.accepted, event, k);
      }
    }
    forall j ensures CloserOk(s', j) {
      assert CloserOk(s, j);
    }
    assert s.view.file + s.view.buffer + (s.view.events + [event])
        == s.view.file + s.view.buffer + s.view.events + [event];
  }

  lemma BeginKeepsInv(s: System, i: nat, line: string)
    requires Inv(s) && Enabled(s, BeginWrite(i, line))
    ensures Inv(Apply(s, BeginWrite(i, line)))
  {
    var s' := Apply(s, BeginWrite(i, line));
    forall k ensures ProducerOk(s', k) {
      assert ProducerOk(s, k);
    }
    forall j ensures CloserOk(s', j) {
      assert CloserOk(s, j);
    }
  }

  lemma CloseKeepsInv(s: System, step: Step)
    requires Inv(s) && Enabled(s, step) && (step.Close? || step.CloseReturns?)
    ensures Inv(Apply(s, step))
  {
    var s' := Apply(s, step);
    forall k ensures ProducerOk(s', k) {
      assert ProducerOk(s, k);
    }
    forall j ensures CloserOk(s', j) {
      assert CloserOk(s, j);
    }
  }

  /** Encoding, spilling and flushing move events along file, buffer and channel without losing any. */
  lemma StreamKept(v: View, step: Step)
    requires step.Receive? ==> v.events != []
    requires step.Receive? || step.Tick? || step.Finish?
    ensures
      var v' :=
        match step
        case Receive(o) => Received(v, o)
        case Tick(o) => Flushed(v, o)
        case Finish(o, e) => Finished(v, o, e);
      v'.err.None? ==>
        && v.err.None?
        && v'.file + v'.buffer + v'.events == v.file + v.buffer + v.events
        && (step.Finish? ==> v'.buffer == [])
  {
    match step
    case Receive(outcome) =>
      if v.err.None? && outcome.Fine? {
        var w := v.(buffer := v.buffer + [v.events[0]], events := v.events[1..]);
        SpillKeepsStream(w, outcome.spilled);
        assert v.events == [v.events[0]] + v.events[1..];
        assert w.file + w.buffer + w.events == v.file + v.buffer + v.events;
      }
    case Tick(outcome) =>
      SpillKeepsStream(v, |v.buffer|);
    case Finish(outcome, closeError) =>
      SpillKeepsStream(v, |v.buffer|);
  }

  lemma SpillKeepsStream(v: View, count: nat)
    ensures Spill(v, count).file + Spill(v, count).buffer == v.file + v.buffer
    ensures count >= |v.buffer| ==> Spill(v, count).buffer == []
  {
    var k := if count <= |v.buffer| then count else |v.buffer|;
    assert v.buffer == v.buffer[..k] + v.buffer[k..];
    assert v.file + v.buffer[..k] + v.buffer[k..] == v.file + (v.buffer[..k] + v.buffer[k..]);
  }

  lemma ConsumerKeepsInv(s: System, step: Step)
    requires Inv(s) && Enabled(s, step) && (step.Receive? || step.Tick? || step.Finish?)
    ensures Inv(Apply(s, step))
  {
    var s' := Apply(s, step);
    StreamKept(s.view, step);
    forall k ensures ProducerOk(s', k) {
      assert ProducerOk(s, k);
    }
    forall j ensures CloserOk(s', j) {
      assert CloserOk(s, j);
    }
  }

  lemma StepKeepsInv(s: System, step: Step)
    requires Inv(s) && Enabled(s, step)
    ensures Inv(Apply(s, step))
  {
    match step
    case BeginWrite(i, line) => BeginKeepsInv(s, i, line);
    case Send(i) => SendKeepsInv(s, i);
    case Close(_) => CloseKeepsInv(s, step);
    case CloseReturns(_) => CloseKeepsInv(s, step);
    case _ => ConsumerKeepsInv(s, step);
  }

  lemma {:induction false} RunKeepsInv(s: System, steps: seq<Step>, s': System)
    requires Inv(s) && Run(s, steps, s')
    ensures Inv(s')
    decreases |steps|
  {
    if steps != [] {
      StepKeepsInv(s, steps[0]);
      RunKeepsInv(Apply(s, steps[0]), steps[1..], s');
    }
  }

  lemma ReachableInv(s: System)
    requires Reachable(s)
    ensures Inv(s)
  {
    var s0, steps :| Init(s0) && Run(s0, steps, s);
    InitInv(s0);
    RunKeepsInv(s0, steps, s);
  }

  /** A producer that is about to send never meets a closed channel. */
  lemma NoSendOnClosedChannel(s: System, i: nat)
    requires Reachable(s) && i < |s.producers| && s.producers[i].Sending?
    ensures !s.view.eventsClosed && !s.view.done
  {
    ReachableInv(s);
  }

  /** A producer blocked on the full channel is released by the consumer's next receive, error or not. */
  lemma BlockedProducerProceeds(s: System, i: nat, outcome: Outcome)
    requires Reachable(s) && i < |s.producers| && s.producers[i].Sending? && !Enabled(s, Send(i))
    ensures Enabled(s, Receive(outcome)) && Enabled(Apply(s, Receive(outcome)), Send(i))
  {
    ReachableInv(s);
  }

  /** What is left for the consumer to do once the writer is closed. */
  ghost function Remaining(v: View): nat {
    if v.done then 0 else |v.events| + 1
  }

  ghost function DrainStep(s: System, outcome: Outcome, closeError: Option<IOError>): Step {
    if |s.view.events| == 0 then Finish(outcome, closeError) else Receive(outcome)
  }

  /** The consumer's next step towards the end of its loop. */
  ghost predicate Draining(step: Step) {
    step.Receive? || step.Finish?
  }

  /**
   * Close gets its answer: on a closed writer no step adds work for the consumer, each draining step
   * takes some away, and one is enabled until the consumer is done.
   */
  lemma CloseIsAnswered(s: System, step: Step, outcome: Outcome, closeError: Option<IOError>)
    requires Reachable(s) && s.view.closed && Enabled(s, step)
    ensures Apply(s, step).view.closed
    ensures Remaining(Apply(s, step).view) <= Remaining(s.view)
    ensures Draining(step) ==> Remaining(Apply(s, step).view) < Remaining(s.view)
    ensures !s.view.done ==>
      Enabled(s, DrainStep(s, outcome, closeError)) && Draining(DrainStep(s, outcome, closeError))
  {
    ReachableInv(s);
  }

  /**
   * What Close returns: without an error the file holds exactly the events whose Write succeeded, in
   * channel order, and so every producer's events in the order it wrote them.
   */
  lemma FileIsWhatWasWritten(s: System, j: nat)
    requires Reachable(s) && j < |s.closers| && s.closers[j].Returned? && s.closers[j].err.None?
    ensures s.view.file == s.accepted
    ensures forall i: nat :: i < |s.sent| ==> s.sent[i] == Of(s.view.file, i)
  {
    ReachableInv(s);
    assert CloserOk(s, j);
    assert s.view.file + s.view.buffer + s.view.events == s.view.file;
    forall i: nat | i < |s.sent| ensures s.sent[i] == Of(s.view.file, i) {
      assert ProducerOk(s, i);
    }
  }

  /** Every call of Close returns the same error. */
  lemma ClosersAgree(s: System, j: nat, k: nat)
    requires Reachable(s) && j < |s.closers| && k < |s.closers| && s.closers[j].Returned? && s.closers[k].Returned?
    ensures s.closers[j].err == s.closers[k].err
  {
    ReachableInv(s);
    assert CloserOk(s, j) && CloserOk(s, k);
  }

  /** Nothing is accepted after Close, and a file once complete stays as it is. */
  lemma {:induction false} ClosedStaysComplete(s: System, steps: seq<Step>, s': System)
    requires Inv(s) && s.view.closed && Run(s, steps, s')
    ensures s'.accepted == s.accepted && s'.sent == s.sent && s'.view.closed
    ensures s.view.done ==> s'.view == s.view
    decreases |steps|
  {
    if steps != [] {
      StepKeepsInv(s, steps[0]);
      ClosedStaysComplete(Apply(s, steps[0]), steps[1..], s');
    }
  }

  /** The error that a step runs into, provided that there was none before it. */
  ghost function ErrorIn(step: Step): Option<IOError> {
    match step
    case Receive(Broken(error, _, _)) => Some(error)
    case Tick(Broken(error, _, _)) => Some(error)
    case Finish(Broken(error, _, _), _) => Some(error)
    case Finish(Fine(_), closeError) => closeError
    case _ => None
  }

  /** The first error of a run that comes after the given one. */
  ghost function FirstError(steps: seq<Step>, before: Option<IOError>): Option<IOError> {
    if steps == [] then before
    else FirstError(steps[1..], if before.Some? then before else ErrorIn(steps[0]))
  }

  lemma {:induction false} KeepsFirstError(s: System, steps: seq<Step>, s': System)
    requires Run(s, steps, s')
    ensures s'.view.err == FirstError(steps, s.view.err)
    decreases |steps|
  {
    if steps != [] {
      KeepsFirstError(Apply(s, steps[0]), steps[1..], s');
    }
  }

  /**
   * Close tells: whoever called it gets the first error of the whole run, be it of a write, of a flush
   * or of closing the file, and none only if there was none.
   */
  lemma CloseTellsFirstError(s: System, steps: seq<Step>, s': System, j: nat)
    requires Init(s) && Run(s, steps, s') && j < |s'.closers| && s'.closers[j].Returned?
    ensures s'.closers[j].err == FirstError(steps, None)
  {
    KeepsFirstError(s, steps, s');
    InitInv(s);
    RunKeepsInv(s, steps, s');
    assert CloserOk(s', j);
  }
}
