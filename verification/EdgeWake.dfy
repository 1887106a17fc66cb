/** The sender goroutine of an edge and the goroutines that feed it: no wake-up is ever lost. */
module EdgeWake {
  import opened EdgeSender

  /** Where the sender goroutine is: about to dequeue, sending, or waiting for the wake channel. */
  datatype Runner<T> = Running | Sending(item: T) | Waiting

  /** A dequeued item, its class, and whether the control queue was empty when it was taken. */
  datatype Taken<T> = Taken(item: T, isControl: bool, controlWasEmpty: bool)

  /**
   * owing counts the enqueuers that have appended an item and have yet to signal; accepted and
   * taken are the history of the two queues.
   */
  datatype State<T> = State(
    queues: Queues<T>,
    token: bool,
    owing: nat,
    runner: Runner<T>,
    acceptedControl: seq<T>,
    acceptedData: seq<T>,
    taken: seq<Taken<T>>)

  datatype Step<T> =
    | Offer(item: T, isControl: bool)
    | Signal
    | Dequeue
    | FinishSend
    | Wake

  ghost predicate Enabled<T>(s: State<T>, step: Step<T>) {
    match step
    case Offer(_, _) => true
    case Signal => s.owing > 0
    case Dequeue => s.runner.Running?
    case FinishSend => s.runner.Sending?
    case Wake => s.runner.Waiting? && s.token
  }

  ghost function Apply<T>(s: State<T>, step: Step<T>, capacity: nat): State<T>
    requires Enabled(s, step)
  {
    match step
    case Offer(item, isControl) =>
      var (queues, ok) := s.queues.Push(item, isControl, capacity);
      if !ok then s
      else
        s.(queues := queues,
           owing := s.owing + 1,
           acceptedControl := if isControl then s.acceptedControl + [item] else s.acceptedControl,
           acceptedData := if isControl then s.acceptedData else s.acceptedData + [item])
    case Signal => s.(owing := s.owing - 1, token := true)
    case Dequeue =>
      var (queues, item) := s.queues.Pop();
      if item.None? then s.(runner := Waiting)
      else
        var isControl := s.queues.control != [];
        s.(queues := queues,
           runner := Sending(item.value),
           taken := s.taken + [Taken(item.value, isControl, s.queues.control == [])])
    case FinishSend => s.(runner := Running)
    case Wake => s.(runner := Running, token := false)
  }

  /** The sender's fields are the queues and the token of the state. */
  ghost predicate Shows<T>(c: Sender<T>, s: State<T>)
    reads c
  {
    c.State() == s.queues && c.wake == s.token
  }

  /**
   * The moves on the sender itself: what its methods do to its fields is the step of the system that
   * the theorems are about. An offer and its signal are the two halves of Enqueue.
   */
  method Perform<T>(c: Sender<T>, ghost s: State<T>, step: Step<T>) returns (ghost s': State<T>)
    requires Shows(c, s) && Enabled(s, step)
    modifies c
    ensures s' == Apply(s, step, c.capacity) && Shows(c, s')
  {
    match step {
      case Offer(item, isControl) => var ok := c.Append(item, isControl);
      case Signal => c.Signal();
      case Dequeue => var item := c.Dequeue();
      case FinishSend =>
      case Wake => c.TakeToken();
    }
    s' := Apply(s, step, c.capacity);
  }

  ghost predicate Init<T>(s: State<T>) {
    s == State(Queues([], []), false, 0, Running, [], [], [])
  }

  ghost predicate Run<T>(s: State<T>, steps: seq<Step<T>>, t: State<T>, capacity: nat)
    decreases |steps|
  {
    if steps == [] then s == t
    else Enabled(s, steps[0]) && Run(Apply(s, steps[0], capacity), steps[1..], t, capacity)
  }

  /** The taken items of one class, in the order they were taken. */
  ghost function OfClass<T>(taken: seq<Taken<T>>, isControl: bool): seq<T> {
    if taken == [] then []
    else
      var rest := OfClass(taken[..|taken| - 1], isControl);
      var last := taken[|taken| - 1];
      if last.isControl == isControl then rest + [last.item] else rest
  }

  ghost predicate Inv<T>(s: State<T>, capacity: nat) {
    && s.queues.Within(capacity)
    && s.acceptedControl == OfClass(s.taken, true) + s.queues.control
    && s.acceptedData == OfClass(s.taken, false) + s.queues.data
    && (forall t :: t in s.taken ==> (t.isControl <==> !t.controlWasEmpty))
    && (s.runner.Waiting? && !s.queues.Empty() ==> s.token || s.owing > 0)
  }

  lemma TakeHistory<T>(taken: seq<Taken<T>>, t: Taken<T>)
    ensures OfClass(taken + [t], t.isControl) == OfClass(taken, t.isControl) + [t.item]
    ensures OfClass(taken + [t], !t.isControl) == OfClass(taken, !t.isControl)
  {
    assert (taken + [t])[..|taken + [t]| - 1] == taken;
  }

  /** Appending to the queue and to what was accepted. */
  lemma AppendBoth<T>(taken: seq<T>, queue: seq<T>, item: T)
    ensures taken + queue + [item] == taken + (queue + [item])
  {}

  /** From the head of the queue to the end of what was taken. */
  lemma MoveHead<T>(taken: seq<T>, queue: seq<T>)
    requires queue != []
    ensures taken + queue == taken + [queue[0]] + queue[1..]
  {
    assert queue == [queue[0]] + queue[1..];
  }

  lemma OfferKeepsInv<T>(s: State<T>, item: T, isControl: bool, capacity: nat)
    requires Inv(s, capacity)
    ensures Inv(Apply(s, Offer(item, isControl), capacity), capacity)
  {
    if isControl {
      AppendBoth(OfClass(s.taken, true), s.queues.control, item);
    } else {
      AppendBoth(OfClass(s.taken, false), s.queues.data, item);
    }
  }

  lemma DequeueKeepsInv<T>(s: State<T>, capacity: nat)
    requires Inv(s, capacity) && s.runner.Running? && !s.queues.Empty()
    ensures Inv(Apply(s, Dequeue, capacity), capacity)
  {
    var isControl := s.queues.control != [];
    var queue := if isControl then s.queues.control else s.queues.data;
    MoveHead(OfClass(s.taken, isControl), queue);
    TakeHistory(s.taken, Taken(queue[0], isControl, !isControl));
  }

  lemma StepKeepsInv<T>(s: State<T>, step: Step<T>, capacity: nat)
    requires Inv(s, capacity) && Enabled(s, step)
    ensures Inv(Apply(s, step, capacity), capacity)
  {
    match step {
      case Offer(item, isControl) => OfferKeepsInv(s, item, isControl, capacity);
      case Dequeue =>
        if !s.queues.Empty() {
          DequeueKeepsInv(s, capacity);
        }
      case _ =>
    }
  }

  lemma {:induction false} RunKeepsInv<T>(s: State<T>, steps: seq<Step<T>>, t: State<T>, capacity: nat)
    requires Inv(s, capacity) && Run(s, steps, t, capacity)
    ensures Inv(t, capacity)
    decreases |steps|
  {
    if steps != [] {
      StepKeepsInv(s, steps[0], capacity);
      RunKeepsInv(Apply(s, steps[0], capacity), steps[1..], t, capacity);
    }
  }

  /**
   * In every run, with any number of concurrent enqueuers: no queue exceeds its capacity; each
   * class leaves in the order it was accepted, nothing lost and nothing twice; a data item is
   * taken only while no control item waits; and the sender is never parked on a non-empty queue
   * unless an enqueuer still owes it the signal.
   */
  lemma StrictPriorityQueues<T>(s: State<T>, steps: seq<Step<T>>, t: State<T>, capacity: nat)
    requires Init(s) && Run(s, steps, t, capacity)
    ensures t.queues.Within(capacity)
    ensures t.acceptedControl == OfClass(t.taken, true) + t.queues.control
    ensures t.acceptedData == OfClass(t.taken, false) + t.queues.data
    ensures forall x :: x in t.taken && !x.isControl ==> x.controlWasEmpty
    ensures t.runner.Waiting? && !t.token && t.owing == 0 ==> t.queues.Empty()
  {
    RunKeepsInv(s, steps, t, capacity);
  }

  // Draining: the sender and the pending signals alone, no further offers

  ghost function Work<T>(s: State<T>): nat {
    3 * (|s.queues.control| + |s.queues.data|) + 3 * s.owing + (if s.token then 2 else 0)
    + (match s.runner case Running => 1 case Sending(_) => 2 case Waiting => 0)
  }

  lemma DrainStep<T>(s: State<T>, step: Step<T>, capacity: nat)
    requires Enabled(s, step) && !step.Offer?
    ensures Work(Apply(s, step, capacity)) < Work(s)
  {
  }

  /**
   * Without further offers the sender comes to rest after at most Work(s) steps, and it is at
   * rest only when everything that was accepted has been taken.
   */
  lemma {:induction false} Drains<T>(s: State<T>, steps: seq<Step<T>>, t: State<T>, capacity: nat)
    requires Inv(s, capacity) && Run(s, steps, t, capacity)
    requires forall i :: 0 <= i < |steps| ==> !steps[i].Offer?
    ensures |steps| + Work(t) <= Work(s)
    ensures (forall step: Step<T> :: Enabled(t, step) ==> step.Offer?) ==>
      && t.queues.Empty()
      && t.acceptedControl == s.acceptedControl == OfClass(t.taken, true)
      && t.acceptedData == s.acceptedData == OfClass(t.taken, false)
    decreases |steps|
  {
    if steps == [] {
      if forall step: Step<T> :: Enabled(t, step) ==> step.Offer? {
        var signal, dequeue, finish, wake: Step<T> := Signal, Dequeue, FinishSend, Wake;
        assert !Enabled(t, signal) && !Enabled(t, dequeue) && !Enabled(t, finish) && !Enabled(t, wake);
      }
    } else {
      StepKeepsInv(s, steps[0], capacity);
      DrainStep(s, steps[0], capacity);
      Drains(Apply(s, steps[0], capacity), steps[1..], t, capacity);
    }
  }
}
