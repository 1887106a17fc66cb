/** The outbound queues of one directed edge and the wake token of its sender goroutine. */
module EdgeSender {
  import opened Wrappers

  /** A pair of first-in-first-out queues of which the control queue is always served first. */
  datatype Queues<T> = Queues(control: seq<T>, data: seq<T>) {

    /** The queues after an offer, and whether there was room for it. */
    function Push(item: T, isControl: bool, capacity: nat): (Queues<T>, bool) {
      if isControl then
        if |control| >= capacity then (this, false) else (Queues(control + [item], data), true)
      else
        if |data| >= capacity then (this, false) else (Queues(control, data + [item]), true)
    }

    function Pop(): (Queues<T>, Option<T>) {
      if control != [] then (Queues(control[1..], data), Some(control[0]))
      else if data != [] then (Queues(control, data[1..]), Some(data[0]))
      else (this, None)
    }

    predicate Empty() {
      control == [] && data == []
    }

    predicate Within(capacity: nat) {
      |control| <= capacity && |data| <= capacity
    }
  }

  class Sender<T> {
    const capacity: nat
    var dataQueue: seq<T>
    var controlQueue: seq<T>
    var wake: bool

    ghost function State(): Queues<T>
      reads this
    {
      Queues(controlQueue, dataQueue)
    }

    constructor (capacity: nat)
      ensures this.capacity == capacity && State() == Queues([], []) && !wake
    {
      this.capacity := capacity;
      dataQueue, controlQueue, wake := [], [], false;
    }

    /** The part of enqueue under queueMu. */
    method Append(item: T, isControl: bool) returns (ok: bool)
      modifies this`dataQueue, this`controlQueue
      ensures (State(), ok) == old(State()).Push(item, isControl, capacity)
      ensures old(State()).Within(capacity) ==> State().Within(capacity)
      ensures ok <==> |old(if isControl then controlQueue else dataQueue)| < capacity
    {
      if isControl {
        if |controlQueue| >= capacity {
          return false;
        }
        controlQueue := controlQueue + [item];
      } else {
        if |dataQueue| >= capacity {
          return false;
        }
        dataQueue := dataQueue + [item];
      }
      return true;
    }

    /** The non-blocking send to the wake channel, whose buffer holds one token. */
    method Signal()
      modifies this`wake
      ensures wake
    {
      if !wake {
        wake := true;
      }
    }

    /** The receive from the wake channel. */
    method TakeToken()
      requires wake
      modifies this`wake
      ensures !wake
    {
      wake := false;
    }

    method Enqueue(item: T, isControl: bool) returns (ok: bool)
      modifies this
      ensures (State(), ok) == old(State()).Push(item, isControl, capacity)
      ensures wake == (ok || old(wake))
      ensures ok <==> |old(if isControl then controlQueue else dataQueue)| < capacity
      ensures ok && isControl ==> controlQueue == old(controlQueue) + [item] && dataQueue == old(dataQueue)
      ensures ok && !isControl ==> dataQueue == old(dataQueue) + [item] && controlQueue == old(controlQueue)
      ensures !ok ==> controlQueue == old(controlQueue) && dataQueue == old(dataQueue)
    {
      ok := Append(item, isControl);
      if ok {
        Signal();
      }
    }

    method Dequeue() returns (item: Option<T>)
      modifies this`dataQueue, this`controlQueue
      ensures (State(), item) == old(State()).Pop()
    {
      if |controlQueue| > 0 {
        item := Some(controlQueue[0]);
        controlQueue := controlQueue[1..];
      } else if |dataQueue| > 0 {
        item := Some(dataQueue[0]);
        dataQueue := dataQueue[1..];
      } else {
        item := None;
      }
    }
  }
}
