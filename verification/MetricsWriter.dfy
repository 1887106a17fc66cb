/** The metrics writer: a bounded channel, a buffer in front of a file, and the fields they share. */
module MetricsWriter {
  import opened Wrappers

  /** An event with the producer that writes it; order is kept per producer. */
  datatype Event = Event(producer: nat, line: string)

  datatype WriteError = WriterClosed

  type IOError = string

  /**
   * The writer's fields. Buffer and file are kept as whole events; what a failed operation leaves
   * in them is part of the failure.
   */
  datatype View = View(
    capacity: nat,
    closed: bool,
    events: seq<Event>,
    eventsClosed: bool,
    done: bool,
    err: Option<IOError>,
    buffer: seq<Event>,
    file: seq<Event>)

  /** The outcome of an operation on buffer and file: events spilled to the file, or an error. */
  datatype Outcome = Fine(spilled: nat) | Broken(error: IOError, buffer: seq<Event>, file: seq<Event>)

  function Spill(v: View, count: nat): View {
    var k := if count <= |v.buffer| then count else |v.buffer|;
    v.(file := v.file + v.buffer[..k], buffer := v.buffer[k..])
  }

  function Break(v: View, error: IOError, buffer: seq<Event>, file: seq<Event>): View {
    v.(err := Some(error), buffer := buffer, file := file)
  }

  /** Encoding one event into the buffer, which may hand a prefix of it to the file. */
  function Encoded(v: View, event: Event, outcome: Outcome): View {
    if v.err.Some? then v
    else match outcome
      case Fine(spilled) => Spill(v.(buffer := v.buffer + [event]), spilled)
      case Broken(error, buffer, file) => Break(v, error, buffer, file)
  }

  function Flushed(v: View, outcome: Outcome): View {
    if v.err.Some? then v
    else match outcome
      case Fine(_) => Spill(v, |v.buffer|)
      case Broken(error, buffer, file) => Break(v, error, buffer, file)
  }

  function Received(v: View, outcome: Outcome): View
    requires v.events != []
  {
    Encoded(v.(events := v.events[1..]), v.events[0], outcome)
  }

  /** The last flush, and the error of closing the file unless there was one before. */
  function Finished(v: View, outcome: Outcome, closeError: Option<IOError>): View {
    var flushed := Flushed(v, outcome);
    flushed.(err := if flushed.err.None? then closeError else flushed.err, done := true)
  }

  class Writer {
    const capacity: nat
    var closed: bool
    var events: seq<Event>
    var eventsClosed: bool
    var done: bool
    var err: Option<IOError>
    var buffer: seq<Event>
    var file: seq<Event>

    ghost function Abstract(): View
      reads this
    {
      View(capacity, closed, events, eventsClosed, done, err, buffer, file)
    }

    /** A capacity that is not positive is replaced by 512. */
    constructor (queueCapacity: int)
      ensures if queueCapacity > 0 then capacity == queueCapacity else capacity == 512
      ensures Abstract() == View(capacity, false, [], false, false, None, [], [])
    {
      capacity := if queueCapacity <= 0 then 512 else queueCapacity;
      closed, events, eventsClosed, done, err, buffer, file := false, [], false, false, None, [], [];
    }

    /** The send of an accepted write; it blocks until the channel has room, and panics on a closed one. */
    method Send(event: Event)
      requires !eventsClosed && |events| < capacity
      modifies this`events
      ensures Abstract() == old(Abstract()).(events := old(events) + [event])
    {
      events := events + [event];
    }

    /** Write when the channel has room: refused once the writer is closed, accepted otherwise. */
    method Write(event: Event) returns (error: Option<WriteError>)
      requires eventsClosed == closed && |events| < capacity
      modifies this`events
      ensures error.Some? <==> closed
      ensures Abstract() == if closed then old(Abstract()) else old(Abstract()).(events := old(events) + [event])
    {
      if closed {
        return Some(WriterClosed);
      }
      Send(event);
      return None;
    }

    /** The exclusive section of Close; a second close leaves the channel alone. */
    method MarkClosed() returns (first: bool)
      requires eventsClosed == closed
      modifies this`closed, this`eventsClosed
      ensures first == !old(closed)
      ensures Abstract() == old(Abstract()).(closed := true, eventsClosed := true)
    {
      if closed {
        return false;
      }
      closed := true;
      eventsClosed := true;
      return true;
    }

    /** The loop's receive branch: after an error events are still taken, only no longer written. */
    method Receive(outcome: Outcome)
      requires events != []
      modifies this`events, this`err, this`buffer, this`file
      ensures Abstract() == Received(old(Abstract()), outcome)
    {
      var event := events[0];
      events := events[1..];
      if err.None? {
        match outcome {
          case Fine(spilled) =>
            buffer := buffer + [event];
            var k := if spilled <= |buffer| then spilled else |buffer|;
            file := file + buffer[..k];
            buffer := buffer[k..];
          case Broken(error, left, written) =>
            err, buffer, file := Some(error), left, written;
        }
      }
    }

    method Flush(outcome: Outcome)
      modifies this`err, this`buffer, this`file
      ensures Abstract() == Flushed(old(Abstract()), outcome)
    {
      if err.None? {
        match outcome {
          case Fine(_) =>
            file := file + buffer;
            buffer := [];
            assert old(buffer)[..|old(buffer)|] == old(buffer);
          case Broken(error, left, written) =>
            err, buffer, file := Some(error), left, written;
        }
      }
    }

    method Finish(outcome: Outcome, closeError: Option<IOError>)
      modifies this`err, this`buffer, this`file, this`done
      ensures Abstract() == Finished(old(Abstract()), outcome, closeError)
    {
      Flush(outcome);
      if err.None? {
        err := closeError;
      }
      done := true;
    }
  }
}
