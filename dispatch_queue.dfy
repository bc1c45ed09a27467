/** The ordered event dispatch of the socket layer (`chainSocket`): every inbound event
    that carries an acknowledgment callback waits in one FIFO, and its listener starts only
    when every earlier queued listener has acknowledged.

    Listeners and callbacks are abstract identities; the effect of starting a listener or
    of forwarding an acknowledgment is recorded in a log of actions. */
module DispatchQueue {

  /** An argument of an event: plain data, a callback function from the client, or the
      wrapper the queue puts around such a callback. */
  datatype Arg = Data(value: string) | Callback(id: nat) | Wrapped(ack: Arg)

  /** `typeof arg === 'function'`. */
  predicate IsFunction(a: Arg) {
    !a.Data?
  }

  /** A listener applied to its arguments: one element of `chainSocket.queue`. */
  datatype Entry = Entry(listener: nat, args: seq<Arg>)

  /** What the dispatcher does, in the order it does it. */
  datatype Action =
    | Started(entry: Entry, queued: bool)
    | Forwarded(ack: Arg, args: seq<Arg>)

  /** The entries the queue started, in the order it started them. */
  function QueuedStarts(log: seq<Action>): seq<Entry>
  {
    if log == [] then []
    else
      var last := log[|log| - 1];
      QueuedStarts(log[..|log| - 1]) + (if last.Started? && last.queued then [last.entry] else [])
  }

  /** An entry is among the queued starts exactly when the log records its queued start. */
  lemma {:induction false} QueuedStartsMembers(log: seq<Action>, e: Entry)
    ensures e in QueuedStarts(log) <==> Started(e, true) in log
  {
    if log != [] {
      var last := log[|log| - 1];
      assert log == log[..|log| - 1] + [last];
      QueuedStartsMembers(log[..|log| - 1], e);
    }
  }

  lemma QueuedStartsSnoc(log: seq<Action>, a: Action)
    ensures QueuedStarts(log + [a]) ==
            QueuedStarts(log) + (if a.Started? && a.queued then [a.entry] else [])
  {
    assert (log + [a])[..|log|] == log;
  }

  /** The arguments a queued listener is applied to: the event's arguments with the
      callback replaced by its wrapper. */
  function WithWrappedAck(args: seq<Arg>): (r: seq<Arg>)
    requires args != []
    ensures |r| == |args| && r[..|r| - 1] == args[..|args| - 1]
    ensures r[|r| - 1] == Wrapped(args[|args| - 1])
  {
    args[..|args| - 1] + [Wrapped(args[|args| - 1])]
  }

  /** `chainSocket`: the module-level queue shared by every connection, and the log of what
      it started and forwarded. */
  class Dispatcher {
    var queue: seq<Entry>
    var log: seq<Action>
    // every entry ever enqueued, and how many of them were removed by an acknowledgment
    ghost var enqueued: seq<Entry>
    ghost var acked: nat

    /** The queue holds the entries not yet acknowledged, in enqueue order; the queue has
        started exactly the acknowledged entries and, when the queue is not empty, its
        head. */
    ghost predicate Valid()
      reads this
    {
      acked <= |enqueued| &&
      queue == enqueued[acked..] &&
      QueuedStarts(log) == enqueued[..if queue == [] then acked else acked + 1]
    }

    /** `chainSocket.queue = []`. */
    constructor ()
      ensures Valid()
      ensures queue == [] && log == [] && enqueued == [] && acked == 0
    {
      queue := [];
      log := [];
      enqueued := [];
      acked := 0;
    }

    /** `chainSocket.enqueue`: append, and start the listener when the queue held nothing
        before. */
    method Enqueue(e: Entry)
      requires Valid()
      modifies this
      ensures Valid()
      ensures queue == old(queue) + [e] && enqueued == old(enqueued) + [e] && acked == old(acked)
      ensures log == old(log) + (if old(queue) == [] then [Started(e, true)] else [])
    {
      queue := queue + [e];
      enqueued := enqueued + [e];
      if |queue| == 1 {
        QueuedStartsSnoc(log, Started(e, true));
        log := log + [Started(e, true)];
        assert enqueued[..acked + 1] == old(enqueued)[..acked] + [e];
      } else {
        assert enqueued[..acked + 1] == old(enqueued)[..acked + 1];
      }
    }

    /** `chainSocket.dequeue`: drop the head (nothing, on an empty queue) and start the new
        head if there is one. */
    method Dequeue()
      requires Valid()
      modifies this
      ensures Valid()
      ensures queue == if old(queue) == [] then [] else old(queue)[1..]
      ensures acked == if old(queue) == [] then old(acked) else old(acked) + 1
      ensures enqueued == old(enqueued)
      ensures log == old(log) + (if |queue| != 0 then [Started(queue[0], true)] else [])
    {
      if queue != [] {
        queue := queue[1..];
        acked := acked + 1;
      }
      if |queue| != 0 {
        QueuedStartsSnoc(log, Started(queue[0], true));
        log := log + [Started(queue[0], true)];
        assert enqueued[..acked + 1] == enqueued[..acked] + [queue[0]];
      }
    }

    /** `listenerWrapper`: an event whose last argument is not a function starts its
        listener at once and leaves the queue alone; any other event is enqueued with its
        callback wrapped. */
    method Receive(listener: nat, args: seq<Arg>)
      requires Valid()
      modifies this
      ensures Valid()
      ensures args == [] || !IsFunction(args[|args| - 1]) ==>
                queue == old(queue) && enqueued == old(enqueued) && acked == old(acked) &&
                log == old(log) + [Started(Entry(listener, args), false)]
      ensures args != [] && IsFunction(args[|args| - 1]) ==>
                var e := Entry(listener, WithWrappedAck(args));
                queue == old(queue) + [e] && enqueued == old(enqueued) + [e] && acked == old(acked) &&
                log == old(log) + (if old(queue) == [] then [Started(e, true)] else [])
    {
      if args == [] || !IsFunction(args[|args| - 1]) {
        QueuedStartsSnoc(log, Started(Entry(listener, args), false));
        log := log + [Started(Entry(listener, args), false)];
      } else {
        Enqueue(Entry(listener, WithWrappedAck(args)));
      }
    }

    /** `ackWrapper`: forward the arguments to the wrapped callback, then dequeue. */
    method Acknowledge(wrapper: Arg, ackArgs: seq<Arg>)
      requires Valid() && wrapper.Wrapped?
      modifies this
      ensures Valid()
      ensures queue == if old(queue) == [] then [] else old(queue)[1..]
      ensures acked == if old(queue) == [] then old(acked) else old(acked) + 1
      ensures enqueued == old(enqueued)
      ensures log == old(log) + [Forwarded(wrapper.ack, ackArgs)] +
                     (if |queue| != 0 then [Started(queue[0], true)] else [])
    {
      QueuedStartsSnoc(log, Forwarded(wrapper.ack, ackArgs));
      log := log + [Forwarded(wrapper.ack, ackArgs)];
      Dequeue();
    }
  }

  /** In any reachable state the queue has started a prefix of the enqueued entries, in
      enqueue order, and at most one started entry (the head) is still unacknowledged. */
  lemma StartsInEnqueueOrder(d: Dispatcher)
    requires d.Valid()
    ensures var starts := QueuedStarts(d.log);
            |starts| <= |d.enqueued| &&
            (forall i :: 0 <= i < |starts| ==> starts[i] == d.enqueued[i]) &&
            |starts| - d.acked == (if d.queue == [] then 0 else 1)
  {
  }

  /** Events with callbacks received before any acknowledgment start one at a time: only
      the first of them has started. */
  lemma OneRunningAtATime(d: Dispatcher)
    requires d.Valid() && d.acked == 0 && d.enqueued != []
    ensures QueuedStarts(d.log) == [d.enqueued[0]]
  {
  }
}
