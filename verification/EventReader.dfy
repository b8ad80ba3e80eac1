/**
  Greedy batching of events under the 64 KiB message limit: `send_events` of
  proxy_agent/src/telemetry/event_reader.rs.
 */
module EventReader {
  import opened Prelude
  import opened Telemetry
  import opened Batching

  const MAX_MESSAGE_SIZE: nat := 65536

  /** The message limit: the empty document plus the bytes of each event. */
  function MessageLimit(): Limit<TelemetryEvent> {
    Limit(Size([]), MAX_MESSAGE_SIZE, (e: TelemetryEvent) => EventBytes(e))
  }

  /** The size of a message is that of the empty one plus the bytes of its events. */
  lemma SizeIsWeight(b: seq<TelemetryEvent>)
    ensures Size(b) == Size([]) + Weight(MessageLimit().weight, b)
  {
    var size := (es: seq<TelemetryEvent>) => Size(es);
    var w := MessageLimit().weight;
    forall es: seq<TelemetryEvent>, e: TelemetryEvent ensures size(es + [e]) == size(es) + w(e) {
      SizeOfAdded(es, e);
    }
    AdditiveSize(size, w, b);
  }

  /** The limit says of a batch what `get_size` measures. */
  ghost predicate Measures(l: Limit<TelemetryEvent>) {
    forall b: seq<TelemetryEvent> {:trigger Size(b)} :: Fits(l, b) <==> Size(b) < MAX_MESSAGE_SIZE
  }

  lemma MessageLimitMeasures()
    ensures Measures(MessageLimit())
  {
    var l := MessageLimit();
    forall b: seq<TelemetryEvent> ensures Fits(l, b) <==> Size(b) < MAX_MESSAGE_SIZE {
      SizeIsWeight(b);
    }
  }

  // ---------- one batch, step by step ----------

  /** `open` holds what was popped of `es`, `rest` the vector still to pop, and filling has not stopped. */
  ghost predicate Filling<T>(l: Limit<T>, es: seq<T>, open: seq<T>, rest: seq<T>) {
    && |open| <= |es| && open == es[..|open|] && Reversed(rest) == es[|open|..]
    && Taken(l, [], es) == |open| + Taken(l, open, es[|open|..])
  }

  /** Filling has stopped: the batch is what greedy filling takes, and an item too large alone is gone. */
  ghost predicate Filled<T>(l: Limit<T>, es: seq<T>, open: seq<T>, rest: seq<T>) {
    var n := Taken(l, [], es);
    open == es[..n] && es != [] && Reversed(rest) == if n == 0 then es[1..] else es[n..]
  }

  lemma PopFits<T>(l: Limit<T>, es: seq<T>, open: seq<T>, rest: seq<T>)
    requires Filling(l, es, open, rest) && rest != []
    requires Fits(l, open + [rest[|rest| - 1]])
    ensures Filling(l, es, open + [rest[|rest| - 1]], rest[..|rest| - 1])
  {
    var k := |open|;
    assert es[k..][0] == es[k] == rest[|rest| - 1];
    assert es[k..][1..] == es[k + 1..];
    assert es[..k + 1] == open + [es[k]];
  }

  lemma PopOverflows<T>(l: Limit<T>, es: seq<T>, open: seq<T>, rest: seq<T>)
    requires Filling(l, es, open, rest) && rest != []
    requires !Fits(l, open + [rest[|rest| - 1]])
    ensures Filled(l, es, open, if open == [] then rest[..|rest| - 1] else rest)
  {
    assert es[|open|..][0] == rest[|rest| - 1];
  }

  lemma RanOut<T>(l: Limit<T>, es: seq<T>, open: seq<T>)
    requires Filling(l, es, open, []) && es != []
    ensures Filled(l, es, open, [])
  {
  }

  /** A filled batch is the first of the greedy batches; an empty one stands for a dropped item. */
  lemma FilledIsFirst<T>(l: Limit<T>, es: seq<T>, open: seq<T>, rest: seq<T>)
    requires Filled(l, es, open, rest)
    ensures Batches(l, es) == (if open == [] then [] else [open]) + Batches(l, Reversed(rest))
    ensures |rest| < |es|
  {
  }

  class Sender {
    var sent: seq<seq<TelemetryEvent>>

    constructor ()
      ensures sent == []
    {
      sent := [];
    }

    /** `send_data_to_wire_server`: an empty batch is not sent. */
    method SendDataToWireServer(data: TelemetryData)
      modifies this`sent
      ensures sent == if data.events == [] then old(sent) else old(sent) + [data.events]
    {
      if data.events == [] { return; }
      sent := sent + [data.events];
    }

    /** The inner loop: pop events into one batch until the next one would reach the limit. */
    method FillBatch(events: seq<TelemetryEvent>, data: TelemetryData, ghost l: Limit<TelemetryEvent>)
      returns (rest: seq<TelemetryEvent>)
      requires events != [] && data.events == [] && Measures(l)
      modifies data
      ensures Filled(l, Reversed(events), data.events, rest)
    {
      ghost var es := Reversed(events);
      rest := events;
      var addMoreEvents := true;
      while rest != [] && addMoreEvents
        invariant addMoreEvents ==> Filling(l, es, data.events, rest)
        invariant !addMoreEvents ==> Filled(l, es, data.events, rest)
        decreases addMoreEvents, |rest|
      {
        ghost var open, vector := data.events, rest;
        var event := rest[|rest| - 1];
        rest := rest[..|rest| - 1];
        data.AddEvent(event);
        var overflow := Overflows(data, l);
        if overflow {
          PopOverflows(l, es, open, vector);
          var removed := data.RemoveLastEvent();
          assert data.events == open;
          if |data.events| != 0 {
            rest := rest + [event];
            assert rest == vector;
          }
          addMoreEvents := false;
        } else {
          PopFits(l, es, open, vector);
        }
      }
      if addMoreEvents { RanOut(l, es, data.events); }
    }

    /** `get_size() >= MAX_MESSAGE_SIZE` */
    method Overflows(data: TelemetryData, ghost l: Limit<TelemetryEvent>) returns (overflow: bool)
      requires Measures(l)
      ensures overflow == !Fits(l, data.events)
    {
      var size := data.GetSize();
      overflow := size >= MAX_MESSAGE_SIZE;
    }

    /**
      `send_events`: the vector is emptied from its end.  What is sent is exactly the greedy
      batching of the events in that order.
     */
    method SendEvents(log: seq<TelemetryEvent>)
      modifies this`sent
      ensures sent == old(sent) + Batches(MessageLimit(), Reversed(log))
    {
      ghost var l := MessageLimit();
      MessageLimitMeasures();
      SendAll(log, l);
    }

    /** One turn of the outer loop: a batch is filled and sent. */
    method SendOne(events: seq<TelemetryEvent>, ghost l: Limit<TelemetryEvent>) returns (rest: seq<TelemetryEvent>)
      requires events != [] && Measures(l)
      modifies this`sent
      ensures |rest| < |events|
      ensures old(sent) <= sent && Batches(l, Reversed(events)) == sent[|old(sent)|..] + Batches(l, Reversed(rest))
    {
      var data := new TelemetryData();
      rest := FillBatch(events, data, l);
      FilledIsFirst(l, Reversed(events), data.events, rest);
      SendDataToWireServer(data);
    }

    method SendAll(log: seq<TelemetryEvent>, ghost l: Limit<TelemetryEvent>)
      requires Measures(l)
      modifies this`sent
      ensures sent == old(sent) + Batches(l, Reversed(log))
    {
      var events := log;
      ghost var done: seq<seq<TelemetryEvent>> := [];
      while events != []
        invariant sent == old(sent) + done && Batches(l, Reversed(log)) == done + Batches(l, Reversed(events))
        decreases |events|
      {
        ghost var before := sent;
        events := SendOne(events, l);
        done := done + sent[|before|..];
      }
    }
  }

  /** `ys` splits `es` in order into batches under the limit. */
  predicate SplitsWithin(ys: seq<seq<TelemetryEvent>>, es: seq<TelemetryEvent>) {
    Flatten(ys) == es && forall i | 0 <= i < |ys| :: Size(ys[i]) < 65536
  }

  /**
    For every vector of events: each one is in exactly one sent batch, in the order taken,
    or is dropped, and it is dropped exactly when it alone reaches 64 KiB; every batch stays
    under 64 KiB; and when nothing is dropped no split that keeps the order has fewer batches.
   */
  lemma SendEventsIsGreedyBatching(log: seq<TelemetryEvent>, ys: seq<seq<TelemetryEvent>>)
    ensures var l, es := MessageLimit(), Reversed(log);
            var bs := Batches(l, es);
            && Flatten(bs) == Kept(l, es)
            && (forall i | 0 <= i < |bs| :: bs[i] != [] && Size(bs[i]) < 65536)
            && (forall e | e in log :: (e in Flatten(bs) <==> Size([e]) < 65536))
            && (Oversized(l, es) == [] && SplitsWithin(ys, es) ==> |bs| <= |ys|)
  {
    var l, es := MessageLimit(), Reversed(log);
    MessageLimitMeasures();
    BatchingFacts(l, log, ys);
  }

  lemma BatchingFacts(l: Limit<TelemetryEvent>, log: seq<TelemetryEvent>, ys: seq<seq<TelemetryEvent>>)
    requires Measures(l)
    ensures var es := Reversed(log);
            var bs := Batches(l, es);
            && Flatten(bs) == Kept(l, es)
            && (forall i | 0 <= i < |bs| :: bs[i] != [] && Size(bs[i]) < 65536)
            && (forall e | e in log :: (e in Flatten(bs) <==> Size([e]) < 65536))
            && (Oversized(l, es) == [] && SplitsWithin(ys, es) ==> |bs| <= |ys|)
  {
    var es := Reversed(log);
    BatchesConserve(l, es);
    BatchesFit(l, es);
    forall e | e in log ensures e in Flatten(Batches(l, es)) <==> Size([e]) < MAX_MESSAGE_SIZE {
      ReversedMember(log, e);
      KeptMember(l, es, e);
    }
    if Oversized(l, es) == [] && SplitsWithin(ys, es) {
      assert forall i | 0 <= i < |ys| :: Size(ys[i]) < MAX_MESSAGE_SIZE;
      BatchesFewest(l, es, ys);
    }
  }

  lemma {:induction false} ReversedMember<T>(es: seq<T>, e: T)
    ensures e in Reversed(es) <==> e in es
  {
    if es != [] {
      ReversedMember(es[..|es| - 1], e);
      assert es == es[..|es| - 1] + [es[|es| - 1]];
    }
  }

  lemma {:induction false} KeptMember<T>(l: Limit<T>, es: seq<T>, e: T)
    ensures e in Kept(l, es) <==> e in es && Fits(l, [e])
  {
    if es != [] {
      KeptMember(l, es[1..], e);
      assert es == [es[0]] + es[1..];
    }
  }
}
