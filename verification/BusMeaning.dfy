/** What the bus refuses, queues and dead-letters, told by the registry, the queues and the
    handler's answers alone. */
module BusMeaning {
  import opened Bus
  import opened BusLog
  import opened Wrappers

  /** What a topic does not take: anything, if it is not registered; on an envelope topic,
      whatever is no envelope of its own name with an id. */
  predicate Unfit(registry: map<string, Kind>, topic: string, m: Message) {
    || topic !in registry
    || (registry[topic] == EnvelopeKind && (m.Record? || m.eventName != topic || (m.eventId.Given? && m.eventId.id == "")))
  }

  /** Some subscriber of the topic has no room left. */
  ghost predicate Crowded(queues: Queues, topic: string, depth: nat) {
    exists subscriber :: (topic, subscriber) in queues && |queues[(topic, subscriber)]| >= depth
  }

  /** A publish is refused for its schema, else for backpressure, else by storage; and only
      for these. (Refuses is what Publish is proved to answer.) */
  lemma PublishRefusedExactly(bus: Bus, topic: string, m: Message, up: bool)
    ensures var refused := bus.Refuses(topic, m, up);
            && (refused == Some(SchemaViolation) <==> Unfit(bus.registry, topic, m))
            && (refused == Some(Backpressure) <==> !Unfit(bus.registry, topic, m) && Crowded(bus.queues, topic, bus.maxDepth))
            && (refused == Some(StorageDown) <==>
                  !Unfit(bus.registry, topic, m) && !Crowded(bus.queues, topic, bus.maxDepth) && bus.storage != null && !up)
            && (refused == None <==>
                  !Unfit(bus.registry, topic, m) && !Crowded(bus.queues, topic, bus.maxDepth) && (bus.storage == null || up))
  {
    if Full(bus.queues, topic, bus.maxDepth) {
      var k :| k in bus.queues && k.0 == topic && |bus.queues[k]| >= bus.maxDepth;
      assert (topic, k.1) == k;
    }
  }

  /** An accepted message is appended to the queue of every subscriber of its topic, once,
      and to no other queue. */
  lemma QueuedExactly(queues: Queues, topic: string, m: Message)
    ensures forall t, s :: (t, s) in Enqueued(queues, topic, m) <==> (t, s) in queues
    ensures forall t, s :: (t, s) in queues ==>
      Enqueued(queues, topic, m)[(t, s)] == queues[(t, s)] + if t == topic then [m] else []
  {
    forall t, s | (t, s) in queues && t != topic ensures Enqueued(queues, topic, m)[(t, s)] == queues[(t, s)] + [] {
      assert queues[(t, s)] + [] == queues[(t, s)];
    }
  }

  // -- failures of a batch ---------------------------------------------------------------

  /** Attempts were made at the message and the handler failed all of them. */
  predicate FailsAll(handler: Handler, attempts: nat, m: Message) {
    attempts > 0 && forall a: nat :: 1 <= a <= attempts ==> !handler(m, a)
  }

  /** Which of the first n messages do. */
  function Failures(ms: seq<Message>, handler: Handler, attempts: nat, n: nat): set<nat>
    requires n <= |ms|
  {
    set i: nat | i < n && FailsAll(handler, attempts, ms[i])
  }

  /** The letters are those of the failures, in order; the events name them likewise and
      count on from the letters before. */
  ghost predicate Posted(ls: seq<DeadLetter>, ns: seq<Message>, at: seq<nat>, ms: seq<Message>, topic: string, subscriber: string,
                         before: nat) {
    && |ls| == |ns| == |at|
    && (forall k, l :: 0 <= k < l < |at| ==> at[k] < at[l])
    && forall k :: 0 <= k < |at| ==>
         && at[k] < |ms| && ls[k] == DeadLetter(topic, subscriber, ms[at[k]])
         && ns[k] == Envelope(DeadLetterId(before + k + 1), DELIVERY_FAILED,
                              if ms[at[k]].Envelope? then ms[at[k]].requestId else None,
                              map["topic" := topic, "subscriber" := subscriber])
  }

  lemma FailuresGrow(ms: seq<Message>, handler: Handler, attempts: nat, n: nat)
    requires n < |ms|
    ensures Failures(ms, handler, attempts, n + 1)
            == Failures(ms, handler, attempts, n) + if FailsAll(handler, attempts, ms[n]) then {n} else {}
    ensures n !in Failures(ms, handler, attempts, n)
  {
  }

  lemma FailsMeans(handler: Handler, attempts: nat, m: Message)
    ensures Fails(handler, attempts, m) <==> FailsAll(handler, attempts, m)
  {
  }

  lemma PostedStays(ls: seq<DeadLetter>, ns: seq<Message>, at: seq<nat>, ms: seq<Message>, topic: string, subscriber: string, before: nat)
    requires ms != [] && Posted(ls, ns, at, ms[..|ms| - 1], topic, subscriber, before)
    ensures Posted(ls, ns, at, ms, topic, subscriber, before)
  {
  }

  lemma PostedGrows(ls: seq<DeadLetter>, ns: seq<Message>, at: seq<nat>, ms: seq<Message>, topic: string, subscriber: string, before: nat)
    requires ms != [] && Posted(ls, ns, at, ms[..|ms| - 1], topic, subscriber, before)
    ensures var n := |ms| - 1;
            Posted(ls + [DeadLetter(topic, subscriber, ms[n])], ns + [Notice(topic, subscriber, ms[n], before + |ns| + 1)], at + [n], ms,
                   topic, subscriber, before)
  {
  }

  /** The list names exactly the members of the set, each once. */
  ghost predicate Lists(at: seq<nat>, s: set<nat>) {
    |at| == |s| && forall i: nat :: i in at <==> i in s
  }

  lemma ListsMore(at: seq<nat>, s: set<nat>, n: nat)
    requires Lists(at, s) && n !in s
    ensures Lists(at + [n], s + {n})
  {
  }

  lemma OneMoreLetter(topic: string, subscriber: string, ms: seq<Message>, handler: Handler, attempts: nat, before: nat)
    requires ms != []
    ensures var n := |ms| - 1;
            var ls, ns := Letters(topic, subscriber, ms[..n], handler, attempts), Notices(topic, subscriber, ms[..n], handler, attempts, before);
            if FailsAll(handler, attempts, ms[n]) then
              && Letters(topic, subscriber, ms, handler, attempts) == ls + [DeadLetter(topic, subscriber, ms[n])]
              && Notices(topic, subscriber, ms, handler, attempts, before) == ns + [Notice(topic, subscriber, ms[n], before + |ns| + 1)]
            else
              && Letters(topic, subscriber, ms, handler, attempts) == ls && Notices(topic, subscriber, ms, handler, attempts, before) == ns
  {
    var n := |ms| - 1;
    FailsMeans(handler, attempts, ms[n]);
    var ls, ns := Letters(topic, subscriber, ms[..n], handler, attempts), Notices(topic, subscriber, ms[..n], handler, attempts, before);
    assert ls + [] == ls && ns + [] == ns;
  }

  lemma NextPosted(ls: seq<DeadLetter>, ns: seq<Message>, ls': seq<DeadLetter>, ns': seq<Message>, at: seq<nat>, ms: seq<Message>,
                   topic: string, subscriber: string, before: nat, fails: bool)
    requires ms != [] && Posted(ls, ns, at, ms[..|ms| - 1], topic, subscriber, before)
    requires if fails then
               ls' == ls + [DeadLetter(topic, subscriber, ms[|ms| - 1])]
               && ns' == ns + [Notice(topic, subscriber, ms[|ms| - 1], before + |ns| + 1)]
             else ls' == ls && ns' == ns
    ensures Posted(ls', ns', if fails then at + [|ms| - 1] else at, ms, topic, subscriber, before)
  {
    if fails {
      PostedGrows(ls, ns, at, ms, topic, subscriber, before);
    } else {
      PostedStays(ls, ns, at, ms, topic, subscriber, before);
    }
  }

  lemma NextListed(at: seq<nat>, ms: seq<Message>, handler: Handler, attempts: nat)
    requires ms != [] && Lists(at, Failures(ms[..|ms| - 1], handler, attempts, |ms| - 1))
    ensures Lists(if FailsAll(handler, attempts, ms[|ms| - 1]) then at + [|ms| - 1] else at, Failures(ms, handler, attempts, |ms|))
  {
    var n := |ms| - 1;
    assert Failures(ms, handler, attempts, n) == Failures(ms[..n], handler, attempts, n);
    FailuresGrow(ms, handler, attempts, n);
    if FailsAll(handler, attempts, ms[n]) {
      ListsMore(at, Failures(ms, handler, attempts, n), n);
    }
  }

  /** Which messages the letters and the events of a batch are for. */
  lemma {:induction false} LettersAre(topic: string, subscriber: string, ms: seq<Message>, handler: Handler, attempts: nat, before: nat)
    returns (at: seq<nat>)
    ensures Posted(Letters(topic, subscriber, ms, handler, attempts), Notices(topic, subscriber, ms, handler, attempts, before), at, ms,
                   topic, subscriber, before)
    ensures Lists(at, Failures(ms, handler, attempts, |ms|))
  {
    if ms == [] {
      at := [];
    } else {
      var n := |ms| - 1;
      var earlier := LettersAre(topic, subscriber, ms[..n], handler, attempts, before);
      var fails := FailsAll(handler, attempts, ms[n]);
      at := if fails then earlier + [n] else earlier;
      OneMoreLetter(topic, subscriber, ms, handler, attempts, before);
      NextPosted(Letters(topic, subscriber, ms[..n], handler, attempts), Notices(topic, subscriber, ms[..n], handler, attempts, before),
                 Letters(topic, subscriber, ms, handler, attempts), Notices(topic, subscriber, ms, handler, attempts, before),
                 earlier, ms, topic, subscriber, before, fails);
      NextListed(earlier, ms, handler, attempts);
    }
  }

  /** Message i fails, and a subscriber of delivery.failed has no room left after the
      failures before it, or storage refuses the write. */
  ghost predicate Stops(job: Job, i: nat)
    requires i < |job.batch|
  {
    && FailsAll(job.handler, job.attempts, job.batch[i])
    && ((job.durable && !job.up(i))
        || exists s :: (DELIVERY_FAILED, s) in job.emptied
                       && |job.emptied[(DELIVERY_FAILED, s)]| + |Failures(job.batch, job.handler, job.attempts, i)| >= job.depth)
  }

  lemma StopsMeans(job: Job, i: nat)
    requires i < |job.batch|
    ensures Stops(job, i) <==> job.CutAt(i)
  {
    var ms := job.batch[..i];
    var at := LettersAre(job.topic, job.subscriber, ms, job.handler, job.attempts, |job.letters|);
    assert Failures(ms, job.handler, job.attempts, i) == Failures(job.batch, job.handler, job.attempts, i);
    FailsMeans(job.handler, job.attempts, job.batch[i]);
    if !RoomFor(job.emptied, job.depth, |at|) {
      var k :| k in job.emptied && k.0 == DELIVERY_FAILED && |job.emptied[k]| + |at| >= job.depth;
      assert (DELIVERY_FAILED, k.1) == k;
    }
  }

  /** A batch is cut short if and only if some message stops it, and then at the first that
      does. (Outcome is what DeliverWith is proved to leave.) */
  lemma CutShortExactly(job: Job, handled: nat, r: Result<(nat, nat), Refusal>, letters: seq<DeadLetter>, queues: Queues,
                        accepted: seq<(string, Message)>)
    requires Outcome(job, handled, r, letters, queues, accepted)
    ensures r.Ok? <==> forall i: nat :: i < |job.batch| ==> !Stops(job, i)
    ensures r.Ok? ==> handled == |job.batch|
    ensures r.Err? ==> 0 < handled <= |job.batch| && Stops(job, handled - 1) && forall i: nat :: i < handled - 1 ==> !Stops(job, i)
  {
    forall i: nat | i < |job.batch| ensures Stops(job, i) <==> job.CutAt(i) {
      StopsMeans(job, i);
    }
  }

  /** Of the messages handled, exactly the failing ones are dead-lettered, in order; each but
      the one a batch is cut short at is announced to every subscriber of delivery.failed,
      and no other queue gains anything. */
  lemma DeliveryTells(job: Job, handled: nat, r: Result<(nat, nat), Refusal>, letters: seq<DeadLetter>, queues: Queues,
                      accepted: seq<(string, Message)>) returns (at: seq<nat>, ls: seq<DeadLetter>, ns: seq<Message>)
    requires Outcome(job, handled, r, letters, queues, accepted)
    ensures handled <= |job.batch| && letters == job.letters + ls
    ensures Posted(ls, ns, at, job.batch, job.topic, job.subscriber, |job.letters|)
    ensures Lists(at, Failures(job.batch, job.handler, job.attempts, handled))
    ensures r.Ok? ==> r.value.1 == |at| && r.value.0 == if job.attempts == 0 then 0 else |job.batch| - |at|
    ensures r.Ok? ==> Announced(job, ns, queues)
    ensures r.Err? ==> ns != [] && Announced(job, ns[..|ns| - 1], queues)
  {
    var ms := job.batch[..handled];
    at := LettersAre(job.topic, job.subscriber, ms, job.handler, job.attempts, |job.letters|);
    ls, ns := job.LettersUpTo(handled), job.NoticesUpTo(handled);
    assert Failures(ms, job.handler, job.attempts, handled) == Failures(job.batch, job.handler, job.attempts, handled);
    if r.Err? {
      OneNoticeLess(job, handled);
      QueuesTell(job, job.NoticesUpTo(handled - 1), queues);
    } else {
      QueuesTell(job, ns, queues);
    }
  }

  ghost predicate Announced(job: Job, out: seq<Message>, queues: Queues) {
    forall t, s :: (t, s) in job.emptied ==>
      (t, s) in queues && queues[(t, s)] == job.emptied[(t, s)] + if t == DELIVERY_FAILED then out else []
  }

  lemma OneNoticeLess(job: Job, handled: nat)
    requires 0 < handled <= |job.batch| && job.CutAt(handled - 1)
    ensures var ns := job.NoticesUpTo(handled);
            ns != [] && job.NoticesUpTo(handled - 1) == ns[..|ns| - 1]
  {
    assert job.batch[..handled][..handled - 1] == job.batch[..handled - 1];
  }

  lemma QueuesTell(job: Job, out: seq<Message>, queues: Queues)
    requires queues == Noticed(job.emptied, out)
    ensures Announced(job, out, queues)
  {
    forall t, s | (t, s) in job.emptied && t != DELIVERY_FAILED ensures queues[(t, s)] == job.emptied[(t, s)] + [] {
      assert job.emptied[(t, s)] + [] == job.emptied[(t, s)];
    }
  }
}
