/** The event bus: per-subscription queues in memory, and a log in storage that every later
    bus over the same storage goes on with. Reads and writes of storage fail at will. */
module Bus {
  import opened BusLog
  import opened Wrappers

  datatype Kind = EnvelopeKind | RecordKind

  datatype Refusal = SchemaViolation | Backpressure | DurabilityUnavailable | StorageDown | DuplicateSubscription | UnknownSubscription

  const DELIVERY_FAILED := "delivery.failed"

  /** The topic is registered and the message has its shape. */
  predicate Conforms(registry: map<string, Kind>, topic: string, m: Message) {
    topic in registry && (registry[topic] == RecordKind || (m.Envelope? && m.eventName == topic && m.eventId != Given("")))
  }

  type LogKey = (string, nat)
  /** The keys written hold exactly these logs, each from zero without a gap. */
  ghost predicate Holds(blobs: map<LogKey, Message>, logs: Logs) {
    && (forall topic: string, n: nat :: (topic, n) in blobs <==> n < |LogOf(logs, topic)|)
    && forall topic: string, n: nat :: n < |LogOf(logs, topic)| ==> blobs[(topic, n)] == LogOf(logs, topic)[n]
  }

  /** The injected storage port, shared by successive buses. */
  class Storage {
    var blobs: map<LogKey, Message>
    /** What is stored of each topic, and what has been accepted on it, over all buses. */
    ghost var logs: Logs
    ghost var history: Logs

    constructor ()
      ensures Valid() && blobs == map[] && logs == map[] && history == map[]
    {
      blobs, logs, history := map[], map[], map[];
      NoLogOk();
    }

    ghost predicate Valid()
      reads this
    {
      Holds(blobs, logs) && LogStateOk(LogState(logs, history, map[]))
    }
  }

  /** A subscription: topic and subscriber. */
  type Key = (string, string)
  type Queues = map<Key, seq<Message>>

  // Each of these maps tests its domain again in its values, so that it says nothing of
  // keys outside it.

  /** The queues after one more message on a topic. */
  function Enqueued(queues: Queues, topic: string, m: Message): Queues {
    map k | k in queues :: if k in queues && k.0 == topic then queues[k] + [m] else queues[k]
  }

  /** The same, for the listed subscribers only. */
  function EnqueuedFor(queues: Queues, topic: string, subs: seq<string>, m: Message): Queues {
    map k | k in queues :: if k in queues && k.0 == topic && k.1 in subs then queues[k] + [m] else queues[k]
  }

  lemma OneMoreSubscriber(queues: Queues, topic: string, subs: seq<string>, i: nat, m: Message)
    requires i < |subs| && (topic, subs[i]) in queues && OnceEach(subs)
    ensures var key, so := (topic, subs[i]), EnqueuedFor(queues, topic, subs[..i], m);
            key in so && EnqueuedFor(queues, topic, subs[..i + 1], m) == so[key := so[key] + [m]]
  {
    var before, after, key := subs[..i], subs[..i + 1], (topic, subs[i]);
    assert after == before + [subs[i]] && subs[i] !in before;
    var so, next := EnqueuedFor(queues, topic, before, m), EnqueuedFor(queues, topic, after, m);
    forall k | k in queues ensures next[k] == so[key := so[key] + [m]][k] {
      assert k.0 == topic && k.1 in after <==> k == key || (k.0 == topic && k.1 in before);
    }
  }

  lemma AllSubscribers(queues: Queues, roster: Roster, topic: string, m: Message)
    requires Rostered(queues, roster)
    ensures EnqueuedFor(queues, topic, SubscribersIn(roster, topic), m) == Enqueued(queues, topic, m)
  {
    forall k | k in queues && k.0 == topic ensures k.1 in SubscribersIn(roster, topic) {
    }
  }

  predicate Full(queues: Queues, topic: string, depth: nat) {
    exists k :: k in queues && k.0 == topic && |queues[k]| >= depth
  }

  function AcceptedOn(topic: string, accepted: seq<(string, Message)>): seq<Message> {
    if accepted == [] then []
    else AcceptedOn(topic, accepted[..|accepted| - 1])
         + if accepted[|accepted| - 1].0 == topic then [accepted[|accepted| - 1].1] else []
  }

  type Roster = map<string, seq<string>>

  function SubscribersIn(roster: Roster, topic: string): seq<string> {
    if topic in roster then roster[topic] else []
  }

  ghost predicate OnceEach(subs: seq<string>) {
    forall i, j :: 0 <= i < j < |subs| ==> subs[i] != subs[j]
  }

  /** Every subscription has a queue, and is listed once under its topic. */
  ghost predicate Rostered(queues: Queues, roster: Roster) {
    && (forall k :: k in queues <==> k.1 in SubscribersIn(roster, k.0))
    && forall topic :: OnceEach(SubscribersIn(roster, topic))
  }

  lemma RosterJoins(queues: Queues, roster: Roster, key: Key)
    requires Rostered(queues, roster) && key !in queues
    ensures Rostered(queues[key := []], roster[key.0 := SubscribersIn(roster, key.0) + [key.1]])
  {
    var roster' := roster[key.0 := SubscribersIn(roster, key.0) + [key.1]];
    assert key.1 !in SubscribersIn(roster, key.0);
    forall t ensures OnceEach(SubscribersIn(roster', t)) {
      assert OnceEach(SubscribersIn(roster, t));
    }
    forall k: Key ensures k in queues[key := []] <==> k.1 in SubscribersIn(roster', k.0) {
      assert k in queues <==> k.1 in SubscribersIn(roster, k.0);
      if k.0 == key.0 && k.1 == key.1 {
        assert k == key;
      }
    }
  }

  lemma RosterKeeps(before: Queues, after: Queues, roster: Roster)
    requires Rostered(before, roster) && after.Keys == before.Keys
    ensures Rostered(after, roster)
  {
    assert forall k :: k in after <==> k in before;
  }

  lemma HoldsWritten(blobs: map<LogKey, Message>, logs: Logs, topic: string, n: nat, m: Message)
    requires Holds(blobs, logs) && n <= |LogOf(logs, topic)|
    ensures Holds(blobs[(topic, n) := m], logs[topic := Written(LogOf(logs, topic), n, m)])
  {
    var more := logs[topic := Written(LogOf(logs, topic), n, m)];
    forall t: string, i: nat ensures (t, i) in blobs[(topic, n) := m] <==> i < |LogOf(more, t)| {
      assert (t, i) in blobs <==> i < |LogOf(logs, t)|;
    }
  }

  /** What a bus accepted is the tail of the history, since it began. */
  ghost predicate Continues(history: Logs, since: Logs, accepted: seq<(string, Message)>) {
    forall t: string :: Tail(history, since, accepted, t)
  }

  predicate Tail(history: Logs, since: Logs, accepted: seq<(string, Message)>, t: string) {
    LogOf(history, t) == LogOf(since, t) + AcceptedOn(t, accepted)
  }

  lemma ContinuesMore(history: Logs, since: Logs, accepted: seq<(string, Message)>, topic: string, m: Message)
    requires Continues(history, since, accepted)
    ensures Continues(history[topic := LogOf(history, topic) + [m]], since, accepted + [(topic, m)])
  {
    var more, after := accepted + [(topic, m)], history[topic := LogOf(history, topic) + [m]];
    assert more[..|accepted|] == accepted;
    forall t: string ensures Tail(after, since, more, t) {
      assert Tail(history, since, accepted, t);
    }
  }

  lemma ContinuesFromNow(history: Logs)
    ensures Continues(history, history, [])
  {
    forall t: string ensures Tail(history, history, [], t) {
      assert LogOf(history, t) + [] == LogOf(history, t);
    }
  }

  /** One subscription: what was drained and what is pending are together exactly what
      was accepted on its topic since it joined, in order. */
  ghost predicate AccountOk(k: Key, pending: seq<Message>, joined: nat, drained: seq<Message>, accepted: seq<(string, Message)>) {
    joined <= |AcceptedOn(k.0, accepted)| && drained + pending == AcceptedOn(k.0, accepted)[joined..]
  }

  ghost predicate AccountsOk(queues: Queues, joined: map<Key, nat>, drained: Queues, accepted: seq<(string, Message)>) {
    && joined.Keys == queues.Keys && drained.Keys == queues.Keys
    && forall k :: k in queues ==> AccountOk(k, queues[k], joined[k], drained[k], accepted)
  }

  lemma AccountsEnqueue(queues: Queues, joined: map<Key, nat>, drained: Queues, accepted: seq<(string, Message)>, topic: string, m: Message)
    requires AccountsOk(queues, joined, drained, accepted)
    ensures AccountsOk(Enqueued(queues, topic, m), joined, drained, accepted + [(topic, m)])
  {
    var more, after := accepted + [(topic, m)], Enqueued(queues, topic, m);
    assert more[..|accepted|] == accepted;
    assert after.Keys == queues.Keys;
    forall k | k in after ensures AccountOk(k, after[k], joined[k], drained[k], more) {
      assert AccountOk(k, queues[k], joined[k], drained[k], accepted);
      if k.0 == topic {
        assert drained[k] + (queues[k] + [m]) == (drained[k] + queues[k]) + [m];
      }
    }
  }

  lemma AccountsDrain(queues: Queues, joined: map<Key, nat>, drained: Queues, accepted: seq<(string, Message)>, key: Key)
    requires AccountsOk(queues, joined, drained, accepted) && key in queues
    ensures AccountsOk(queues[key := []], joined, drained[key := drained[key] + queues[key]], accepted)
  {
    assert AccountOk(key, queues[key], joined[key], drained[key], accepted);
    assert drained[key] + queues[key] + [] == drained[key] + queues[key];
  }

  lemma AccountsJoin(queues: Queues, joined: map<Key, nat>, drained: Queues, accepted: seq<(string, Message)>, key: Key)
    requires AccountsOk(queues, joined, drained, accepted) && key !in queues
    ensures AccountsOk(queues[key := []], joined[key := |AcceptedOn(key.0, accepted)|], drained[key := []], accepted)
  {
  }

  /** What was drained so far, and this. */
  function Credited(drained: Queues, key: Key, ms: seq<Message>): Queues {
    drained[key := (if key in drained then drained[key] else []) + ms]
  }

  datatype DeadLetter = DeadLetter(topic: string, subscriber: string, message: Message)

  /** Whether the n-th attempt at a message succeeds. */
  type Handler = (Message, nat) -> bool

  predicate Succeeds(handler: Handler, attempts: nat, m: Message) {
    exists a: nat :: 1 <= a <= attempts && handler(m, a)
  }

  /** Every attempt was made and failed; with no attempts to make there is nothing to fail. */
  predicate Fails(handler: Handler, attempts: nat, m: Message) {
    attempts >= 1 && !Succeeds(handler, attempts, m)
  }

  /** The dead letters of these messages, in order. */
  function Letters(topic: string, subscriber: string, ms: seq<Message>, handler: Handler, attempts: nat): seq<DeadLetter> {
    if ms == [] then []
    else Letters(topic, subscriber, ms[..|ms| - 1], handler, attempts)
         + if Fails(handler, attempts, ms[|ms| - 1]) then [DeadLetter(topic, subscriber, ms[|ms| - 1])] else []
  }

  // -- failures of one batch ---------------------------------------------------------

  /** The delivery.failed event of the n-th dead letter. */
  function Notice(topic: string, subscriber: string, m: Message, n: nat): Message {
    Envelope(DeadLetterId(n), DELIVERY_FAILED, if m.Envelope? then m.requestId else None,
             map["topic" := topic, "subscriber" := subscriber])
  }

  /** The events for the failures of a batch, after `before` dead letters. */
  function Notices(topic: string, subscriber: string, ms: seq<Message>, handler: Handler, attempts: nat, before: nat): (ns: seq<Message>)
    ensures |ns| == |Letters(topic, subscriber, ms, handler, attempts)|
  {
    if ms == [] then []
    else
      var earlier := Notices(topic, subscriber, ms[..|ms| - 1], handler, attempts, before);
      earlier + if Fails(handler, attempts, ms[|ms| - 1])
                then [Notice(topic, subscriber, ms[|ms| - 1], before + |earlier| + 1)] else []
  }

  /** The queues once these events are in every queue of delivery.failed. */
  function Noticed(queues: Queues, ns: seq<Message>): Queues {
    map k | k in queues :: if k in queues && k.0 == DELIVERY_FAILED then queues[k] + ns else queues[k]
  }

  function Tagged(ns: seq<Message>): (ts: seq<(string, Message)>)
    ensures |ts| == |ns| && forall i :: 0 <= i < |ns| ==> ts[i] == (DELIVERY_FAILED, ns[i])
  {
    seq(|ns|, i requires 0 <= i < |ns| => (DELIVERY_FAILED, ns[i]))
  }

  lemma OneMoreNotice(queues: Queues, ns: seq<Message>, n: Message, accepted: seq<(string, Message)>)
    ensures Enqueued(Noticed(queues, ns), DELIVERY_FAILED, n) == Noticed(queues, ns + [n])
    ensures accepted + Tagged(ns) + [(DELIVERY_FAILED, n)] == accepted + Tagged(ns + [n])
  {
    forall k | k in queues ensures Enqueued(Noticed(queues, ns), DELIVERY_FAILED, n)[k] == Noticed(queues, ns + [n])[k] {
      assert queues[k] + ns + [n] == queues[k] + (ns + [n]);
    }
  }

  lemma NoNotice(queues: Queues, accepted: seq<(string, Message)>)
    ensures Noticed(queues, []) == queues && accepted + Tagged([]) == accepted
  {
    forall k | k in queues ensures Noticed(queues, [])[k] == queues[k] {
      assert queues[k] + [] == queues[k];
    }
  }

  /** Every subscriber of delivery.failed has room for one event after n others. */
  predicate RoomFor(queues: Queues, depth: nat, n: nat) {
    forall k :: k in queues && k.0 == DELIVERY_FAILED ==> |queues[k]| + n < depth
  }

  lemma FullExactly(queues: Queues, ns: seq<Message>, depth: nat)
    ensures Full(Noticed(queues, ns), DELIVERY_FAILED, depth) <==> !RoomFor(queues, depth, |ns|)
  {
    if !RoomFor(queues, depth, |ns|) {
      var k :| k in queues && k.0 == DELIVERY_FAILED && |queues[k]| + |ns| >= depth;
      assert k in Noticed(queues, ns);
    }
  }

  /** A batch to deliver, and how things stood when it was drained. */
  datatype Job = Job(
    topic: string, subscriber: string, batch: seq<Message>, handler: Handler, attempts: nat, depth: nat,
    durable: bool, up: nat -> bool, emptied: Queues, letters: seq<DeadLetter>, accepted: seq<(string, Message)>)
  {
    function LettersUpTo(i: nat): seq<DeadLetter>
      requires i <= |batch|
    {
      Letters(topic, subscriber, batch[..i], handler, attempts)
    }

    function NoticesUpTo(i: nat): seq<Message>
      requires i <= |batch|
    {
      Notices(topic, subscriber, batch[..i], handler, attempts, |letters|)
    }

    /** Message i fails and its delivery.failed is refused: a subscriber has no room left
        after the failures before it, or storage refuses the write. */
    predicate CutAt(i: nat)
      requires i < |batch|
    {
      Fails(handler, attempts, batch[i]) && (!RoomFor(emptied, depth, |LettersUpTo(i)|) || (durable && !up(i)))
    }

    function WhyCut(i: nat): Refusal
      requires i < |batch|
    {
      if !RoomFor(emptied, depth, |LettersUpTo(i)|) then Backpressure else StorageDown
    }
  }

  /** Letters, queues and accepted messages when the failures of `lettered` messages are
      dead-lettered and the events of the first `out` are queued. */
  ghost predicate Stands(job: Job, lettered: nat, out: nat, letters: seq<DeadLetter>, queues: Queues, accepted: seq<(string, Message)>) {
    && lettered <= |job.batch| && out <= |job.batch|
    && letters == job.letters + job.LettersUpTo(lettered)
    && queues == Noticed(job.emptied, job.NoticesUpTo(out)) && accepted == job.accepted + Tagged(job.NoticesUpTo(out))
  }

  lemma JobStarts(job: Job)
    ensures Stands(job, 0, 0, job.letters, job.emptied, job.accepted)
  {
    NoNotice(job.emptied, job.accepted);
  }

  lemma JobFull(job: Job, i: nat, letters: seq<DeadLetter>, queues: Queues, accepted: seq<(string, Message)>)
    requires Stands(job, i, i, letters, queues, accepted)
    ensures Full(queues, DELIVERY_FAILED, job.depth) <==> !RoomFor(job.emptied, job.depth, |job.LettersUpTo(i)|)
  {
    FullExactly(job.emptied, job.NoticesUpTo(i), job.depth);
  }

  lemma JobDelivers(job: Job, i: nat, letters: seq<DeadLetter>, queues: Queues, accepted: seq<(string, Message)>)
    requires Stands(job, i, i, letters, queues, accepted) && i < |job.batch| && !Fails(job.handler, job.attempts, job.batch[i])
    ensures Stands(job, i + 1, i + 1, letters, queues, accepted)
  {
    assert job.batch[..i + 1][..i] == job.batch[..i];
    assert job.NoticesUpTo(i) + [] == job.NoticesUpTo(i) && job.LettersUpTo(i) + [] == job.LettersUpTo(i);
  }

  lemma JobBuries(job: Job, i: nat, letters: seq<DeadLetter>, queues: Queues, accepted: seq<(string, Message)>)
    requires Stands(job, i, i, letters, queues, accepted) && i < |job.batch| && Fails(job.handler, job.attempts, job.batch[i])
    ensures var buried := letters + [DeadLetter(job.topic, job.subscriber, job.batch[i])];
            var notice := Notice(job.topic, job.subscriber, job.batch[i], |buried|);
            && Stands(job, i + 1, i, buried, queues, accepted)
            && Stands(job, i + 1, i + 1, buried, Enqueued(queues, DELIVERY_FAILED, notice), accepted + [(DELIVERY_FAILED, notice)])
  {
    assert job.batch[..i + 1][..i] == job.batch[..i];
    var buried := letters + [DeadLetter(job.topic, job.subscriber, job.batch[i])];
    OneMoreNotice(job.emptied, job.NoticesUpTo(i), Notice(job.topic, job.subscriber, job.batch[i], |buried|), job.accepted);
  }

  /** The loop over a batch, before message i or cut short at the message before it. */
  ghost predicate Running(job: Job, i: nat, refused: Option<Refusal>, delivered: nat, dead: nat, letters: seq<DeadLetter>,
                          queues: Queues, accepted: seq<(string, Message)>) {
    && i <= |job.batch|
    && (refused.None? ==>
          && Stands(job, i, i, letters, queues, accepted) && (forall j: nat :: j < i ==> !job.CutAt(j))
          && delivered + dead == (if job.attempts >= 1 then i else 0) && dead == |letters| - |job.letters|)
    && (refused.Some? ==>
          && 0 < i && refused.value == job.WhyCut(i - 1)
          && Stands(job, i, i - 1, letters, queues, accepted)
          && job.CutAt(i - 1) && (forall j: nat :: j < i - 1 ==> !job.CutAt(j)))
  }

  lemma RunningStarts(job: Job)
    ensures Running(job, 0, None, 0, 0, job.letters, job.emptied, job.accepted)
  {
    JobStarts(job);
  }

  lemma RunningDelivers(job: Job, i: nat, delivered: nat, dead: nat, letters: seq<DeadLetter>, queues: Queues,
                        accepted: seq<(string, Message)>, ok: bool)
    requires Running(job, i, None, delivered, dead, letters, queues, accepted) && i < |job.batch|
    requires ok == Succeeds(job.handler, job.attempts, job.batch[i]) && (ok || job.attempts == 0)
    ensures Running(job, i + 1, None, if ok then delivered + 1 else delivered, dead, letters, queues, accepted)
  {
    JobDelivers(job, i, letters, queues, accepted);
  }

  /** Why the event of one more failure is refused, if it is. */
  function NoticeRefused(queues: Queues, depth: nat, durable: bool, up: bool): Option<Refusal> {
    if Full(queues, DELIVERY_FAILED, depth) then Some(Backpressure) else if durable && !up then Some(StorageDown) else None
  }

  lemma RunningBuries(job: Job, i: nat, delivered: nat, dead: nat, letters: seq<DeadLetter>, queues: Queues, accepted: seq<(string, Message)>)
    requires Running(job, i, None, delivered, dead, letters, queues, accepted) && i < |job.batch|
    requires Fails(job.handler, job.attempts, job.batch[i])
    ensures var buried := letters + [DeadLetter(job.topic, job.subscriber, job.batch[i])];
            var notice := Notice(job.topic, job.subscriber, job.batch[i], |buried|);
            match NoticeRefused(queues, job.depth, job.durable, job.up(i))
            case None => Running(job, i + 1, None, delivered, dead + 1, buried, Enqueued(queues, DELIVERY_FAILED, notice),
                                 accepted + [(DELIVERY_FAILED, notice)])
            case Some(refusal) => Running(job, i + 1, Some(refusal), delivered, dead + 1, buried, queues, accepted)
  {
    JobFull(job, i, letters, queues, accepted);
    JobBuries(job, i, letters, queues, accepted);
  }

  lemma RunningEnds(job: Job, i: nat, refused: Option<Refusal>, delivered: nat, dead: nat, letters: seq<DeadLetter>, queues: Queues,
                    accepted: seq<(string, Message)>)
    requires Running(job, i, refused, delivered, dead, letters, queues, accepted) && (i == |job.batch| || refused.Some?)
    ensures Outcome(job, i, if refused.Some? then Err(refused.value) else Ok((delivered, dead)), letters, queues, accepted)
  {
  }

  /** What a batch leaves. */
  ghost predicate Outcome(job: Job, handled: nat, r: Result<(nat, nat), Refusal>, letters: seq<DeadLetter>, queues: Queues,
                          accepted: seq<(string, Message)>) {
    && (r.Ok? <==> forall i: nat :: i < |job.batch| ==> !job.CutAt(i))
    && (r.Ok? ==>
          && handled == |job.batch| && Stands(job, handled, handled, letters, queues, accepted)
          && r.value.0 + r.value.1 == (if job.attempts >= 1 then |job.batch| else 0)
          && r.value.1 == |letters| - |job.letters|)
    && (r.Err? ==>
          && 0 < handled <= |job.batch| && r.error == job.WhyCut(handled - 1)
          && job.CutAt(handled - 1) && (forall i: nat :: i < handled - 1 ==> !job.CutAt(i))
          && Stands(job, handled, handled - 1, letters, queues, accepted))
  }

  class Bus {
    const storage: Storage?
    const maxDepth: nat
    const maxAttempts: nat
    var registry: map<string, Kind>
    var queues: Queues
    var subscribers: Roster
    var durable: set<Key>
    var logSeq: map<string, nat>
    var deadLetters: seq<DeadLetter>
    /** What this bus accepted, in order; where each subscription joined; what it has drained;
        and the history when it began. */
    ghost var accepted: seq<(string, Message)>
    ghost var joined: map<Key, nat>
    ghost var drained: Queues
    ghost const since: Logs

    constructor (s: Storage?, kinds: map<string, Kind>, depth: nat, attempts: nat)
      requires s != null ==> s.Valid()
      requires DELIVERY_FAILED in kinds && kinds[DELIVERY_FAILED] == EnvelopeKind
      ensures Valid() && storage == s && maxDepth == depth && maxAttempts == attempts && registry == kinds
      ensures queues == map[] && deadLetters == [] && accepted == []
      ensures s != null ==> Recorded() == LogState(s.logs, s.history, map[])
    {
      storage, maxDepth, maxAttempts, registry := s, depth, attempts, kinds;
      queues, subscribers, durable, logSeq, deadLetters := map[], map[], {}, map[], [];
      accepted, joined, drained := [], map[], map[];
      since := if s != null then s.history else map[];
      new;
      if storage != null {
        ContinuesFromNow(storage.history);
      }
    }

    /** Logs, history and numbers, as the specification has them. */
    ghost function Recorded(): LogState
      requires storage != null
      reads this`logSeq, storage
    {
      LogState(storage.logs, storage.history, logSeq)
    }

    ghost predicate LogsOk()
      reads this`logSeq, storage
    {
      storage != null ==> Holds(storage.blobs, storage.logs) && LogStateOk(Recorded())
    }

    ghost predicate Continuing()
      reads this`accepted, storage
    {
      storage != null ==> Continues(storage.history, since, accepted)
    }

    ghost predicate QueuesOk()
      reads this`queues, this`subscribers, this`joined, this`drained, this`accepted, this`durable
    {
      && Rostered(queues, subscribers)
      && AccountsOk(queues, joined, drained, accepted)
      && durable <= queues.Keys && (durable != {} ==> storage != null)
    }

    ghost predicate Valid()
      reads this`logSeq, this`queues, this`subscribers, this`joined, this`drained, this`accepted, this`durable, this`registry, storage
    {
      Lasting() && QueuesOk()
    }

    /** All but the queues. */
    ghost predicate Lasting()
      reads this`logSeq, this`accepted, this`registry, storage
    {
      && LogsOk() && Continuing()
      && DELIVERY_FAILED in registry && registry[DELIVERY_FAILED] == EnvelopeKind
    }

    method RegisterTopic(topic: string, kind: Kind) returns (refused: Option<Refusal>)
      requires Valid()
      modifies this`registry
      ensures Valid()
      ensures refused == if topic in old(registry) then Some(SchemaViolation) else None
      ensures registry == if refused.None? then old(registry)[topic := kind] else old(registry)
    {
      if topic in registry {
        return Some(SchemaViolation);
      }
      registry := registry[topic := kind];
      return None;
    }

    method Subscribe(topic: string, subscriber: string, isDurable: bool) returns (refused: Option<Refusal>)
      requires Valid()
      modifies this
      ensures Valid() && accepted == old(accepted) && registry == old(registry) && deadLetters == old(deadLetters)
      ensures refused == if topic !in registry then Some(SchemaViolation)
                         else if isDurable && storage == null then Some(DurabilityUnavailable)
                         else if (topic, subscriber) in old(queues) then Some(DuplicateSubscription)
                         else None
      ensures refused.Some? ==> unchanged(this)
      ensures refused.None? ==> queues == old(queues)[(topic, subscriber) := []]
    {
      if topic !in registry {
        return Some(SchemaViolation);
      }
      if isDurable && storage == null {
        return Some(DurabilityUnavailable);
      }
      var key := (topic, subscriber);
      if key in queues {
        return Some(DuplicateSubscription);
      }
      Enroll(key, isDurable);
      return None;
    }

    method Enroll(key: Key, isDurable: bool)
      requires QueuesOk() && key !in queues && (isDurable ==> storage != null)
      modifies this`queues, this`joined, this`drained, this`subscribers, this`durable
      ensures QueuesOk() && queues == old(queues)[key := []]
    {
      RosterJoins(queues, subscribers, key);
      AccountsJoin(queues, joined, drained, accepted, key);
      assert queues.Keys + {key} == queues[key := []].Keys;
      queues, joined, drained, subscribers, durable :=
        queues[key := []], joined[key := |AcceptedOn(key.0, accepted)|], drained[key := []],
        subscribers[key.0 := SubscribersIn(subscribers, key.0) + [key.1]],
        if isDurable then durable + {key} else durable;
    }

    /** Next sequence number of a topic: remembered, or where reading forward from zero
        stops -- at the end of the log, or at a record that cannot be read just now. */
    method SeqFloor(topic: string, readable: Readable) returns (n: nat)
      requires LogsOk() && storage != null
      modifies this`logSeq
      ensures LogsOk() && n == old(NumberOf(Recorded(), topic, readable))
      ensures Recorded() == old(Probed(Recorded(), topic, readable))
    {
      ProbedOk(Recorded(), topic, readable);
      if topic in logSeq {
        assert logSeq == logSeq[topic := logSeq[topic]];
        return logSeq[topic];
      }
      ghost var length := |LogOf(storage.logs, topic)|;
      n := 0;
      while (topic, n) in storage.blobs && readable(n)
        invariant n <= length && Floor(length, readable, n) == Floor(length, readable, 0)
        decreases length - n
      {
        n := n + 1;
      }
      logSeq := logSeq[topic := n];
    }

    /** Whether some subscriber of a topic has no room left. */
    method AnyFull(topic: string) returns (full: bool)
      requires Rostered(queues, subscribers)
      ensures full <==> Full(queues, topic, maxDepth)
    {
      var subs := SubscribersIn(subscribers, topic);
      for i := 0 to |subs|
        invariant forall j :: 0 <= j < i ==> (topic, subs[j]) in queues && |queues[(topic, subs[j])]| < maxDepth
      {
        var key := (topic, subs[i]);
        assert key.1 in SubscribersIn(subscribers, key.0);
        if |queues[key]| >= maxDepth {
          return true;
        }
      }
      forall k | k in queues && k.0 == topic ensures |queues[k]| < maxDepth {
        assert k.1 in SubscribersIn(subscribers, k.0);
        var j :| 0 <= j < |subs| && subs[j] == k.1;
        assert (topic, subs[j]) == k;
      }
      return false;
    }

    method EnqueueAll(topic: string, m: Message)
      requires Rostered(queues, subscribers)
      modifies this`queues
      ensures queues == Enqueued(old(queues), topic, m)
    {
      AllSubscribers(queues, subscribers, topic, m);
      assert OnceEach(SubscribersIn(subscribers, topic));
      forall s | s in SubscribersIn(subscribers, topic) ensures (topic, s) in queues {
        assert (topic, s).1 in SubscribersIn(subscribers, (topic, s).0);
      }
      EnqueueEach(topic, SubscribersIn(subscribers, topic), m);
    }

    method EnqueueEach(topic: string, subs: seq<string>, m: Message)
      requires OnceEach(subs) && forall s :: s in subs ==> (topic, s) in queues
      modifies this`queues
      ensures queues == EnqueuedFor(old(queues), topic, subs, m)
    {
      ghost var before := queues;
      for i := 0 to |subs|
        invariant queues == EnqueuedFor(before, topic, subs[..i], m)
      {
        OneMoreSubscriber(before, topic, subs, i, m);
        var key := (topic, subs[i]);
        queues := queues[key := queues[key] + [m]];
      }
      assert subs[..|subs|] == subs;
    }

    /** When a publish is refused, and why. */
    ghost function Refuses(topic: string, m: Message, storageUp: bool): Option<Refusal>
      reads this
    {
      if !Conforms(registry, topic, m) then Some(SchemaViolation)
      else if Full(queues, topic, maxDepth) then Some(Backpressure)
      else if storage != null && !storageUp then Some(StorageDown)
      else None
    }

    /** A refusal changes no queue and no record; one by storage remembers the number
        probed. An accepted message is written at its number, then queued for every
        subscriber of its topic and for no one else. */
    method Publish(topic: string, m: Message, readable: Readable, storageUp: bool) returns (refused: Option<Refusal>)
      requires Valid()
      modifies this`logSeq, this`queues, this`accepted, storage
      ensures Valid() && refused == old(Refuses(topic, m, storageUp))
      ensures queues == if refused.None? then Enqueued(old(queues), topic, m) else old(queues)
      ensures accepted == if refused.None? then old(accepted) + [(topic, m)] else old(accepted)
      ensures storage != null && (refused.None? || refused.value.StorageDown?) ==>
        Recorded() == old(BusLog.Published(Recorded(), topic, m, readable, storageUp))
      ensures storage != null && !(refused.None? || refused.value.StorageDown?) ==> Recorded() == old(Recorded())
    {
      var full := AnyFull(topic);
      if !Conforms(registry, topic, m) {
        refused := Some(SchemaViolation);
      } else if full {
        refused := Some(Backpressure);
      } else {
        ghost var history := if storage != null then storage.history else map[];
        var logged := Log(topic, m, readable, storageUp);
        if logged {
          ContinueWith(history, topic, m);
          Deliver(topic, m);
          refused := None;
        } else {
          refused := Some(StorageDown);
        }
      }
    }

    lemma ContinueWith(before: Logs, topic: string, m: Message)
      requires storage != null ==>
        Continues(before, since, accepted) && storage.history == before[topic := LogOf(before, topic) + [m]]
      ensures storage != null ==> Continues(storage.history, since, accepted + [(topic, m)])
    {
      if storage != null {
        ContinuesMore(before, since, accepted, topic, m);
      }
    }

    /** Persist before anything is queued. */
    method Log(topic: string, m: Message, readable: Readable, storageUp: bool) returns (ok: bool)
      requires LogsOk()
      modifies this`logSeq, storage
      ensures LogsOk() && ok == (storage == null || storageUp)
      ensures storage != null ==> Recorded() == old(BusLog.Published(Recorded(), topic, m, readable, storageUp))
    {
      ok := true;
      if storage != null {
        ghost var before := Recorded();
        PublishedOk(before, topic, m, readable, storageUp);
        var n := SeqFloor(topic, readable);
        if storageUp {
          Append(topic, n, m);
          assert Recorded() == BusLog.Published(before, topic, m, readable, true);
        } else {
          ok := false;
        }
      }
    }

    method Deliver(topic: string, m: Message)
      requires QueuesOk()
      modifies this`queues, this`accepted
      ensures QueuesOk() && queues == Enqueued(old(queues), topic, m) && accepted == old(accepted) + [(topic, m)]
    {
      AccountsEnqueue(queues, joined, drained, accepted, topic, m);
      RosterKeeps(queues, Enqueued(queues, topic, m), subscribers);
      EnqueueAll(topic, m);
      accepted := accepted + [(topic, m)];
    }

    method Append(topic: string, n: nat, m: Message)
      requires LogsOk() && storage != null && n <= |LogOf(storage.logs, topic)|
      modifies this`logSeq, storage
      ensures Holds(storage.blobs, storage.logs)
      ensures storage.logs == old(storage.logs)[topic := Written(old(LogOf(storage.logs, topic)), n, m)]
      ensures storage.history == old(storage.history)[topic := old(LogOf(storage.history, topic)) + [m]]
      ensures logSeq == old(logSeq)[topic := n + 1]
    {
      HoldsWritten(storage.blobs, storage.logs, topic, n, m);
      storage.blobs := storage.blobs[(topic, n) := m];
      storage.logs := storage.logs[topic := Written(LogOf(storage.logs, topic), n, m)];
      storage.history := storage.history[topic := LogOf(storage.history, topic) + [m]];
      logSeq := logSeq[topic := n + 1];
    }

    method Drain(topic: string, subscriber: string) returns (r: Result<seq<Message>, Refusal>)
      requires Valid()
      modifies this`queues, this`drained
      ensures Valid()
      ensures DrainedAs((topic, subscriber), old(queues), old(drained), r)
    {
      r := Pull((topic, subscriber));
      assert Lasting();
    }

    method Pull(key: Key) returns (r: Result<seq<Message>, Refusal>)
      requires QueuesOk()
      modifies this`queues, this`drained
      ensures QueuesOk()
      ensures DrainedAs(key, old(queues), old(drained), r)
    {
      if key in queues {
        r := Ok(queues[key]);
        Take(key);
      } else {
        r := Err(UnknownSubscription);
      }
    }

    /** Everything pending for one subscription was handed over, and nothing else changed. */
    ghost predicate DrainedAs(key: Key, before: Queues, drainedBefore: Queues, r: Result<seq<Message>, Refusal>)
      reads this`queues, this`drained
    {
      if key in before && key in drainedBefore then
        r == Ok(before[key]) && queues == before[key := []] && drained == Credited(drainedBefore, key, before[key])
      else
        r == Err(UnknownSubscription) && queues == before && drained == drainedBefore
    }

    method Take(key: Key)
      requires QueuesOk() && key in queues
      modifies this`queues, this`drained
      ensures QueuesOk() && queues == old(queues)[key := []] && drained == Credited(old(drained), key, old(queues)[key])
    {
      AccountsDrain(queues, joined, drained, accepted, key);
      RosterKeeps(queues, queues[key := []], subscribers);
      drained, queues := drained[key := drained[key] + queues[key]], queues[key := []];
    }

    /** replay: the records below the topic's number, in order; refused when one of them
        cannot be read. ReplayExactly says when that is all that was ever accepted. */
    method Replay(topic: string, probe: Readable, readable: Readable) returns (r: Result<seq<Message>, Refusal>)
      requires Valid()
      modifies this`logSeq
      ensures Valid()
      ensures storage == null ==> r == Err(DurabilityUnavailable) && logSeq == old(logSeq)
      ensures storage != null ==>
        var n := old(NumberOf(Recorded(), topic, probe));
        && Recorded() == old(Probed(Recorded(), topic, probe))
        && r == if Answered(n, readable) then Ok(LogOf(storage.logs, topic)[..n]) else Err(StorageDown)
    {
      if storage == null {
        return Err(DurabilityUnavailable);
      }
      var n := SeqFloor(topic, probe);
      assert Continuing();
      r := ReadUpTo(topic, n, readable);
    }

    method ReadUpTo(topic: string, n: nat, readable: Readable) returns (r: Result<seq<Message>, Refusal>)
      requires LogsOk() && storage != null && n <= |LogOf(storage.logs, topic)|
      ensures r == if Answered(n, readable) then Ok(LogOf(storage.logs, topic)[..n]) else Err(StorageDown)
    {
      var out := [];
      for i := 0 to n
        invariant out == LogOf(storage.logs, topic)[..i] && forall j: nat :: j < i ==> readable(j)
      {
        if !readable(i) {
          return Err(StorageDown);
        }
        out := out + [storage.blobs[(topic, i)]];
      }
      return Ok(out);
    }

    /** One message: attempts until the handler succeeds or they are used up. */
    method Attempt(m: Message, handler: Handler) returns (ok: bool)
      ensures ok <==> Succeeds(handler, maxAttempts, m)
    {
      for a := 1 to maxAttempts + 1
        invariant forall b: nat :: 1 <= b < a ==> !handler(m, b)
      {
        if handler(m, a) {
          return true;
        }
      }
      return false;
    }

    /** deliver_with. The call is cut short at the first failing message whose
        delivery.failed is refused: it and the failures before it are dead-lettered, the
        events of the failures before it are queued, and every message after it is neither
        delivered, nor dead-lettered, nor pending. Otherwise every message is delivered or
        dead-lettered (with no attempts configured, all are simply gone). */
    method DeliverWith(topic: string, subscriber: string, handler: Handler, readable: nat -> Readable, up: nat -> bool)
      returns (r: Result<(nat, nat), Refusal>, ghost handled: nat)
      requires Valid()
      modifies this`logSeq, this`queues, this`drained, this`accepted, this`deadLetters, storage
      ensures Valid()
      ensures (topic, subscriber) !in old(queues) ==>
        r == Err(UnknownSubscription) && queues == old(queues) && drained == old(drained) && accepted == old(accepted)
        && deadLetters == old(deadLetters)
      ensures (topic, subscriber) in old(queues) ==>
        var key := (topic, subscriber);
        && drained == Credited(old(drained), key, old(queues)[key])
        && Outcome(Job(topic, subscriber, old(queues)[key], handler, maxAttempts, maxDepth, storage != null, up, old(queues)[key := []],
                       old(deadLetters), old(accepted)),
                   handled, r, deadLetters, queues, accepted)
    {
      var pending := Drain(topic, subscriber);
      if pending.Err? {
        r, handled := Err(pending.error), 0;
      } else {
        r, handled := DeliverBatch(topic, subscriber, pending.value, handler, readable, up);
      }
    }

    method DeliverBatch(topic: string, subscriber: string, batch: seq<Message>, handler: Handler, readable: nat -> Readable,
                        up: nat -> bool)
      returns (r: Result<(nat, nat), Refusal>, ghost handled: nat)
      requires Valid()
      modifies this`logSeq, this`queues, this`accepted, this`deadLetters, storage
      ensures Valid()
      ensures Outcome(Job(topic, subscriber, batch, handler, maxAttempts, maxDepth, storage != null, up, old(queues),
                          old(deadLetters), old(accepted)),
                      handled, r, deadLetters, queues, accepted)
    {
      ghost var job := Job(topic, subscriber, batch, handler, maxAttempts, maxDepth, storage != null, up, queues, deadLetters, accepted);
      var delivered, dead, refused := 0, 0, None;
      var i := 0;
      RunningStarts(job);
      while i < |batch| && refused == None
        invariant Valid() && Running(job, i, refused, delivered, dead, deadLetters, queues, accepted)
        decreases |batch| - i
      {
        refused, delivered, dead := DealWith(job, topic, subscriber, batch[i], i, handler, readable(i), up(i), delivered, dead);
        i := i + 1;
      }
      RunningEnds(job, i, refused, delivered, dead, deadLetters, queues, accepted);
      handled := i;
      r := if refused.Some? then Err(refused.value) else Ok((delivered, dead));
    }

    /** One message: attempts, and a burial if they all fail. */
    method DealWith(ghost job: Job, topic: string, subscriber: string, m: Message, ghost i: nat, handler: Handler, readable: Readable,
                    storageUp: bool, delivered: nat, dead: nat)
      returns (refused: Option<Refusal>, delivered': nat, dead': nat)
      requires Valid() && i < |job.batch| && Running(job, i, None, delivered, dead, deadLetters, queues, accepted)
      requires topic == job.topic && subscriber == job.subscriber && m == job.batch[i] && storageUp == job.up(i) && handler == job.handler
      requires job.depth == maxDepth && job.durable == (storage != null) && job.attempts == maxAttempts
      modifies this`logSeq, this`queues, this`accepted, this`deadLetters, storage
      ensures Valid() && Running(job, i + 1, refused, delivered', dead', deadLetters, queues, accepted)
    {
      var ok := Attempt(m, handler);
      refused, delivered', dead' := None, delivered, dead;
      if !ok && maxAttempts >= 1 {
        RunningBuries(job, i, delivered, dead, deadLetters, queues, accepted);
        dead' := dead + 1;
        refused := Bury(topic, subscriber, m, readable, storageUp);
      } else {
        RunningDelivers(job, i, delivered, dead, deadLetters, queues, accepted, ok);
        delivered' := if ok then delivered + 1 else delivered;
      }
    }

    /** Record a dead letter, then publish delivery.failed. */
    method Bury(topic: string, subscriber: string, m: Message, readable: Readable, storageUp: bool) returns (refused: Option<Refusal>)
      requires Valid()
      modifies this`logSeq, this`queues, this`accepted, this`deadLetters, storage
      ensures Valid() && deadLetters == old(deadLetters) + [DeadLetter(topic, subscriber, m)]
      ensures refused == NoticeRefused(old(queues), maxDepth, storage != null, storageUp)
      ensures var notice := Notice(topic, subscriber, m, |deadLetters|);
              && queues == (if refused.None? then Enqueued(old(queues), DELIVERY_FAILED, notice) else old(queues))
              && accepted == (if refused.None? then old(accepted) + [(DELIVERY_FAILED, notice)] else old(accepted))
    {
      deadLetters := deadLetters + [DeadLetter(topic, subscriber, m)];
      refused := Publish(DELIVERY_FAILED, Notice(topic, subscriber, m, |deadLetters|), readable, storageUp);
    }
  }

  /** While history is kept, what this bus accepted is the tail of the log, after what the
      buses before it left there. */
  lemma AcceptedIsTail(bus: Bus, topic: string)
    requires bus.Valid() && bus.storage != null && Kept(bus.Recorded(), topic)
    ensures LogOf(bus.storage.logs, topic) == LogOf(bus.since, topic) + AcceptedOn(topic, bus.accepted)
  {
    assert Tail(bus.storage.history, bus.since, bus.accepted, topic);
  }

  // -- any number of buses on one storage ---------------------------------------------------

  /** Publish, probe and restart in any order, with any failures: the live buses and their
      storage end as the specified run does. */
  method Lives(ops: seq<LogOp>, kinds: map<string, Kind>) returns (bus: Bus)
    requires DELIVERY_FAILED in kinds && kinds[DELIVERY_FAILED] == EnvelopeKind
    requires forall i :: 0 <= i < |ops| && ops[i].Publish? ==> Conforms(kinds, ops[i].topic, ops[i].m)
    ensures bus.Valid() && bus.storage != null && bus.Recorded() == Run(ops)
  {
    var storage := new Storage();
    bus := new Bus(storage, kinds, 1, 1);
    for i := 0 to |ops|
      invariant fresh(bus) && fresh(storage) && bus.storage == storage && bus.Valid()
      invariant bus.queues == map[] && bus.registry == kinds && bus.Recorded() == Run(ops[..i])
    {
      assert ops[..i + 1][..i] == ops[..i];
      bus := OneOp(bus, ops[i]);
    }
    assert ops[..|ops|] == ops;
  }

  method OneOp(bus: Bus, op: LogOp) returns (next: Bus)
    requires bus.Valid() && bus.storage != null && bus.queues == map[]
    requires op.Publish? ==> Conforms(bus.registry, op.topic, op.m)
    modifies bus, bus.storage
    ensures next == bus || fresh(next)
    ensures next.storage == bus.storage && next.Valid() && next.queues == map[] && next.registry == old(bus.registry)
    ensures LogStateOk(old(bus.Recorded())) && next.Recorded() == old(Step(bus.Recorded(), op))
  {
    StepOk(bus.Recorded(), op);
    next := bus;
    match op
    case Publish(topic, m, readable, up) => var refused := bus.Publish(topic, m, readable, up);
    case Probe(topic, readable) => var replayed := bus.Replay(topic, readable, readable);
    case Restart => next := Restarted(bus);
  }

  /** A new process: a new bus on the storage of the old one. */
  method Restarted(bus: Bus) returns (next: Bus)
    requires bus.Valid() && bus.storage != null
    ensures fresh(next) && next.storage == bus.storage && next.Valid() && next.queues == map[] && next.registry == bus.registry
    ensures next.Recorded() == bus.Recorded().(numbers := map[])
  {
    ForgetNumbers(bus.Recorded());
    next := new Bus(bus.storage, bus.registry, bus.maxDepth, bus.maxAttempts);
  }

  // -- two runs ---------------------------------------------------------------------------

  const KINDS := map["t" := RecordKind, DELIVERY_FAILED := EnvelopeKind]

  predicate Up(n: nat) {
    true
  }

  predicate Down(n: nat) {
    false
  }

  function Plain(body: string): Message {
    Record(map["body" := body])
  }

  /** The publish during the outage is refused, but the number it probed stays. */
  lemma OutageThenUp(s: LogState)
    requires LogStateOk(s) && s.numbers == map[]
    requires LogOf(s.stored, "t") == LogOf(s.history, "t") == [Plain("a"), Plain("b")]
    ensures TopicOk(s, "t")
    ensures var during := BusLog.Published(s, "t", Plain("c"), Down, false);
            && TopicOk(during, "t") && during.stored == s.stored && during.history == s.history
            && var after := BusLog.Published(during, "t", Plain("c"), Up, true);
               LogOf(after.stored, "t") == [Plain("c"), Plain("b")]
               && LogOf(after.history, "t") == [Plain("a"), Plain("b"), Plain("c")]
               && TopicOk(after, "t") && NumberOf(after, "t", Up) == 1
  {
    assert TopicOk(s, "t");
    var log := [Plain("a"), Plain("b")];
    assert Floor(|log|, Down, 0) == 0;
    assert log[0 := Plain("c")] == [Plain("c"), Plain("b")];
    assert log + [Plain("c")] == [Plain("a"), Plain("b"), Plain("c")];
  }

  /** A second bus whose first probe meets an outage overwrites history: the publish during
      the outage is refused and changes no record, but its number is remembered, and the
      next publish, with storage up and readable again, is written over the first record.
      Of three accepted messages, replay then returns the last alone. */
  method OutageOverwrites() returns (storage: Storage, second: Bus, during: Option<Refusal>, r: Result<seq<Message>, Refusal>)
    ensures second.storage == storage && second.Valid()
    ensures during == Some(StorageDown)
    ensures LogOf(storage.history, "t") == [Plain("a"), Plain("b"), Plain("c")]
    ensures LogOf(storage.logs, "t") == [Plain("c"), Plain("b")]
    ensures r == Ok([Plain("c")])
  {
    storage := new Storage();
    FirstBus(storage);
    second := new Bus(storage, KINDS, 10, 1);
    during := SecondBus(second);
    r := second.Replay("t", Up, Up);
    assert [Plain("c"), Plain("b")][..1] == [Plain("c")];
  }

  method FirstBus(storage: Storage)
    requires storage.Valid() && storage.logs == map[] && storage.history == map[]
    modifies storage
    ensures storage.Valid()
    ensures LogOf(storage.logs, "t") == [Plain("a"), Plain("b")] && LogOf(storage.history, "t") == [Plain("a"), Plain("b")]
  {
    var first := new Bus(storage, KINDS, 10, 1);
    PublishBoth(first);
    ForgetNumbers(first.Recorded());
  }

  method PublishBoth(first: Bus)
    requires first.Valid() && first.storage != null && first.registry == KINDS && first.queues == map[] && first.maxDepth == 10
    requires first.Recorded() == NO_LOG
    modifies first, first.storage
    ensures first.Valid()
    ensures LogOf(first.Recorded().stored, "t") == LogOf(first.Recorded().history, "t") == [Plain("a"), Plain("b")]
  {
    TwoPublished();
    var one := first.Publish("t", Plain("a"), Up, true);
    var two := first.Publish("t", Plain("b"), Up, true);
  }

  lemma TwoPublished()
    ensures TopicOk(NO_LOG, "t")
    ensures var one := BusLog.Published(NO_LOG, "t", Plain("a"), Up, true);
            && TopicOk(one, "t")
            && var two := BusLog.Published(one, "t", Plain("b"), Up, true);
               LogOf(two.stored, "t") == LogOf(two.history, "t") == [Plain("a"), Plain("b")]
  {
    assert [] + [Plain("a")] == [Plain("a")] && [Plain("a")] + [Plain("b")] == [Plain("a"), Plain("b")];
  }

  lemma ForgetNumbers(s: LogState)
    requires LogStateOk(s)
    ensures LogStateOk(s.(numbers := map[]))
  {
    StepOk(s, Restart);
  }

  method SecondBus(second: Bus) returns (during: Option<Refusal>)
    requires second.Valid() && second.storage != null && second.registry == KINDS && second.queues == map[] && second.maxDepth == 10
    requires second.Recorded().numbers == map[]
    requires LogOf(second.Recorded().stored, "t") == LogOf(second.Recorded().history, "t") == [Plain("a"), Plain("b")]
    modifies second, second.storage
    ensures second.Valid() && during == Some(StorageDown)
    ensures LogOf(second.Recorded().history, "t") == [Plain("a"), Plain("b"), Plain("c")]
    ensures LogOf(second.Recorded().stored, "t") == [Plain("c"), Plain("b")]
    ensures TopicOk(second.Recorded(), "t") && NumberOf(second.Recorded(), "t", Up) == 1
  {
    OutageThenUp(second.Recorded());
    during := second.Publish("t", Plain("c"), Down, false);
    var after := second.Publish("t", Plain("c"), Up, true);
  }

  function Told(id: string): Message {
    Envelope(Given(id), DELIVERY_FAILED, None, map[])
  }

  const WORK: Key := ("t", "s")
  const WATCH: Key := (DELIVERY_FAILED, "obs")

  function TwoQueues(work: seq<Message>, watch: seq<Message>): Queues {
    map[WORK := work, WATCH := watch]
  }

  lemma TwoQueuesGrow(work: seq<Message>, watch: seq<Message>, topic: string, m: Message)
    requires topic == "t" || topic == DELIVERY_FAILED
    ensures Enqueued(TwoQueues(work, watch), topic, m)
            == if topic == "t" then TwoQueues(work + [m], watch) else TwoQueues(work, watch + [m])
    ensures Full(TwoQueues(work, watch), topic, 2) <==> |if topic == "t" then work else watch| >= 2
  {
    var queues := TwoQueues(work, watch);
    assert WORK.0 == "t" && WATCH.0 == DELIVERY_FAILED && |"t"| != |DELIVERY_FAILED|;
    assert WORK in queues && WATCH in queues && queues[WORK] == work && queues[WATCH] == watch;
  }

  predicate Never(m: Message, attempt: nat) {
    false
  }

  /** A bus with room for two, two messages pending for "s", and the one queue of
      delivery.failed full. */
  method LoadedBus() returns (bus: Bus)
    ensures fresh(bus) && bus.Valid() && bus.storage == null && bus.maxAttempts == 1 && bus.maxDepth == 2
    ensures bus.deadLetters == [] && bus.queues == TwoQueues([Plain("a"), Plain("b")], [Told("x"), Told("y")])
  {
    bus := SubscribedBus();
    LoadAll(bus);
  }

  method LoadAll(bus: Bus)
    requires bus.Valid() && bus.storage == null && bus.maxDepth == 2 && bus.registry == KINDS && bus.queues == TwoQueues([], [])
    modifies bus`logSeq, bus`queues, bus`accepted
    ensures bus.Valid() && bus.queues == TwoQueues([Plain("a"), Plain("b")], [Told("x"), Told("y")])
  {
    BothConform();
    LoadTwo(bus, [], [], "t", Plain("a"), Plain("b"));
    LoadTwo(bus, [Plain("a"), Plain("b")], [], DELIVERY_FAILED, Told("x"), Told("y"));
  }

  lemma BothConform()
    ensures "t" in KINDS && Conforms(KINDS, "t", Plain("a")) && Conforms(KINDS, "t", Plain("b")) && DELIVERY_FAILED != "t"
    ensures DELIVERY_FAILED in KINDS && Conforms(KINDS, DELIVERY_FAILED, Told("x")) && Conforms(KINDS, DELIVERY_FAILED, Told("y"))
  {
    assert |DELIVERY_FAILED| != |"t"|;
  }

  method LoadTwo(bus: Bus, work: seq<Message>, watch: seq<Message>, topic: string, first: Message, second: Message)
    requires bus.Valid() && bus.storage == null && bus.maxDepth == 2 && bus.registry == KINDS
    requires bus.queues == TwoQueues(work, watch) && topic in KINDS && Conforms(KINDS, topic, first) && Conforms(KINDS, topic, second)
    requires (if topic == "t" then work else watch) == []
    modifies bus`logSeq, bus`queues, bus`accepted
    ensures bus.Valid()
    ensures bus.queues == if topic == "t" then TwoQueues([first, second], watch) else TwoQueues(work, [first, second])
  {
    assert [] + [first] == [first] && [first] + [second] == [first, second];
    if topic == "t" {
      Load(bus, [], watch, topic, first);
      Load(bus, [first], watch, topic, second);
    } else {
      Load(bus, work, [], topic, first);
      Load(bus, work, [first], topic, second);
    }
  }

  method SubscribedBus() returns (bus: Bus)
    ensures fresh(bus) && bus.Valid() && bus.storage == null && bus.maxAttempts == 1 && bus.maxDepth == 2
    ensures bus.registry == KINDS && bus.deadLetters == [] && bus.queues == TwoQueues([], [])
  {
    bus := new Bus(null, KINDS, 2, 1);
    var joined := bus.Subscribe("t", "s", false);
    joined := bus.Subscribe(DELIVERY_FAILED, "obs", false);
  }

  /** Publish where there is room. */
  method Load(bus: Bus, work: seq<Message>, watch: seq<Message>, topic: string, m: Message)
    requires bus.Valid() && bus.storage == null && bus.maxDepth == 2 && bus.registry == KINDS
    requires bus.queues == TwoQueues(work, watch) && topic in KINDS && Conforms(KINDS, topic, m)
    requires |if topic == "t" then work else watch| < 2
    modifies bus`logSeq, bus`queues, bus`accepted
    ensures bus.Valid()
    ensures bus.queues == if topic == "t" then TwoQueues(work + [m], watch) else TwoQueues(work, watch + [m])
  {
    TwoQueuesGrow(work, watch, topic, m);
    var refused := bus.Publish(topic, m, Up, true);
  }

  /** Two messages are pending, every attempt fails, and the one queue of delivery.failed is
      full: the first message is dead-lettered, its event refused, and the second is gone --
      not delivered, not dead-lettered, not pending. */
  method RefusedNoticeLosesTheRest() returns (bus: Bus, r: Result<(nat, nat), Refusal>)
    ensures bus.Valid() && r == Err(Backpressure)
    ensures bus.deadLetters == [DeadLetter("t", "s", Plain("a"))]
    ensures bus.queues == TwoQueues([], [Told("x"), Told("y")])
  {
    bus := LoadedBus();
    r := FailAll(bus);
  }

  method FailAll(bus: Bus) returns (r: Result<(nat, nat), Refusal>)
    requires bus.Valid() && bus.storage == null && bus.maxAttempts == 1 && bus.maxDepth == 2
    requires bus.deadLetters == [] && bus.queues == TwoQueues([Plain("a"), Plain("b")], [Told("x"), Told("y")])
    modifies bus
    ensures bus.Valid() && r == Err(Backpressure)
    ensures bus.deadLetters == [DeadLetter("t", "s", Plain("a"))] && bus.queues == TwoQueues([], [Told("x"), Told("y")])
  {
    ghost var queues := bus.queues[WORK := []];
    assert WORK in bus.queues && queues == TwoQueues([], [Told("x"), Told("y")]);
    ghost var job := Job("t", "s", bus.queues[WORK], Never, 1, 2, false, Up, queues, [], bus.accepted);
    ghost var handled;
    r, handled := bus.DeliverWith(WORK.0, WORK.1, Never, n => Up, Up);
    LosesTheRest(job, handled, r, bus.deadLetters, bus.queues, bus.accepted);
  }

  lemma LosesTheRest(job: Job, handled: nat, r: Result<(nat, nat), Refusal>, letters: seq<DeadLetter>, queues: Queues,
                     accepted: seq<(string, Message)>)
    requires job.batch == [Plain("a"), Plain("b")] && job.handler == Never && job.attempts == 1 && job.depth == 2
    requires job.emptied == TwoQueues([], [Told("x"), Told("y")]) && job.letters == []
    requires job.topic == "t" && job.subscriber == "s"
    requires Outcome(job, handled, r, letters, queues, accepted)
    ensures r == Err(Backpressure) && letters == [DeadLetter("t", "s", Plain("a"))] && queues == job.emptied
  {
    assert WATCH in job.emptied && !RoomFor(job.emptied, 2, 0);
    assert job.batch[..0] == [] && job.CutAt(0) && handled == 1;
    assert job.batch[..1] == [Plain("a")] && job.batch[..1][..0] == [];
    NoNotice(job.emptied, job.accepted);
  }
}
