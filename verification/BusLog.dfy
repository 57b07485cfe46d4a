/** The durable log of a topic, over any number of buses and over a storage whose reads
    and writes fail at will: what a failed probe does to history, and exactly when
    history is kept. */
module BusLog {
  import opened Wrappers

  datatype EventId = Given(id: string) | DeadLetterId(n: nat)

  datatype Message =
    | Envelope(eventId: EventId, eventName: string, requestId: Option<string>, payload: map<string, string>)
    | Record(body: map<string, string>)

  type Logs = map<string, seq<Message>>

  function LogOf(logs: Logs, topic: string): seq<Message> {
    if topic in logs then logs[topic] else []
  }

  /** Whether a read of the topic's n-th record succeeds, if there is one. */
  type Readable = nat -> bool

  /** Where reading forward from n stops: the end of the log, or the first record that
      cannot be read. The program cannot tell these apart. */
  function Floor(length: nat, readable: Readable, n: nat): (r: nat)
    requires n <= length
    ensures n <= r <= length
    decreases length - n
  {
    if n < length && readable(n) then Floor(length, readable, n + 1) else n
  }

  predicate Answered(length: nat, readable: Readable) {
    forall i: nat :: i < length ==> readable(i)
  }

  lemma {:induction false} FloorIsEndExactly(length: nat, readable: Readable, n: nat)
    requires n <= length
    ensures Floor(length, readable, n) == length <==> forall i: nat :: n <= i < length ==> readable(i)
    decreases length - n
  {
    if n < length && readable(n) {
      FloorIsEndExactly(length, readable, n + 1);
    }
  }

  /** It stops at r if and only if everything before r can be read and r, if there is one,
      cannot. */
  lemma {:induction false} FloorExactly(length: nat, readable: Readable, n: nat, r: nat)
    requires n <= r <= length
    ensures Floor(length, readable, n) == r <==> (forall i: nat :: n <= i < r ==> readable(i)) && (r < length ==> !readable(r))
    decreases length - n
  {
    if n < length && readable(n) && n < r {
      FloorExactly(length, readable, n + 1, r);
    }
  }

  /** A write at n: over an old record, or at the end. */
  function Written(log: seq<Message>, n: nat, m: Message): seq<Message>
    requires n <= |log|
  {
    if n < |log| then log[n := m] else log + [m]
  }

  /** What is stored, what has been accepted, and the numbers the bus of the day remembers. */
  datatype LogState = LogState(stored: Logs, history: Logs, numbers: map<string, nat>)

  const NO_LOG := LogState(map[], map[], map[])

  /** Numbers stay within the logs, and nothing is stored that was not accepted. */
  ghost predicate LogStateOk(s: LogState) {
    forall t: string :: TopicOk(s, t)
  }

  predicate TopicOk(s: LogState, t: string) {
    && (t in s.numbers ==> s.numbers[t] <= |LogOf(s.stored, t)|)
    && |LogOf(s.stored, t)| <= |LogOf(s.history, t)|
  }

  function NumberOf(s: LogState, topic: string, readable: Readable): (n: nat)
    requires TopicOk(s, topic)
    ensures n <= |LogOf(s.stored, topic)|
  {
    if topic in s.numbers then s.numbers[topic] else Floor(|LogOf(s.stored, topic)|, readable, 0)
  }

  function Probed(s: LogState, topic: string, readable: Readable): LogState
    requires TopicOk(s, topic)
  {
    s.(numbers := s.numbers[topic := NumberOf(s, topic, readable)])
  }

  /** A publish that was not refused for its schema or for backpressure. */
  function Published(s: LogState, topic: string, m: Message, readable: Readable, up: bool): LogState
    requires TopicOk(s, topic)
  {
    if !up then Probed(s, topic, readable)
    else
      var n := NumberOf(s, topic, readable);
      LogState(s.stored[topic := Written(LogOf(s.stored, topic), n, m)], s.history[topic := LogOf(s.history, topic) + [m]],
               s.numbers[topic := n + 1])
  }

  lemma PublishedOk(s: LogState, topic: string, m: Message, readable: Readable, up: bool)
    requires LogStateOk(s)
    ensures TopicOk(s, topic) && LogStateOk(Published(s, topic, m, readable, up))
  {
    assert TopicOk(s, topic);
    var after := Published(s, topic, m, readable, up);
    forall t: string ensures TopicOk(after, t) {
      assert TopicOk(s, t);
    }
  }

  lemma ProbedOk(s: LogState, topic: string, readable: Readable)
    requires LogStateOk(s)
    ensures TopicOk(s, topic) && LogStateOk(Probed(s, topic, readable))
  {
    assert TopicOk(s, topic);
    var after := Probed(s, topic, readable);
    forall t: string ensures TopicOk(after, t) {
      assert TopicOk(s, t);
    }
  }

  /** What is stored is what was accepted. */
  predicate Kept(s: LogState, topic: string) {
    LogOf(s.stored, topic) == LogOf(s.history, topic)
  }

  /** The number in use is that of the next record. */
  predicate NumberRight(s: LogState, topic: string, readable: Readable)
    requires TopicOk(s, topic)
  {
    NumberOf(s, topic, readable) == |LogOf(s.stored, topic)|
  }

  /** It is right if and only if it is remembered right, or every record there is
      answered the probe. */
  lemma NumberRightExactly(s: LogState, topic: string, readable: Readable)
    requires TopicOk(s, topic)
    ensures NumberRight(s, topic, readable)
            <==> if topic in s.numbers then s.numbers[topic] == |LogOf(s.stored, topic)|
                 else Answered(|LogOf(s.stored, topic)|, readable)
  {
    FloorIsEndExactly(|LogOf(s.stored, topic)|, readable, 0);
  }

  /** An accepted publish keeps history if and only if its number was right. */
  lemma PublishKeepsExactly(s: LogState, topic: string, m: Message, readable: Readable)
    requires TopicOk(s, topic) && Kept(s, topic)
    ensures Kept(Published(s, topic, m, readable, true), topic) <==> NumberRight(s, topic, readable)
  {
  }

  /** Replay reads the records below the number: it is exact if and only if history is
      kept and the number is right. */
  lemma ReplayExactly(s: LogState, topic: string, readable: Readable)
    requires TopicOk(s, topic)
    ensures LogOf(s.stored, topic)[..NumberOf(s, topic, readable)] == LogOf(s.history, topic)
            <==> Kept(s, topic) && NumberRight(s, topic, readable)
  {
    var log, n := LogOf(s.stored, topic), NumberOf(s, topic, readable);
    assert |log| <= |LogOf(s.history, topic)|;
    assert |log[..n]| == n;
    assert log[..|log|] == log;
  }

  // -- runs ---------------------------------------------------------------------------

  /** What happens to the logs over successive buses on one storage. */
  datatype LogOp =
    | Publish(topic: string, m: Message, readable: Readable, up: bool)
    | Probe(probed: string, answers: Readable)
    | Restart

  function Step(s: LogState, op: LogOp): LogState
    requires (op.Publish? ==> TopicOk(s, op.topic)) && (op.Probe? ==> TopicOk(s, op.probed))
  {
    match op
    case Publish(topic, m, readable, up) => Published(s, topic, m, readable, up)
    case Probe(topic, readable) => Probed(s, topic, readable)
    case Restart => s.(numbers := map[])
  }

  lemma StepOk(s: LogState, op: LogOp)
    requires LogStateOk(s)
    ensures (op.Publish? ==> TopicOk(s, op.topic)) && (op.Probe? ==> TopicOk(s, op.probed))
    ensures LogStateOk(Step(s, op))
  {
    match op
    case Publish(topic, m, readable, up) => PublishedOk(s, topic, m, readable, up);
    case Probe(topic, readable) => ProbedOk(s, topic, readable);
    case Restart =>
      forall t: string ensures TopicOk(Step(s, op), t) {
        assert TopicOk(s, t);
      }
  }

  lemma NoLogOk()
    ensures LogStateOk(NO_LOG)
  {
    forall t: string ensures TopicOk(NO_LOG, t) {
    }
  }

  ghost function Run(ops: seq<LogOp>): (s: LogState)
    ensures LogStateOk(s)
  {
    if ops == [] then NoLogOk(); NO_LOG
    else
      var before := Run(ops[..|ops| - 1]);
      StepOk(before, ops[|ops| - 1]);
      Step(before, ops[|ops| - 1])
  }

  /** Everything accepted on a topic, over all buses. */
  function AcceptedIn(ops: seq<LogOp>, topic: string): seq<Message> {
    if ops == [] then []
    else
      var op := ops[|ops| - 1];
      AcceptedIn(ops[..|ops| - 1], topic) + if op.Publish? && op.up && op.topic == topic then [op.m] else []
  }

  lemma {:induction false} HistoryIsAccepted(ops: seq<LogOp>, topic: string)
    ensures LogOf(Run(ops).history, topic) == AcceptedIn(ops, topic)
  {
    if ops != [] {
      HistoryIsAccepted(ops[..|ops| - 1], topic);
      StepOk(Run(ops[..|ops| - 1]), ops[|ops| - 1]);
    }
  }

  /** Operation i, if it is an accepted publish on the topic, used the right number. */
  ghost predicate RightAt(ops: seq<LogOp>, i: nat, topic: string)
    requires i < |ops|
  {
    ops[i].Publish? && ops[i].up && ops[i].topic == topic ==> TopicOk(Run(ops[..i]), topic) && NumberRight(Run(ops[..i]), topic, ops[i].readable)
  }

  ghost predicate AllRight(ops: seq<LogOp>, topic: string) {
    forall i: nat :: i < |ops| ==> RightAt(ops, i, topic)
  }

  lemma AllRightPrefix(ops: seq<LogOp>, topic: string)
    requires ops != []
    ensures AllRight(ops, topic) <==> AllRight(ops[..|ops| - 1], topic) && RightAt(ops, |ops| - 1, topic)
  {
    var front := ops[..|ops| - 1];
    forall i: nat | i < |front| ensures RightAt(front, i, topic) <==> RightAt(ops, i, topic) {
      assert front[..i] == ops[..i];
    }
  }

  /** Lost records never come back: once fewer are stored than were accepted, it stays so. */
  lemma LossIsForGood(s: LogState, op: LogOp, topic: string)
    requires (op.Publish? ==> TopicOk(s, op.topic)) && (op.Probe? ==> TopicOk(s, op.probed))
    requires TopicOk(s, topic) && |LogOf(s.stored, topic)| < |LogOf(s.history, topic)|
    ensures |LogOf(Step(s, op).stored, topic)| < |LogOf(Step(s, op).history, topic)|
  {
  }

  /** Over any run, over any number of buses, with any failures: the records stored are
      the messages accepted if and only if every accepted publish used the right number;
      and otherwise fewer are stored than were accepted, for good. */
  lemma {:induction false} HistoryKeptExactly(ops: seq<LogOp>, topic: string)
    ensures Kept(Run(ops), topic) <==> AllRight(ops, topic)
    ensures !AllRight(ops, topic) ==> |LogOf(Run(ops).stored, topic)| < |LogOf(Run(ops).history, topic)|
  {
    if ops != [] {
      var front, op := ops[..|ops| - 1], ops[|ops| - 1];
      StepOk(Run(front), op);
      assert TopicOk(Run(front), topic);
      HistoryKeptExactly(front, topic);
      AllRightPrefix(ops, topic);
      if AllRight(front, topic) {
        if op.Publish? && op.up && op.topic == topic {
          PublishKeepsExactly(Run(front), topic, op.m, op.readable);
        }
      } else {
        LossIsForGood(Run(front), op, topic);
      }
    }
  }

  // -- told by the operations alone ------------------------------------------------------

  predicate On(op: LogOp, topic: string) {
    (op.Publish? && op.topic == topic) || (op.Probe? && op.probed == topic)
  }

  function Answers(op: LogOp): Readable
    requires !op.Restart?
  {
    if op.Publish? then op.readable else op.answers
  }

  /** The operation since the last restart that probed the topic, which is the first on it. */
  function FirstOn(ops: seq<LogOp>, topic: string): (f: Option<nat>)
    ensures f.Some? ==> f.value < |ops| && On(ops[f.value], topic)
  {
    if ops == [] || ops[|ops| - 1].Restart? then None
    else
      var earlier := FirstOn(ops[..|ops| - 1], topic);
      if earlier.None? && On(ops[|ops| - 1], topic) then Some(|ops| - 1) else earlier
  }

  /** Every record of the topic answered the probe of its number: all that had been
      accepted by then could be read. */
  predicate ProbeAnswered(ops: seq<LogOp>, topic: string) {
    var f := FirstOn(ops, topic);
    f.Some? ==> Answered(|AcceptedIn(ops[..f.value], topic)|, Answers(ops[f.value]))
  }

  lemma ProbeOfPrefix(ops: seq<LogOp>, topic: string)
    requires ops != []
    ensures var front, op := ops[..|ops| - 1], ops[|ops| - 1];
            ProbeAnswered(ops, topic)
            <==> if op.Restart? then true
                 else if FirstOn(front, topic).None? && On(op, topic) then Answered(|AcceptedIn(front, topic)|, Answers(op))
                 else ProbeAnswered(front, topic)
  {
    var front, op := ops[..|ops| - 1], ops[|ops| - 1];
    var f := FirstOn(front, topic);
    if !op.Restart? && f.Some? {
      assert front[..f.value] == ops[..f.value] && front[f.value] == ops[f.value];
    }
  }

  /** While history is kept, the number remembered is the right one if and only if the probe
      was answered. */
  lemma {:induction false} RememberedRight(ops: seq<LogOp>, topic: string)
    requires Kept(Run(ops), topic)
    ensures topic in Run(ops).numbers <==> FirstOn(ops, topic).Some?
    ensures topic in Run(ops).numbers ==>
      (Run(ops).numbers[topic] == |LogOf(Run(ops).stored, topic)| <==> ProbeAnswered(ops, topic))
  {
    if ops != [] {
      var front, op := ops[..|ops| - 1], ops[|ops| - 1];
      HistoryKeptExactly(ops, topic);
      AllRightPrefix(ops, topic);
      HistoryKeptExactly(front, topic);
      RememberedRight(front, topic);
      HistoryIsAccepted(front, topic);
      StepOk(Run(front), op);
      ProbeOfPrefix(ops, topic);
      assert TopicOk(Run(front), topic);
      if On(op, topic) {
        NumberRightExactly(Run(front), topic, Answers(op));
      }
    }
  }

  ghost predicate AnsweredAt(ops: seq<LogOp>, i: nat, topic: string)
    requires i < |ops|
  {
    ops[i].Publish? && ops[i].up && ops[i].topic == topic ==> ProbeAnswered(ops[..i + 1], topic)
  }

  ghost predicate AllAnswered(ops: seq<LogOp>, topic: string) {
    forall i: nat :: i < |ops| ==> AnsweredAt(ops, i, topic)
  }

  /** The same over all runs, told by the operations alone: everything accepted is on
      record if and only if, for every accepted publish, the topic's first probe since the
      restart before it was answered by every record there was. */
  lemma {:induction false} KeptExactlyWhenAnswered(ops: seq<LogOp>, topic: string)
    ensures LogOf(Run(ops).stored, topic) == AcceptedIn(ops, topic) <==> AllAnswered(ops, topic)
  {
    HistoryIsAccepted(ops, topic);
    HistoryKeptExactly(ops, topic);
    if ops != [] {
      var front := ops[..|ops| - 1];
      KeptExactlyWhenAnswered(front, topic);
      HistoryIsAccepted(front, topic);
      HistoryKeptExactly(front, topic);
      AllRightPrefix(ops, topic);
      AnsweredPrefix(ops, topic);
      if Kept(Run(front), topic) {
        RightExactlyWhenAnswered(ops, topic);
      }
    }
  }

  lemma RightExactlyWhenAnswered(ops: seq<LogOp>, topic: string)
    requires ops != [] && Kept(Run(ops[..|ops| - 1]), topic)
    ensures RightAt(ops, |ops| - 1, topic) <==> AnsweredAt(ops, |ops| - 1, topic)
  {
    var front, op := ops[..|ops| - 1], ops[|ops| - 1];
    assert ops[..|ops| - 1 + 1] == ops;
    if op.Publish? && op.up && op.topic == topic {
      RememberedRight(front, topic);
      HistoryIsAccepted(front, topic);
      ProbeOfPrefix(ops, topic);
      assert TopicOk(Run(front), topic);
      NumberRightExactly(Run(front), topic, op.readable);
    }
  }

  lemma AnsweredPrefix(ops: seq<LogOp>, topic: string)
    requires ops != []
    ensures AllAnswered(ops, topic) <==> AllAnswered(ops[..|ops| - 1], topic) && AnsweredAt(ops, |ops| - 1, topic)
  {
    var front := ops[..|ops| - 1];
    forall i: nat | i < |front| ensures AnsweredAt(front, i, topic) <==> AnsweredAt(ops, i, topic) {
      assert front[..i + 1] == ops[..i + 1];
    }
  }

  /** Replay after any run returns exactly what was accepted if and only if that holds, of
      the probe replay itself may make too. */
  lemma ReplayExactlyWhenAnswered(ops: seq<LogOp>, topic: string, readable: Readable)
    ensures TopicOk(Run(ops), topic)
    ensures LogOf(Run(ops).stored, topic)[..NumberOf(Run(ops), topic, readable)] == AcceptedIn(ops, topic)
            <==> AllAnswered(ops, topic) && ProbeAnswered(ops + [Probe(topic, readable)], topic)
  {
    var more := ops + [Probe(topic, readable)];
    assert more[..|ops|] == ops;
    assert TopicOk(Run(ops), topic);
    HistoryIsAccepted(ops, topic);
    KeptExactlyWhenAnswered(ops, topic);
    ReplayExactly(Run(ops), topic, readable);
    NumberRightExactly(Run(ops), topic, readable);
    ProbeOfPrefix(more, topic);
    if Kept(Run(ops), topic) {
      RememberedRight(ops, topic);
    }
  }
}
