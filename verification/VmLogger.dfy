/**
  The VM side of the log pipeline (`BoundedVsockLogger`, `CombinedLogger`): a bounded queue that drops
  when full, drained by a background task that writes to the vsock stream.
 */
module VmLogger {
  import opened Prelude
  import opened Utf8

  const LOG_CHANNEL_CAPACITY: nat := 1000

  datatype Level = Error | Warn | Info | Debug | Trace {
    /** The `log` crate's order: `Error` is the least verbose; a filter of 0 is `Off`. */
    function Verbosity(): nat {
      match this case Error => 1 case Warn => 2 case Info => 3 case Debug => 4 case Trace => 5
    }

    function Name(): string {
      match this
      case Error => "ERROR" case Warn => "WARN" case Info => "INFO" case Debug => "DEBUG" case Trace => "TRACE"
    }
  }

  datatype Record = Record(level: Level, args: string) {
    /** The text of the record as one line. */
    function Line(): string { level.Name() + " - " + args }

    function Message(): string { Line() + "\n" }
  }

  /** A record passed to `enqueue`, and how many messages the channel held at that moment. */
  datatype Offer = Offer(record: Record, depth: nat)

  /** Channel, message held by the writer task, bytes put on the wire, and the history. */
  datatype State = State(filter: nat, queue: seq<Record>, inHand: Option<Record>, wire: seq<byte>,
                         offers: seq<Offer>, written: seq<Record>)

  function Init(filter: nat): State { State(filter, [], None, [], [], []) }

  /** `written` of a write tells how many bytes of the message reached the stream. */
  datatype Step = Log(record: Record) | Take | Write(sent: nat)

  predicate Enabled(s: State, step: Step) {
    match step
    case Log(_) => true
    case Take => s.inHand.None? && s.queue != []
    case Write(n) => s.inHand.Some? && n <= |Encode(s.inHand.value.Message())|
  }

  /** `CombinedLogger::log`, with `try_send` into the bounded channel. */
  function LogRecord(s: State, r: Record): State {
    if r.level.Verbosity() > s.filter then s
    else
      var t := s.(offers := s.offers + [Offer(r, |s.queue|)]);
      if |s.queue| < LOG_CHANNEL_CAPACITY then t.(queue := s.queue + [r]) else t
  }

  function Apply(s: State, step: Step): State
    requires Enabled(s, step)
  {
    match step
    case Log(r) => LogRecord(s, r)
    case Take => s.(queue := s.queue[1..], inHand := Some(s.queue[0]))
    case Write(n) =>
      s.(inHand := None, wire := s.wire + Encode(s.inHand.value.Message())[..n],
         written := s.written + [s.inHand.value])
  }

  /** Every step is enabled where it is taken. */
  predicate Feasible(s: State, steps: seq<Step>)
    decreases |steps|
  {
    steps == [] || (Enabled(s, steps[0]) && Feasible(Apply(s, steps[0]), steps[1..]))
  }

  function Run(s: State, steps: seq<Step>): State
    requires Feasible(s, steps)
    decreases |steps|
  {
    if steps == [] then s else Run(Apply(s, steps[0]), steps[1..])
  }

  /** No write fails half-way. */
  predicate AllWritesSucceed(s: State, steps: seq<Step>)
    requires Feasible(s, steps)
    decreases |steps|
  {
    steps != [] ==>
      && (steps[0].Write? ==> steps[0].sent == |Encode(s.inHand.value.Message())|)
      && AllWritesSucceed(Apply(s, steps[0]), steps[1..])
  }

  // --- The logger object ---

  class BoundedVsockLogger {
    var filter: nat
    var queue: seq<Record>
    var inHand: Option<Record>
    var wire: seq<byte>
    ghost var offers: seq<Offer>
    ghost var written: seq<Record>

    ghost function Abs(): State
      reads this
    {
      State(filter, queue, inHand, wire, offers, written)
    }

    constructor (level: nat)
      ensures Abs() == Init(level)
    {
      filter, queue, inHand, wire, offers, written := level, [], None, [], [], [];
    }

    /** `CombinedLogger::log` followed by `enqueue`. */
    method Enqueue(r: Record)
      modifies this
      ensures Abs() == LogRecord(old(Abs()), r)
    {
      if r.level.Verbosity() <= filter {
        offers := offers + [Offer(r, |queue|)];
        if |queue| < LOG_CHANNEL_CAPACITY {
          queue := queue + [r];
        }
      }
    }

    /** `rx.recv()` of the background task. */
    method Take()
      requires Enabled(Abs(), Step.Take)
      modifies this
      ensures Abs() == Apply(old(Abs()), Step.Take)
    {
      inHand := Some(queue[0]);
      queue := queue[1..];
    }

    /** `write_all`, whose outcome is ignored. */
    method WriteAll(sent: nat)
      requires Enabled(Abs(), Write(sent))
      modifies this
      ensures Abs() == Apply(old(Abs()), Write(sent))
    {
      wire := wire + Encode(inHand.value.Message())[..sent];
      written := written + [inHand.value];
      inHand := None;
    }
  }

  // --- Conservation ---

  /** The records that found room. */
  function Accepted(offers: seq<Offer>): seq<Record> {
    if offers == [] then []
    else
      var (front, last) := (Accepted(offers[..|offers| - 1]), offers[|offers| - 1]);
      if last.depth < LOG_CHANNEL_CAPACITY then front + [last.record] else front
  }

  function Held(h: Option<Record>): seq<Record> { if h.Some? then [h.value] else [] }

  /** accepted = written + in hand + queued, in order; the queue never exceeds its capacity. */
  predicate Conserved(s: State) {
    && Accepted(s.offers) == s.written + Held(s.inHand) + s.queue
    && |s.queue| <= LOG_CHANNEL_CAPACITY
    && forall o | o in s.offers :: o.depth <= LOG_CHANNEL_CAPACITY && o.record.level.Verbosity() <= s.filter
  }

  lemma ConservedStep(s: State, step: Step)
    requires Conserved(s) && Enabled(s, step)
    ensures Conserved(Apply(s, step))
  {
    match step {
      case Log(r) => LogConserved(s, r);
      case Take => TakeConserved(s.written, s.queue);
      case Write(_) => Associative(s.written, Held(s.inHand), s.queue);
    }
  }

  lemma {:induction false} AcceptedSnoc(offers: seq<Offer>, o: Offer)
    ensures Accepted(offers + [o]) ==
      if o.depth < LOG_CHANNEL_CAPACITY then Accepted(offers) + [o.record] else Accepted(offers)
  {
    assert (offers + [o])[..|offers|] == offers;
  }

  lemma LogConserved(s: State, r: Record)
    requires Conserved(s)
    ensures Conserved(LogRecord(s, r))
  {
    AcceptedSnoc(s.offers, Offer(r, |s.queue|));
    Associative(s.written + Held(s.inHand), s.queue, [r]);
  }

  /** The oldest message queued is the next one in hand. */
  lemma TakeConserved(written: seq<Record>, queue: seq<Record>)
    requires queue != []
    ensures written + Held(None) + queue == written + Held(Some(queue[0])) + queue[1..]
  {
    assert queue == [queue[0]] + queue[1..];
    assert written + [] == written;
    Associative(written, [queue[0]], queue[1..]);
  }

  lemma {:induction false} ConservedRun(s: State, steps: seq<Step>)
    requires Conserved(s) && Feasible(s, steps)
    ensures Conserved(Run(s, steps))
    decreases |steps|
  {
    if steps != [] {
      ConservedStep(s, steps[0]);
      ConservedRun(Apply(s, steps[0]), steps[1..]);
    }
  }

  /** In every reachable state nothing accepted is lost, duplicated or reordered. */
  lemma {:induction false} AlwaysConserved(filter: nat, steps: seq<Step>)
    requires Feasible(Init(filter), steps)
    ensures Conserved(Run(Init(filter), steps))
  {
    ConservedRun(Init(filter), steps);
  }

  // --- The wire ---

  function Messages(rs: seq<Record>): string {
    if rs == [] then [] else Messages(rs[..|rs| - 1]) + rs[|rs| - 1].Message()
  }

  lemma {:induction false} WireRun(s: State, steps: seq<Step>)
    requires Feasible(s, steps) && AllWritesSucceed(s, steps)
    requires s.wire == Encode(Messages(s.written))
    ensures Run(s, steps).wire == Encode(Messages(Run(s, steps).written))
    decreases |steps|
  {
    if steps != [] {
      var t := Apply(s, steps[0]);
      if steps[0].Write? {
        var r := s.inHand.value;
        assert (s.written + [r])[..|s.written|] == s.written;
        EncodeAppend(Messages(s.written), r.Message());
        assert Encode(r.Message())[..steps[0].sent] == Encode(r.Message());
      }
      WireRun(t, steps[1..]);
    }
  }
}
