/**
  The CONNECT relay on the VM side: for each direction a reader task and a writer task with a channel of
  two chunks between them.  Leaving the `select!` detaches the tasks that still run; it does not stop them.
 */
module Relay {
  import opened Prelude

  const CAPACITY: nat := 2
  const CHUNK: nat := 4096

  datatype Reader = Reading | Sending(chunk: seq<byte>) | ReaderDone

  /** `Broken` after a failed write: the channel's receiving end is gone. */
  datatype Writer = Receiving | Writing(data: seq<byte>) | WriterDone | Broken

  /** One direction; `input` and `output` are all bytes read and written. */
  datatype Direction = Direction(reader: Reader, channel: seq<seq<byte>>, writer: Writer, input: seq<byte>,
                                 output: seq<byte>)

  const START := Direction(Reading, [], Receiving, [], [])

  datatype Step =
    | Read(chunk: seq<byte>) | EndOfInput | Send | SendFails
    | Receive | ChannelClosed | Write | WriteFails(partial: nat)

  predicate Enabled(d: Direction, step: Step) {
    match step
    case Read(c) => d.reader.Reading? && 1 <= |c| <= CHUNK
    case EndOfInput => d.reader.Reading?
    case Send => d.reader.Sending? && !d.writer.Broken? && |d.channel| < CAPACITY
    case SendFails => d.reader.Sending? && d.writer.Broken?
    case Receive => d.writer.Receiving? && d.channel != []
    case ChannelClosed => d.writer.Receiving? && d.channel == [] && d.reader.ReaderDone?
    case Write => d.writer.Writing?
    case WriteFails(n) => d.writer.Writing? && n <= |d.writer.data|
  }

  function Apply(d: Direction, step: Step): Direction
    requires Enabled(d, step)
  {
    match step
    case Read(c) => d.(reader := Sending(c), input := d.input + c)
    case EndOfInput => d.(reader := ReaderDone)
    case Send => d.(reader := Reading, channel := d.channel + [d.reader.chunk])
    case SendFails => d.(reader := ReaderDone)
    case Receive => d.(writer := Writing(d.channel[0]), channel := d.channel[1..])
    case ChannelClosed => d.(writer := WriterDone)
    case Write => d.(writer := Receiving, output := d.output + d.writer.data)
    case WriteFails(n) => d.(writer := Broken, output := d.output + d.writer.data[..n], channel := [])
  }

  predicate Feasible(d: Direction, steps: seq<Step>)
    decreases |steps|
  {
    steps == [] || (Enabled(d, steps[0]) && Feasible(Apply(d, steps[0]), steps[1..]))
  }

  function Run(d: Direction, steps: seq<Step>): Direction
    requires Feasible(d, steps)
    decreases |steps|
  {
    if steps == [] then d else Run(Apply(d, steps[0]), steps[1..])
  }

  // --- Conservation ---

  function InReader(d: Direction): seq<byte> { if d.reader.Sending? then d.reader.chunk else [] }
  function InWriter(d: Direction): seq<byte> { if d.writer.Writing? then d.writer.data else [] }

  predicate Sized(c: seq<byte>) { 1 <= |c| <= CHUNK }

  ghost predicate Conserved(d: Direction) {
    && |d.channel| <= CAPACITY && (forall c | c in d.channel :: Sized(c))
    && (d.reader.Sending? ==> Sized(d.reader.chunk))
    && (d.writer.WriterDone? ==> d.channel == [] && d.reader.ReaderDone?)
    && d.output <= d.input
    && (!d.writer.Broken? ==> d.input == d.output + InWriter(d) + Flatten(d.channel) + InReader(d))
  }

  lemma SendConserves(d: Direction)
    requires Conserved(d) && Enabled(d, Send)
    ensures Conserved(Apply(d, Send))
  {
    var c := d.reader.chunk;
    FlattenSnoc(d.channel, c);
    assert d.input == d.output + InWriter(d) + (Flatten(d.channel) + c) + [];
  }

  lemma ReceiveConserves(d: Direction)
    requires Conserved(d) && Enabled(d, Receive)
    ensures Conserved(Apply(d, Receive))
  {
    var c, rest := d.channel[0], d.channel[1..];
    assert [c] + rest == d.channel;
    FlattenCons(c, rest);
    assert d.input == d.output + c + Flatten(rest) + InReader(d);
  }

  lemma WriteConserves(d: Direction)
    requires Conserved(d) && Enabled(d, Write)
    ensures Conserved(Apply(d, Write))
  {
    assert d.input == d.output + d.writer.data + [] + Flatten(d.channel) + InReader(d);
  }

  lemma ReadConserves(d: Direction, c: seq<byte>)
    requires Conserved(d) && Enabled(d, Read(c))
    ensures Conserved(Apply(d, Read(c)))
  {
    assert d.reader.Reading? && InReader(d) == [];
    if !d.writer.Broken? { assert d.input + c == d.output + InWriter(d) + Flatten(d.channel) + c; }
  }

  lemma FailConserves(d: Direction, n: nat)
    requires Conserved(d) && Enabled(d, WriteFails(n))
    ensures Conserved(Apply(d, WriteFails(n)))
  {
    var data := d.writer.data;
    assert d.input == d.output + data[..n] + (data[n..] + Flatten(d.channel) + InReader(d));
  }

  lemma StepConserves(d: Direction, step: Step)
    requires Conserved(d) && Enabled(d, step)
    ensures Conserved(Apply(d, step))
  {
    match step {
      case Read(c) => ReadConserves(d, c);
      case Send => SendConserves(d);
      case Receive => ReceiveConserves(d);
      case Write => WriteConserves(d);
      case WriteFails(n) => FailConserves(d, n);
      case _ =>
    }
  }

  /** In every interleaving, no byte is lost, duplicated or reordered as long as writes succeed. */
  lemma {:induction false} AlwaysConserved(d: Direction, steps: seq<Step>)
    requires Conserved(d) && Feasible(d, steps)
    ensures Conserved(Run(d, steps))
    decreases |steps|
  {
    if steps != [] {
      StepConserves(d, steps[0]);
      AlwaysConserved(Apply(d, steps[0]), steps[1..]);
    }
  }

  // --- Progress ---

  predicate Finished(d: Direction) { d.reader.ReaderDone? && (d.writer.WriterDone? || d.writer.Broken?) }

  /** An upper bound on the steps still possible without reading anything more. */
  function Remaining(d: Direction): nat {
    (match d.reader case Reading => 1 case Sending(_) => 4 case ReaderDone => 0)
    + 2 * |d.channel|
    + (match d.writer case Receiving => 1 case Writing(_) => 2 case WriterDone => 0 case Broken => 0)
  }

  function Reads(steps: seq<Step>): nat {
    if steps == [] then 0 else (if steps[0].Read? then 1 else 0) + Reads(steps[1..])
  }

  lemma StepCosts(d: Direction, step: Step)
    requires Enabled(d, step)
    ensures Remaining(Apply(d, step)) + 1 <= Remaining(d) + if step.Read? then 4 else 0
  {
  }

  /** Every run takes at most four steps for each chunk read, and two more. */
  lemma {:induction false} StepBound(d: Direction, steps: seq<Step>)
    requires Feasible(d, steps)
    ensures |steps| + Remaining(Run(d, steps)) <= 4 * Reads(steps) + Remaining(d)
    decreases |steps|
  {
    if steps != [] {
      StepCosts(d, steps[0]);
      StepBound(Apply(d, steps[0]), steps[1..]);
    }
  }

  /** Neither task waits for ever for the other: a direction that is not finished can take a step. */
  lemma NoDeadlock(d: Direction) returns (step: Step)
    requires Conserved(d) && !Finished(d)
    ensures Enabled(d, step) && !step.Read? && !step.WriteFails?
  {
    step := if d.reader.Reading? then EndOfInput
            else if d.writer.Writing? then Write
            else if d.writer.Receiving? && d.channel != [] then Receive
            else if d.writer.Receiving? && d.reader.ReaderDone? then ChannelClosed
            else if d.writer.Broken? then SendFails
            else Send;
  }

  /**
    A direction that has come to rest and whose writes all succeeded has written exactly what it read;
    with a failed write it has written a front of it.
   */
  lemma {:induction false} AllWritten(steps: seq<Step>)
    requires Feasible(START, steps)
    ensures var d := Run(START, steps);
      && (Finished(d) && !d.writer.Broken? ==> d.output == d.input)
      && d.output <= d.input
      && |steps| <= 4 * Reads(steps) + 2
      && ((forall step | step in steps :: !step.WriteFails?) ==> !d.writer.Broken?)
  {
    assert Flatten(START.channel) == [];
    AlwaysConserved(START, steps);
    StepBound(START, steps);
    if forall step | step in steps :: !step.WriteFails? { StaysWhole(START, steps); }
  }

  lemma {:induction false} StaysWhole(d: Direction, steps: seq<Step>)
    requires Feasible(d, steps) && !d.writer.Broken? && forall step | step in steps :: !step.WriteFails?
    ensures !Run(d, steps).writer.Broken?
    decreases |steps|
  {
    if steps != [] { StaysWhole(Apply(d, steps[0]), steps[1..]); }
  }

  // --- Both directions and the `select!` ---

  /** What leaving the `select!` does to the tasks that still run; dropping a join handle detaches its task. */
  datatype Policy = Detach | Abort

  /** `selected` when the awaiting task has left its `select!` and dropped the four handles. */
  datatype Tunnel = Tunnel(out: Direction, back: Direction, selected: bool, policy: Policy) {
    predicate Stopped() { selected && policy.Abort? }
  }

  function Opened(policy: Policy): Tunnel { Tunnel(START, START, false, policy) }

  datatype TunnelStep = Out(step: Step) | Back(step: Step) | SelectReturns

  predicate AnyTaskEnded(t: Tunnel) {
    || t.out.reader.ReaderDone? || t.out.writer.WriterDone? || t.out.writer.Broken?
    || t.back.reader.ReaderDone? || t.back.writer.WriterDone? || t.back.writer.Broken?
  }

  predicate TunnelEnabled(t: Tunnel, step: TunnelStep) {
    match step
    case Out(s) => Enabled(t.out, s) && !t.Stopped()
    case Back(s) => Enabled(t.back, s) && !t.Stopped()
    case SelectReturns => !t.selected && AnyTaskEnded(t)
  }

  function TunnelApply(t: Tunnel, step: TunnelStep): Tunnel
    requires TunnelEnabled(t, step)
  {
    match step
    case Out(s) => t.(out := Apply(t.out, s))
    case Back(s) => t.(back := Apply(t.back, s))
    case SelectReturns => t.(selected := true)
  }

  predicate TunnelFeasible(t: Tunnel, steps: seq<TunnelStep>)
    decreases |steps|
  {
    steps == [] || (TunnelEnabled(t, steps[0]) && TunnelFeasible(TunnelApply(t, steps[0]), steps[1..]))
  }

  function TunnelRun(t: Tunnel, steps: seq<TunnelStep>): Tunnel
    requires TunnelFeasible(t, steps)
    decreases |steps|
  {
    if steps == [] then t else TunnelRun(TunnelApply(t, steps[0]), steps[1..])
  }

  function OutSteps(steps: seq<TunnelStep>): seq<Step> {
    if steps == [] then [] else (if steps[0].Out? then [steps[0].step] else []) + OutSteps(steps[1..])
  }

  function BackSteps(steps: seq<TunnelStep>): seq<Step> {
    if steps == [] then [] else (if steps[0].Back? then [steps[0].step] else []) + BackSteps(steps[1..])
  }

  /** Each direction of a tunnel's run is a run of that direction alone. */
  lemma {:induction false} DirectionsProject(t: Tunnel, steps: seq<TunnelStep>)
    requires TunnelFeasible(t, steps)
    ensures Feasible(t.out, OutSteps(steps)) && TunnelRun(t, steps).out == Run(t.out, OutSteps(steps))
    ensures Feasible(t.back, BackSteps(steps)) && TunnelRun(t, steps).back == Run(t.back, BackSteps(steps))
    ensures TunnelRun(t, steps).policy == t.policy
    decreases |steps|
  {
    if steps != [] {
      DirectionsProject(TunnelApply(t, steps[0]), steps[1..]);
      var o, b := OutSteps(steps), BackSteps(steps);
      match steps[0] {
        case Out(s) => assert o[1..] == OutSteps(steps[1..]) && b == BackSteps(steps[1..]);
        case Back(s) => assert b[1..] == BackSteps(steps[1..]) && o == OutSteps(steps[1..]);
        case SelectReturns => assert o == OutSteps(steps[1..]) && b == BackSteps(steps[1..]);
      }
    }
  }

  lemma {:induction false} StepsOf(steps: seq<TunnelStep>)
    ensures forall s | s in OutSteps(steps) :: Out(s) in steps
    ensures forall s | s in BackSteps(steps) :: Back(s) in steps
  {
    if steps != [] { StepsOf(steps[1..]); }
  }

  /** After any run of the whole tunnel, a finished direction without a failed write has passed on every byte. */
  lemma {:induction false} TunnelDelivers(policy: Policy, steps: seq<TunnelStep>)
    requires TunnelFeasible(Opened(policy), steps)
    ensures var t := TunnelRun(Opened(policy), steps);
      && t.out.output <= t.out.input && t.back.output <= t.back.input
      && ((forall s | s in steps && s.Out? :: !s.step.WriteFails?) && Finished(t.out) ==> t.out.output == t.out.input)
      && ((forall s | s in steps && s.Back? :: !s.step.WriteFails?) && Finished(t.back) ==>
        t.back.output == t.back.input)
  {
    DirectionsProject(Opened(policy), steps);
    StepsOf(steps);
    AllWritten(OutSteps(steps));
    AllWritten(BackSteps(steps));
  }

  ghost predicate AtRest(t: Tunnel) { forall step :: !TunnelEnabled(t, step) }

  predicate NoWriteFails(steps: seq<TunnelStep>) {
    forall s | s in steps && !s.SelectReturns? :: !s.step.WriteFails?
  }

  /** Both directions have passed on all they read. */
  predicate Delivered(t: Tunnel) { t.out.output == t.out.input && t.back.output == t.back.input }

  /** With detached tasks a tunnel comes to rest only when both directions are finished, whichever ended first. */
  lemma {:induction false} DetachedDelivers(steps: seq<TunnelStep>)
    requires TunnelFeasible(Opened(Detach), steps) && AtRest(TunnelRun(Opened(Detach), steps)) && NoWriteFails(steps)
    ensures Delivered(TunnelRun(Opened(Detach), steps))
  {
    var t := TunnelRun(Opened(Detach), steps);
    DirectionsProject(Opened(Detach), steps);
    assert Flatten(START.channel) == [];
    AlwaysConserved(START, OutSteps(steps));
    AlwaysConserved(START, BackSteps(steps));
    if !Finished(t.out) {
      var s := NoDeadlock(t.out);
      assert TunnelEnabled(t, Out(s));
    }
    if !Finished(t.back) {
      var s := NoDeadlock(t.back);
      assert TunnelEnabled(t, Back(s));
    }
    TunnelDelivers(Detach, steps);
  }

  /** Aborted tasks would lose a byte that has been read when the other direction ends. */
  lemma AbortLoses() returns (steps: seq<TunnelStep>)
    ensures TunnelFeasible(Opened(Abort), steps) && NoWriteFails(steps)
    ensures AtRest(TunnelRun(Opened(Abort), steps)) && !Delivered(TunnelRun(Opened(Abort), steps))
  {
    var read, end := Out(Read([7])), Back(EndOfInput);
    steps := [read, end, SelectReturns];
    assert steps[1..] == [end, SelectReturns] && steps[1..][1..] == [SelectReturns] && [SelectReturns][1..] == [];
    var t1 := TunnelApply(Opened(Abort), read);
    var t2 := TunnelApply(t1, end);
    var t3 := TunnelApply(t2, SelectReturns);
    assert TunnelRun(t2, [SelectReturns]) == t3 && TunnelRun(t1, [end, SelectReturns]) == t3;
    assert TunnelRun(Opened(Abort), steps) == t3 && t3.out.input == [7] && t3.out.output == [];
  }

  /** Every run that comes to rest with working writes has delivered everything, exactly because tasks are detached. */
  lemma DeliveryNeedsDetach(policy: Policy)
    ensures policy.Detach? <==>
      forall steps | TunnelFeasible(Opened(policy), steps) && NoWriteFails(steps)
        && AtRest(TunnelRun(Opened(policy), steps)) :: Delivered(TunnelRun(Opened(policy), steps))
  {
    if policy.Detach? {
      forall steps | TunnelFeasible(Opened(policy), steps) && NoWriteFails(steps)
        && AtRest(TunnelRun(Opened(policy), steps))
        ensures Delivered(TunnelRun(Opened(policy), steps)) { DetachedDelivers(steps); }
    } else {
      var steps := AbortLoses();
    }
  }

  // --- Behind the handshake ---

  const HANDSHAKE: nat := 1024

  /**
    The client side reads the host's reply to CONNECT with a single `read` and drops what it got, `n` bytes.
    So the client gets exactly the server's bytes exactly if that read ends where the reply ends: a longer
    read swallows server bytes, a shorter one passes reply bytes on as if the server had sent them.
   */
  lemma {:induction false} HandshakeExactly(reply: seq<byte>, server: seq<byte>, n: nat, steps: seq<TunnelStep>)
    requires n <= HANDSHAKE && n <= |reply + server|
    requires TunnelFeasible(Opened(Detach), steps) && NoWriteFails(steps)
    requires var t := TunnelRun(Opened(Detach), steps); t.back.input == (reply + server)[n..] && Finished(t.back)
    ensures TunnelRun(Opened(Detach), steps).back.output == server <==> n == |reply|
  {
    TunnelDelivers(Detach, steps);
    if n == |reply| { assert (reply + server)[n..] == server; }
  }

  lemma {:induction false} RunOfOne(t: Tunnel, a: TunnelStep)
    requires TunnelEnabled(t, a)
    ensures TunnelFeasible(t, [a]) && TunnelRun(t, [a]) == TunnelApply(t, a)
  {
    var steps := [a];
    assert steps[0] == a && steps[1..] == [];
    assert TunnelRun(t, steps) == TunnelRun(TunnelApply(t, steps[0]), steps[1..]);
  }

  lemma {:induction false} RunOfTwo(t: Tunnel, a: TunnelStep, b: TunnelStep)
    requires TunnelEnabled(t, a) && TunnelEnabled(TunnelApply(t, a), b)
    ensures TunnelFeasible(t, [a, b]) && TunnelRun(t, [a, b]) == TunnelApply(TunnelApply(t, a), b)
  {
    var steps := [a, b];
    assert steps[0] == a && steps[1..] == [b];
    RunOfOne(TunnelApply(t, a), b);
  }

  /** A read that takes the server's first byte with the reply loses it. */
  lemma HandshakeLoses(reply: seq<byte>) returns (steps: seq<TunnelStep>)
    requires |reply| < HANDSHAKE
    ensures TunnelFeasible(Opened(Detach), steps) && NoWriteFails(steps)
    ensures var t := TunnelRun(Opened(Detach), steps);
      t.back.input == (reply + [7])[|reply| + 1..] && Finished(t.back) && t.back.output != [7]
  {
    var end, close := Back(EndOfInput), Back(ChannelClosed);
    steps := [end, close];
    RunOfTwo(Opened(Detach), end, close);
    assert (reply + [7])[|reply| + 1..] == [];
  }

  // --- The tasks of one direction, updating their shared channel in place ---

  class Tasks {
    var reader: Reader
    var channel: seq<seq<byte>>
    var writer: Writer
    ghost var input: seq<byte>
    var output: seq<byte>

    ghost function Abs(): Direction
      reads this
    {
      Direction(reader, channel, writer, input, output)
    }

    constructor ()
      ensures Abs() == START
    {
      reader, channel, writer, input, output := Reading, [], Receiving, [], [];
    }

    /** The reader's `read`: no bytes at the end of input or on an error. */
    method ReadChunk(bytes: seq<byte>)
      requires reader.Reading? && |bytes| <= CHUNK
      modifies this`reader, this`input
      ensures Abs() == Apply(old(Abs()), if bytes == [] then EndOfInput else Read(bytes))
    {
      if bytes == [] {
        reader := ReaderDone;
      } else {
        reader := Sending(bytes);
        input := input + bytes;
      }
    }

    /** The reader's `send`: waits while the channel is full, fails when the writer is gone. */
    method SendChunk() returns (waits: bool)
      requires reader.Sending?
      modifies this`reader, this`channel
      ensures waits == (!writer.Broken? && |old(channel)| >= CAPACITY)
      ensures Abs() == if waits then old(Abs()) else Apply(old(Abs()), if writer.Broken? then SendFails else Send)
    {
      waits := false;
      if writer.Broken? {
        reader := ReaderDone;
      } else if |channel| < CAPACITY {
        channel := channel + [reader.chunk];
        reader := Reading;
      } else {
        waits := true;
      }
    }

    /** The writer's `recv`: waits for a chunk, ends when the reader is gone and the channel is empty. */
    method ReceiveChunk() returns (waits: bool)
      requires writer.Receiving?
      modifies this`writer, this`channel
      ensures waits == (old(channel) == [] && !reader.ReaderDone?)
      ensures waits ==> Abs() == old(Abs())
      ensures !waits ==> Abs() == Apply(old(Abs()), if old(channel) != [] then Receive else ChannelClosed)
    {
      waits := false;
      if channel != [] {
        writer := Writing(channel[0]);
        channel := channel[1..];
      } else if reader.ReaderDone? {
        writer := WriterDone;
      } else {
        waits := true;
      }
    }

    /** The writer's `write_all`, which gets `accepted` bytes through. */
    method WriteChunk(accepted: nat, ok: bool)
      requires writer.Writing? && accepted <= |writer.data| && (ok ==> accepted == |writer.data|)
      modifies this`writer, this`output, this`channel
      ensures Abs() == Apply(old(Abs()), if ok then Write else WriteFails(accepted))
    {
      output := output + writer.data[..accepted];
      if ok {
        writer := Receiving;
      } else {
        writer := Broken;
        channel := [];
      }
    }
  }
}
