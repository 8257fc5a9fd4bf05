/**
  The host's end of a CONNECT tunnel (`relay_bidirectional`): two copying threads that share one
  `closed` flag, which each of them swaps when its copy ends, and the clones of the two sockets that the
  threads and the connection handler own until they end.
 */
module HostRelay {
  datatype Side = ToServer | ToClient

  /** A thread copies, has ended its copy, has found the flag clear, and is gone. */
  datatype Thread = Copying | Ended | MustShutDown | Gone

  datatype Owner = Handler | Copier(side: Side)

  /**
    `server` and `client` are the open descriptors of the two sockets, by owner.  `shut` lists the
    directions whose write side was shut down, `swaps` the order in which the flag was swapped.
   */
  datatype State = State(closed: bool, toServer: Thread, toClient: Thread, server: multiset<Owner>,
                         client: multiset<Owner>, shut: seq<Side>, swaps: seq<Side>) {
    function Of(side: Side): Thread { if side.ToServer? then toServer else toClient }

    /** The descriptors of the socket that direction `side` writes to. */
    function Open(side: Side): multiset<Owner> { if side.ToServer? then server else client }

    /** The peer that direction `side` writes to reads end of file. */
    predicate SeesEnd(side: Side) { side in shut || Open(side) == multiset{} }
  }

  /** The handler still holds the accepted stream, the reader's clone of it and the stream to the target. */
  const START := State(false, Copying, Copying,
                       multiset{Handler, Copier(ToServer), Copier(ToServer), Copier(ToClient)},
                       multiset{Handler, Handler, Copier(ToServer), Copier(ToClient), Copier(ToClient)}, [], [])

  datatype Step = CopyEnds(side: Side) | Swap(side: Side) | Shutdown(side: Side) | HandlerReturns

  predicate Enabled(s: State, step: Step) {
    match step
    case CopyEnds(side) => s.Of(side).Copying?
    case Swap(side) => s.Of(side).Ended?
    case Shutdown(side) => s.Of(side).MustShutDown?
    case HandlerReturns => Handler in s.server
  }

  function SetThread(s: State, side: Side, t: Thread): State {
    if side.ToServer? then s.(toServer := t) else s.(toClient := t)
  }

  /** What an owner drops when it ends. */
  function Drop(s: State, o: Owner): State { s.(server := s.server[o := 0], client := s.client[o := 0]) }

  function End(s: State, side: Side): State { Drop(SetThread(s, side, Gone), Copier(side)) }

  function Apply(s: State, step: Step): State
    requires Enabled(s, step)
  {
    match step
    case CopyEnds(side) => SetThread(s, side, Ended)
    case Swap(side) =>
      (if s.closed then End(s, side) else SetThread(s, side, MustShutDown)).(closed := true, swaps := s.swaps + [side])
    case Shutdown(side) => End(s, side).(shut := s.shut + [side])
    case HandlerReturns => Drop(s, Handler)
  }

  predicate Feasible(s: State, steps: seq<Step>)
    decreases |steps|
  {
    steps == [] || (Enabled(s, steps[0]) && Feasible(Apply(s, steps[0]), steps[1..]))
  }

  function Run(s: State, steps: seq<Step>): State
    requires Feasible(s, steps)
    decreases |steps|
  {
    if steps == [] then s else Run(Apply(s, steps[0]), steps[1..])
  }

  function Other(side: Side): Side { if side.ToServer? then ToClient else ToServer }

  predicate Swapped(s: State, side: Side) { s.Of(side).MustShutDown? || s.Of(side).Gone? }

  /** Nobody swapped yet; or `first` did and alone owes, or has done, the one shutdown. */
  predicate FlagOk(s: State) {
    if s.swaps == [] then !s.closed && s.shut == [] && !Swapped(s, ToServer) && !Swapped(s, ToClient)
    else
      var first := s.swaps[0];
      && s.closed && Swapped(s, first) && !s.Of(Other(first)).MustShutDown?
      && s.shut == if s.Of(first).Gone? then [first] else []
  }

  /** Each owner holds a descriptor of both sockets until it ends. */
  predicate OwnersOk(s: State) {
    && (forall side | side in {ToServer, ToClient} ::
          (Copier(side) in s.server <==> !s.Of(side).Gone?) && (Copier(side) in s.client <==> !s.Of(side).Gone?))
    && (Handler in s.server <==> Handler in s.client)
  }

  lemma FlagKeeps(s: State, step: Step)
    requires FlagOk(s) && Enabled(s, step)
    ensures FlagOk(Apply(s, step))
  {
  }

  lemma OwnersKeep(s: State, step: Step)
    requires OwnersOk(s) && Enabled(s, step)
    ensures OwnersOk(Apply(s, step))
  {
  }

  lemma {:induction false} RunKeeps(s: State, steps: seq<Step>)
    requires FlagOk(s) && OwnersOk(s) && Feasible(s, steps)
    ensures FlagOk(Run(s, steps)) && OwnersOk(Run(s, steps))
    decreases |steps|
  {
    if steps != [] {
      FlagKeeps(s, steps[0]);
      OwnersKeep(s, steps[0]);
      RunKeeps(Apply(s, steps[0]), steps[1..]);
    }
  }

  /** At most one write side is ever shut down, that of the thread that swapped the flag first. */
  lemma {:induction false} OneShutdown(steps: seq<Step>)
    requires Feasible(START, steps)
    ensures var s := Run(START, steps);
      && (s.shut == [] || (s.swaps != [] && s.shut == [s.swaps[0]]))
      && (s.toServer.Gone? && s.toClient.Gone? ==> s.swaps != [] && s.shut == [s.swaps[0]])
  {
    RunKeeps(START, steps);
  }

  lemma NoOwnerLeft(s: State, side: Side)
    requires OwnersOk(s)
    ensures s.Open(side) == multiset{} <==> s.toServer.Gone? && s.toClient.Gone? && Handler !in s.server
  {
    assert Copier(ToServer) in s.Open(side) <==> !s.toServer.Gone?;
    assert Copier(ToClient) in s.Open(side) <==> !s.toClient.Gone?;
    assert Handler in s.Open(side) <==> Handler in s.server;
    if s.toServer.Gone? && s.toClient.Gone? && Handler !in s.server {
      forall o ensures o !in s.Open(side) {
        assert o == Handler || o == Copier(ToServer) || o == Copier(ToClient);
      }
    }
  }

  /**
    When the peer of a direction reads end of file, in every run: once the direction's own thread has gone
    after swapping the flag first, or else once both threads are gone and the handler has returned, which
    closes the last descriptors of both sockets.
   */
  lemma {:induction false} EndOfFileExactly(steps: seq<Step>, side: Side)
    requires Feasible(START, steps)
    ensures var s := Run(START, steps);
      s.SeesEnd(side) <==>
        || (s.swaps != [] && s.swaps[0] == side && s.Of(side).Gone?)
        || (s.toServer.Gone? && s.toClient.Gone? && Handler !in s.server)
  {
    RunKeeps(START, steps);
    NoOwnerLeft(Run(START, steps), side);
  }

  /** So a direction's end is passed on exactly if it swapped first or the other direction has ended too. */
  lemma {:induction false} PassedOnExactly(steps: seq<Step>, side: Side)
    requires Feasible(START, steps)
    requires var s := Run(START, steps); s.Of(side).Gone? && Handler !in s.server
    ensures var s := Run(START, steps);
      s.SeesEnd(side) <==> (s.swaps != [] && s.swaps[0] == side) || s.Of(Other(side)).Gone?
  {
    EndOfFileExactly(steps, side);
  }
}
