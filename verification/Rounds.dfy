/** The order in which the server's main loop serves what select found ready, as
    steps of the transition system. */
module Rounds {
  import opened Wrappers
  import opened Protocol
  import opened Slots
  import opened Kernel
  import opened World
  import opened Runs

  /** What one select reports: the result of accept if the listener is ready, and
      what recv has for the entries that are, the empty string standing for an
      error or the end of the stream; also whether a waiting client takes a reply. */
  datatype Inputs = Inputs(accepted: Option<int>, slots: nat -> Option<Bytes>, waiting: nat -> Option<Bytes>,
                           sendable: nat -> bool)

  /** What recv returns of an input when it is given room for n bytes. */
  function Room(input: Bytes, n: int): Bytes {
    if |input| <= n then input else if n < 0 then [] else input[..n]
  }

  /** A full buffer leaves recv no room, which reads as the end of the stream. */
  function SlotTurn(w: World, u: nat, input: Bytes): Step
    requires Shaped(w) && u < MAX_CLIENTS
  {
    var chunk := Room(input, INPUT_BUFFER_SIZE - |w.ports[u].pending|);
    if chunk == [] then SlotDrop(u) else SlotBytes(u, chunk)
  }

  /** A connection that still sends is dropped if and only if its buffer is full. In
      a reachable server only a slot that is stuck can have filled it. */
  lemma FullBufferDrops(cfg: Config, w: World, u: nat, input: Bytes)
    requires Shaped(w) && u < MAX_CLIENTS && input != []
    ensures SlotTurn(w, u, input) == SlotDrop(u) <==> |w.ports[u].pending| >= INPUT_BUFFER_SIZE
    ensures Inv(cfg, w) && SlotTurn(w, u, input) == SlotDrop(u) ==> Stuck(w.ports[u].pending)
  {
    hide SlotsOk, Exclusive, Accounted, DevicesExclusive;
  }

  function WaitTurn(w: World, i: nat, input: Bytes, sent: bool): Step
    requires Shaped(w) && i < MAX_WAITING_CLIENTS
  {
    var chunk := Room(input, INPUT_BUFFER_SIZE - |w.waiting[i].pending|);
    if chunk == [] then WaitDrop(i) else WaitBytes(i, chunk, sent)
  }

  /** No slot has left defined behaviour. */
  predicate Defined(w: World) {
    forall p | p in w.ports :: !p.slot.wrecked
  }

  /** The steps for the connected slots from u on; they end where the behaviour is
      no longer defined. */
  function SlotSteps(cfg: Config, w: World, u: nat, inputs: Inputs, oses: Oses): seq<Step>
    requires Shaped(w) && u <= MAX_CLIENTS
    decreases MAX_CLIENTS - u
  {
    if u == MAX_CLIENTS || !Defined(w) then []
    else if w.ports[u].slot.fd < 0 || inputs.slots(u).None? then SlotSteps(cfg, w, u + 1, inputs, oses)
    else
      var step := SlotTurn(w, u, inputs.slots(u).value);
      [step] + SlotSteps(cfg, Next(cfg, w, step, oses), u + 1, inputs, oses)
  }

  /** The steps for the waiting connections from i on. */
  function WaitSteps(cfg: Config, w: World, i: nat, inputs: Inputs, oses: Oses): seq<Step>
    requires Shaped(w) && i <= MAX_WAITING_CLIENTS
    decreases MAX_WAITING_CLIENTS - i
  {
    if i == MAX_WAITING_CLIENTS || !Defined(w) then []
    else if w.waiting[i].fd < 0 || inputs.waiting(i).None? then WaitSteps(cfg, w, i + 1, inputs, oses)
    else
      var step := WaitTurn(w, i, inputs.waiting(i).value, inputs.sendable(i));
      [step] + WaitSteps(cfg, Next(cfg, w, step, oses), i + 1, inputs, oses)
  }

  function AcceptSteps(inputs: Inputs): seq<Step> {
    if inputs.accepted.Some? then [Accept(inputs.accepted.value)] else []
  }

  /** One round: the listener, then the slots, then the waiting connections. */
  function RoundSteps(cfg: Config, w: World, inputs: Inputs, oses: Oses): seq<Step>
    requires Shaped(w)
  {
    var w1 := Run(cfg, w, AcceptSteps(inputs), oses);
    var slots := SlotSteps(cfg, w1, 0, inputs, oses);
    AcceptSteps(inputs) + slots + WaitSteps(cfg, Run(cfg, w1, slots, oses), 0, inputs, oses)
  }

  /** Rounds one after the other. */
  function AllSteps(cfg: Config, w: World, rounds: seq<Inputs>, oses: Oses): seq<Step>
    requires Shaped(w)
    decreases |rounds|
  {
    if rounds == [] then []
    else
      var steps := RoundSteps(cfg, w, rounds[0], oses);
      steps + AllSteps(cfg, Run(cfg, w, steps, oses), rounds[1..], oses)
  }

  // ---------- a round in parts ----------

  /** Where the turns of the slots from u on lead. */
  function SlotsFrom(cfg: Config, w: World, u: nat, inputs: Inputs, oses: Oses): World
    requires Shaped(w) && u <= MAX_CLIENTS
  {
    Run(cfg, w, SlotSteps(cfg, w, u, inputs, oses), oses)
  }

  function WaitsFrom(cfg: Config, w: World, i: nat, inputs: Inputs, oses: Oses): World
    requires Shaped(w) && i <= MAX_WAITING_CLIENTS
  {
    Run(cfg, w, WaitSteps(cfg, w, i, inputs, oses), oses)
  }

  lemma SlotsNext(cfg: Config, w: World, u: nat, inputs: Inputs, oses: Oses)
    requires Shaped(w) && u < MAX_CLIENTS && Defined(w)
    ensures SlotsFrom(cfg, w, u, inputs, oses)
         == if w.ports[u].slot.fd < 0 || inputs.slots(u).None? then SlotsFrom(cfg, w, u + 1, inputs, oses)
            else SlotsFrom(cfg, Next(cfg, w, SlotTurn(w, u, inputs.slots(u).value), oses), u + 1, inputs, oses)
  {
    hide Next, Run, Defined;
    if w.ports[u].slot.fd >= 0 && inputs.slots(u).Some? {
      var step := SlotTurn(w, u, inputs.slots(u).value);
      RunFirst(cfg, w, step, SlotSteps(cfg, Next(cfg, w, step, oses), u + 1, inputs, oses), oses);
    }
  }

  lemma SlotsStop(cfg: Config, w: World, u: nat, inputs: Inputs, oses: Oses)
    requires Shaped(w) && u <= MAX_CLIENTS && (u == MAX_CLIENTS || !Defined(w))
    ensures SlotsFrom(cfg, w, u, inputs, oses) == w
    ensures !Defined(w) ==> WaitsFrom(cfg, w, 0, inputs, oses) == w
  {}

  lemma WaitsNext(cfg: Config, w: World, i: nat, inputs: Inputs, oses: Oses)
    requires Shaped(w) && i < MAX_WAITING_CLIENTS && Defined(w)
    ensures WaitsFrom(cfg, w, i, inputs, oses)
         == if w.waiting[i].fd < 0 || inputs.waiting(i).None? then WaitsFrom(cfg, w, i + 1, inputs, oses)
            else WaitsFrom(cfg, Next(cfg, w, WaitTurn(w, i, inputs.waiting(i).value, inputs.sendable(i)), oses),
                           i + 1, inputs, oses)
  {
    hide Next, Run, Defined;
    if w.waiting[i].fd >= 0 && inputs.waiting(i).Some? {
      var step := WaitTurn(w, i, inputs.waiting(i).value, inputs.sendable(i));
      RunFirst(cfg, w, step, WaitSteps(cfg, Next(cfg, w, step, oses), i + 1, inputs, oses), oses);
    }
  }

  lemma WaitsStop(cfg: Config, w: World, i: nat, inputs: Inputs, oses: Oses)
    requires Shaped(w) && i == MAX_WAITING_CLIENTS
    ensures WaitsFrom(cfg, w, i, inputs, oses) == w
  {}

  lemma RoundInParts(cfg: Config, w: World, inputs: Inputs, oses: Oses)
    requires Shaped(w)
    ensures Run(cfg, w, RoundSteps(cfg, w, inputs, oses), oses)
         == WaitsFrom(cfg, SlotsFrom(cfg, Run(cfg, w, AcceptSteps(inputs), oses), 0, inputs, oses), 0, inputs, oses)
  {
    hide Next, Run, SlotSteps, WaitSteps;
    var first := AcceptSteps(inputs);
    var w1 := Run(cfg, w, first, oses);
    var slots := SlotSteps(cfg, w1, 0, inputs, oses);
    RunAppend(cfg, w, first, slots, oses);
    RunAppend(cfg, w, first + slots, WaitSteps(cfg, Run(cfg, w1, slots, oses), 0, inputs, oses), oses);
  }

  // ---------- a round stays within the server's side of the rules ----------

  lemma {:induction false} SlotStepsProper(cfg: Config, w: World, u: nat, inputs: Inputs, oses: Oses)
    requires Shaped(w) && u <= MAX_CLIENTS
    requires Defined(Run(cfg, w, SlotSteps(cfg, w, u, inputs, oses), oses))
    ensures Defined(w) && ProperRun(cfg, w, SlotSteps(cfg, w, u, inputs, oses), oses)
    decreases MAX_CLIENTS - u
  {
    hide Next, Run, ProperRun, Defined;
    if u < MAX_CLIENTS && Defined(w) {
      if w.ports[u].slot.fd < 0 || inputs.slots(u).None? {
        SlotStepsProper(cfg, w, u + 1, inputs, oses);
      } else {
        var step := SlotTurn(w, u, inputs.slots(u).value);
        var w1 := Next(cfg, w, step, oses);
        RunFirst(cfg, w, step, SlotSteps(cfg, w1, u + 1, inputs, oses), oses);
        SlotStepsProper(cfg, w1, u + 1, inputs, oses);
        SlotTurnProper(cfg, w, u, inputs.slots(u).value, oses);
      }
    } else {
      RunFirst(cfg, w, Shutdown, [], oses);
    }
  }

  lemma SlotTurnProper(cfg: Config, w: World, u: nat, input: Bytes, oses: Oses)
    requires Shaped(w) && u < MAX_CLIENTS && w.ports[u].slot.fd >= 0
    requires Defined(Next(cfg, w, SlotTurn(w, u, input), oses))
    ensures Proper(cfg, w, SlotTurn(w, u, input), oses)
  {
    hide Drain, Close, Absorb;
    var w1 := Next(cfg, w, SlotTurn(w, u, input), oses);
    assert w1.ports[u] in w1.ports;
  }

  lemma {:induction false} WaitStepsProper(cfg: Config, w: World, i: nat, inputs: Inputs, oses: Oses)
    requires Shaped(w) && i <= MAX_WAITING_CLIENTS
    requires Defined(Run(cfg, w, WaitSteps(cfg, w, i, inputs, oses), oses))
    ensures Defined(w) && ProperRun(cfg, w, WaitSteps(cfg, w, i, inputs, oses), oses)
    decreases MAX_WAITING_CLIENTS - i
  {
    hide Next, Run, ProperRun, Defined;
    if i < MAX_WAITING_CLIENTS && Defined(w) {
      if w.waiting[i].fd < 0 || inputs.waiting(i).None? {
        WaitStepsProper(cfg, w, i + 1, inputs, oses);
      } else {
        var step := WaitTurn(w, i, inputs.waiting(i).value, inputs.sendable(i));
        var w1 := Next(cfg, w, step, oses);
        RunFirst(cfg, w, step, WaitSteps(cfg, w1, i + 1, inputs, oses), oses);
        WaitStepsProper(cfg, w1, i + 1, inputs, oses);
      }
    } else {
      RunFirst(cfg, w, Shutdown, [], oses);
    }
  }

  lemma RoundIsProper(cfg: Config, w: World, inputs: Inputs, oses: Oses)
    requires Shaped(w) && Defined(Run(cfg, w, RoundSteps(cfg, w, inputs, oses), oses))
    ensures ProperRun(cfg, w, RoundSteps(cfg, w, inputs, oses), oses)
  {
    hide Next, Run, ProperRun, Defined, SlotSteps, WaitSteps;
    var first := AcceptSteps(inputs);
    var w1 := Run(cfg, w, first, oses);
    var slots := SlotSteps(cfg, w1, 0, inputs, oses);
    var w2 := Run(cfg, w1, slots, oses);
    var waits := WaitSteps(cfg, w2, 0, inputs, oses);
    RunAppend(cfg, w, first, slots, oses);
    RunAppend(cfg, w, first + slots, waits, oses);
    WaitStepsProper(cfg, w2, 0, inputs, oses);
    SlotStepsProper(cfg, w1, 0, inputs, oses);
    AcceptProper(cfg, w, inputs, oses);
  }

  lemma AcceptProper(cfg: Config, w: World, inputs: Inputs, oses: Oses)
    requires Shaped(w)
    ensures ProperRun(cfg, w, AcceptSteps(inputs), oses)
  {}

  /** The main loop over any number of rounds is a legal run, so every invariant
      and every property of legal runs holds of it: all that is asked for is that
      the operating system keeps its promises and the behaviour stays defined. */
  lemma {:induction false} RoundsAreLegal(cfg: Config, w: World, rounds: seq<Inputs>, oses: Oses)
    requires Inv(cfg, w)
    requires var steps := AllSteps(cfg, w, rounds, oses);
             PromisedRun(cfg, w, steps, oses) && Defined(Run(cfg, w, steps, oses))
    ensures var steps := AllSteps(cfg, w, rounds, oses);
            LegalRun(cfg, w, steps, oses) && Inv(cfg, Run(cfg, w, steps, oses))
    decreases |rounds|
  {
    hide Next, Run, ProperRun, PromisedRun, LegalRun, Defined, RoundSteps, Exclusive, Accounted, SlotsOk,
      DevicesExclusive, BuffersOk;
    var steps := AllSteps(cfg, w, rounds, oses);
    AllProper(cfg, w, rounds, oses);
    BothSides(cfg, w, steps, oses);
    RunKeeps(cfg, w, steps, oses);
  }

  lemma {:induction false} AllProper(cfg: Config, w: World, rounds: seq<Inputs>, oses: Oses)
    requires Shaped(w) && Defined(Run(cfg, w, AllSteps(cfg, w, rounds, oses), oses))
    ensures ProperRun(cfg, w, AllSteps(cfg, w, rounds, oses), oses)
    decreases |rounds|
  {
    hide Next, Run, ProperRun, Defined, RoundSteps;
    if rounds == [] {
      RunFirst(cfg, w, Shutdown, [], oses);
    } else {
      var steps := RoundSteps(cfg, w, rounds[0], oses);
      var w1 := Run(cfg, w, steps, oses);
      var more := AllSteps(cfg, w1, rounds[1..], oses);
      RunAppend(cfg, w, steps, more, oses);
      AllProper(cfg, w1, rounds[1..], oses);
      DefinedBefore(cfg, w1, rounds[1..], oses);
      RoundIsProper(cfg, w, rounds[0], oses);
    }
  }

  /** Nothing is served any more once the behaviour is not defined. */
  lemma {:induction false} DefinedBefore(cfg: Config, w: World, rounds: seq<Inputs>, oses: Oses)
    requires Shaped(w) && Defined(Run(cfg, w, AllSteps(cfg, w, rounds, oses), oses))
    ensures Defined(w)
    decreases |rounds|
  {
    hide Next, Run, Defined, SlotSteps, WaitSteps;
    if rounds == [] {
      RunFirst(cfg, w, Shutdown, [], oses);
    } else {
      var steps := RoundSteps(cfg, w, rounds[0], oses);
      var w1 := Run(cfg, w, steps, oses);
      RunAppend(cfg, w, steps, AllSteps(cfg, w1, rounds[1..], oses), oses);
      DefinedBefore(cfg, w1, rounds[1..], oses);
      RoundDefined(cfg, w, rounds[0], oses);
    }
  }

  lemma RoundDefined(cfg: Config, w: World, inputs: Inputs, oses: Oses)
    requires Shaped(w) && Defined(Run(cfg, w, RoundSteps(cfg, w, inputs, oses), oses))
    ensures Defined(w)
  {
    hide Next, Run, ProperRun, Defined, SlotSteps, WaitSteps;
    var first := AcceptSteps(inputs);
    var w1 := Run(cfg, w, first, oses);
    var slots := SlotSteps(cfg, w1, 0, inputs, oses);
    var w2 := Run(cfg, w1, slots, oses);
    RunAppend(cfg, w, first, slots, oses);
    RunAppend(cfg, w, first + slots, WaitSteps(cfg, w2, 0, inputs, oses), oses);
    WaitStepsProper(cfg, w2, 0, inputs, oses);
    SlotStepsProper(cfg, w1, 0, inputs, oses);
    AcceptDefined(cfg, w, inputs, oses);
  }

  lemma AcceptDefined(cfg: Config, w: World, inputs: Inputs, oses: Oses)
    requires Shaped(w) && Defined(Run(cfg, w, AcceptSteps(inputs), oses))
    ensures Defined(w)
  {
    if inputs.accepted.Some? {
      RunFirst(cfg, w, Accept(inputs.accepted.value), [], oses);
      assert AcceptSteps(inputs) == [Accept(inputs.accepted.value)] + [];
    }
  }
}
