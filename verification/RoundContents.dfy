/** Which steps one round of the main loop consists of, from the server and from what
    select reports alone. */
module RoundContents {
  import opened Wrappers
  import opened Protocol
  import opened Slots
  import opened Kernel
  import opened World
  import opened Rounds

  /** recv returns of an input that is not empty, within the room of the buffer, as
      much as there is and fits. */
  predicate Reads(input: Bytes, pending: Bytes, chunk: Bytes) {
    && chunk != []
    && chunk <= input
    && |pending + chunk| <= INPUT_BUFFER_SIZE
    && (chunk == input || |pending + chunk| == INPUT_BUFFER_SIZE)
  }

  /** recv returns nothing: an error, the end of the stream, or no room. */
  predicate ReadsNothing(input: Bytes, pending: Bytes) {
    input == [] || |pending| >= INPUT_BUFFER_SIZE
  }

  /** The server behind the listener's turn. */
  function Listened(w: World, inputs: Inputs): (r: World)
    requires Shaped(w)
    ensures Shaped(r) && r.ports == w.ports
  {
    if inputs.accepted.Some? then AcceptStep(w, inputs.accepted.value) else w
  }

  /** A slot that is connected and has something to say is served. */
  predicate ForSlots(w: World, inputs: Inputs, step: Step)
    requires Shaped(w)
  {
    match step
    case SlotBytes(u, chunk) =>
      && u < MAX_CLIENTS && w.ports[u].slot.fd >= 0 && inputs.slots(u).Some?
      && Reads(inputs.slots(u).value, w.ports[u].pending, chunk)
    case SlotDrop(u) =>
      && u < MAX_CLIENTS && w.ports[u].slot.fd >= 0 && inputs.slots(u).Some?
      && ReadsNothing(inputs.slots(u).value, w.ports[u].pending)
    case _ => false
  }

  /** And a waiting connection. */
  predicate ForEntries(w: World, inputs: Inputs, step: Step)
    requires Shaped(w)
  {
    match step
    case WaitBytes(i, chunk, sent) =>
      && i < MAX_WAITING_CLIENTS && w.waiting[i].fd >= 0 && inputs.waiting(i).Some?
      && Reads(inputs.waiting(i).value, w.waiting[i].pending, chunk) && sent == inputs.sendable(i)
    case WaitDrop(i) =>
      && i < MAX_WAITING_CLIENTS && w.waiting[i].fd >= 0 && inputs.waiting(i).Some?
      && ReadsNothing(inputs.waiting(i).value, w.waiting[i].pending)
    case _ => false
  }

  /** Everything a round has to do. */
  predicate Due(w: World, inputs: Inputs, step: Step)
    requires Shaped(w)
  {
    || (step.Accept? && inputs.accepted == Some(step.result))
    || ForSlots(w, inputs, step)
    || ForEntries(Listened(w, inputs), inputs, step)
  }

  /** The listener comes first, then the slots, then the waiting connections, each in
      the order of its table. */
  function Rank(step: Step): int {
    match step
    case Accept(_) => -1
    case SlotBytes(u, _) => u
    case SlotDrop(u) => u
    case WaitBytes(i, _, _) => MAX_CLIENTS + i
    case WaitDrop(i) => MAX_CLIENTS + i
    case Shutdown => MAX_CLIENTS + MAX_WAITING_CLIENTS
  }

  /** Strictly in this order, so that nothing is served twice. */
  predicate Ranked(steps: seq<Step>) {
    forall p, q | 0 <= p < q < |steps| :: Rank(steps[p]) < Rank(steps[q])
  }

  lemma RankedAppend(a: seq<Step>, b: seq<Step>)
    requires Ranked(a) && Ranked(b) && forall x, y | x in a && y in b :: Rank(x) < Rank(y)
    ensures Ranked(a + b)
  {}

  /** A slot's turn leaves the other slots and the waiting connections as they are. */
  lemma SlotTurnIsLocal(cfg: Config, w: World, u: nat, input: Bytes, oses: Oses)
    requires Shaped(w) && u < MAX_CLIENTS
    ensures var w' := Next(cfg, w, SlotTurn(w, u, input), oses);
            && w'.waiting == w.waiting
            && forall v | 0 <= v < MAX_CLIENTS && v != u :: w'.ports[v] == w.ports[v]
  {
    hide Feed, Close, Absorb;
  }

  lemma WaitTurnIsLocal(cfg: Config, w: World, i: nat, input: Bytes, sent: bool, oses: Oses)
    requires Shaped(w) && i < MAX_WAITING_CLIENTS
    ensures forall j | 0 <= j < MAX_WAITING_CLIENTS && j != i ::
              Next(cfg, w, WaitTurn(w, i, input, sent), oses).waiting[j] == w.waiting[j]
  {
    hide Choose, Cleanup, Absorb;
  }

  lemma SlotTurnIsDue(w: World, u: nat, inputs: Inputs, step: Step)
    requires Shaped(w) && u < MAX_CLIENTS && w.ports[u].slot.fd >= 0 && inputs.slots(u).Some?
    ensures ForSlots(w, inputs, step) && Rank(step) == u <==> step == SlotTurn(w, u, inputs.slots(u).value)
  {
    var input, pending := inputs.slots(u).value, w.ports[u].pending;
    RoomReads(input, pending);
    if step.SlotBytes? && step.u == u {
      OneReading(input, pending, step.chunk);
    }
  }

  lemma WaitTurnIsDue(w: World, i: nat, inputs: Inputs, step: Step)
    requires Shaped(w) && i < MAX_WAITING_CLIENTS && w.waiting[i].fd >= 0 && inputs.waiting(i).Some?
    ensures ForEntries(w, inputs, step) && Rank(step) == MAX_CLIENTS + i
       <==> step == WaitTurn(w, i, inputs.waiting(i).value, inputs.sendable(i))
  {
    var input, pending := inputs.waiting(i).value, w.waiting[i].pending;
    RoomReads(input, pending);
    if step.WaitBytes? && step.i == i {
      OneReading(input, pending, step.chunk);
    }
  }

  /** What recv returns is determined. */
  lemma RoomReads(input: Bytes, pending: Bytes)
    ensures var chunk := Room(input, INPUT_BUFFER_SIZE - |pending|);
            if chunk == [] then ReadsNothing(input, pending)
            else Reads(input, pending, chunk) && !ReadsNothing(input, pending)
  {}

  lemma OneReading(input: Bytes, pending: Bytes, chunk: Bytes)
    ensures Reads(input, pending, chunk) ==> chunk == Room(input, INPUT_BUFFER_SIZE - |pending|)
  {}

  // ---------- the slots ----------

  /** Due for the slots from u on. */
  predicate SlotDue(w: World, u: nat, inputs: Inputs, step: Step)
    requires Shaped(w)
  {
    ForSlots(w, inputs, step) && u <= Rank(step)
  }

  lemma DueForSlot(cfg: Config, w: World, u: nat, inputs: Inputs, oses: Oses)
    requires Shaped(w) && u < MAX_CLIENTS
    ensures if w.ports[u].slot.fd < 0 || inputs.slots(u).None? then
              forall t :: SlotDue(w, u, inputs, t) <==> SlotDue(w, u + 1, inputs, t)
            else
              var step := SlotTurn(w, u, inputs.slots(u).value);
              && Rank(step) == u
              && forall t :: SlotDue(w, u, inputs, t) <==>
                               t == step || SlotDue(Next(cfg, w, step, oses), u + 1, inputs, t)
  {
    hide Next, SlotTurn, Reads, ReadsNothing;
    if w.ports[u].slot.fd >= 0 && inputs.slots(u).Some? {
      SlotTurnIsDue(w, u, inputs, SlotTurn(w, u, inputs.slots(u).value));
      SlotTurnIsLocal(cfg, w, u, inputs.slots(u).value, oses);
      forall t: Step
        ensures SlotDue(w, u, inputs, t) && Rank(t) == u <==> t == SlotTurn(w, u, inputs.slots(u).value)
      {
        SlotTurnIsDue(w, u, inputs, t);
      }
    }
  }

  lemma SlotRanks(w: World, inputs: Inputs)
    requires Shaped(w)
    ensures forall u: nat, t: Step | SlotDue(w, u, inputs, t) :: u <= Rank(t) < MAX_CLIENTS
    ensures forall t: Step :: SlotDue(w, 0, inputs, t) <==> ForSlots(w, inputs, t)
  {}

  /** The steps taken for some entries are the ones due, in their order; if the behaviour
      does not stay defined, they are the first of these. */
  ghost predicate TakenAsDue(steps: seq<Step>, due: iset<Step>, defined: bool) {
    && Ranked(steps)
    && (forall t | t in steps :: t in due)
    && (forall t | t in due && t !in steps :: !defined && forall x | x in steps :: Rank(x) < Rank(t))
  }

  lemma TakeFirst(step: Step, more: seq<Step>, due: iset<Step>, later: iset<Step>, defined: bool)
    requires TakenAsDue(more, later, defined) && due == iset{step} + later
    requires forall t | t in later :: Rank(step) < Rank(t)
    ensures TakenAsDue([step] + more, due, defined)
  {
    RankedAppend([step], more);
  }

  lemma TakeNothing(due: iset<Step>, defined: bool)
    requires defined ==> due == iset{}
    ensures TakenAsDue([], due, defined)
  {}

  ghost function SlotsDue(w: World, u: nat, inputs: Inputs): iset<Step>
    requires Shaped(w)
  {
    iset t | SlotDue(w, u, inputs, t)
  }

  lemma {:induction false} SlotStepsAreDue(cfg: Config, w: World, u: nat, inputs: Inputs, oses: Oses)
    requires Shaped(w) && u <= MAX_CLIENTS
    ensures var steps := SlotSteps(cfg, w, u, inputs, oses); var w' := Run(cfg, w, steps, oses);
            TakenAsDue(steps, SlotsDue(w, u, inputs), Defined(w')) && w'.waiting == w.waiting
    decreases MAX_CLIENTS - u
  {
    hide Next, Run, Defined, SlotTurn, SlotDue, TakenAsDue;
    RunFirst(cfg, w, Shutdown, [], oses);
    SlotRanks(w, inputs);
    if u == MAX_CLIENTS || !Defined(w) {
      TakeNothing(SlotsDue(w, u, inputs), Defined(w));
    } else {
      DueForSlot(cfg, w, u, inputs, oses);
      if w.ports[u].slot.fd < 0 || inputs.slots(u).None? {
        SlotStepsAreDue(cfg, w, u + 1, inputs, oses);
        assert SlotsDue(w, u, inputs) == SlotsDue(w, u + 1, inputs);
      } else {
        var step := SlotTurn(w, u, inputs.slots(u).value);
        var w1 := Next(cfg, w, step, oses);
        var more := SlotSteps(cfg, w1, u + 1, inputs, oses);
        SlotStepsAreDue(cfg, w1, u + 1, inputs, oses);
        RunFirst(cfg, w, step, more, oses);
        SlotTurnIsLocal(cfg, w, u, inputs.slots(u).value, oses);
        SlotRanks(w1, inputs);
        TakeFirst(step, more, SlotsDue(w, u, inputs), SlotsDue(w1, u + 1, inputs),
                  Defined(Run(cfg, w1, more, oses)));
      }
    }
  }

  // ---------- the waiting connections ----------

  predicate EntryDue(w: World, i: nat, inputs: Inputs, step: Step)
    requires Shaped(w)
  {
    ForEntries(w, inputs, step) && MAX_CLIENTS + i <= Rank(step)
  }

  ghost function EntriesDue(w: World, i: nat, inputs: Inputs): iset<Step>
    requires Shaped(w)
  {
    iset t | EntryDue(w, i, inputs, t)
  }

  lemma DueForEntry(cfg: Config, w: World, i: nat, inputs: Inputs, oses: Oses)
    requires Shaped(w) && i < MAX_WAITING_CLIENTS
    ensures if w.waiting[i].fd < 0 || inputs.waiting(i).None? then
              forall t :: EntryDue(w, i, inputs, t) <==> EntryDue(w, i + 1, inputs, t)
            else
              var step := WaitTurn(w, i, inputs.waiting(i).value, inputs.sendable(i));
              && Rank(step) == MAX_CLIENTS + i
              && forall t :: EntryDue(w, i, inputs, t) <==>
                               t == step || EntryDue(Next(cfg, w, step, oses), i + 1, inputs, t)
  {
    hide Next, WaitTurn, Reads, ReadsNothing;
    if w.waiting[i].fd >= 0 && inputs.waiting(i).Some? {
      var input, sent := inputs.waiting(i).value, inputs.sendable(i);
      WaitTurnIsDue(w, i, inputs, WaitTurn(w, i, input, sent));
      WaitTurnIsLocal(cfg, w, i, input, sent, oses);
      forall t: Step
        ensures EntryDue(w, i, inputs, t) && Rank(t) == MAX_CLIENTS + i <==> t == WaitTurn(w, i, input, sent)
      {
        WaitTurnIsDue(w, i, inputs, t);
      }
    }
  }

  lemma EntryRanks(w: World, inputs: Inputs)
    requires Shaped(w)
    ensures forall i: nat, t: Step | EntryDue(w, i, inputs, t) ::
              MAX_CLIENTS + i <= Rank(t) < MAX_CLIENTS + MAX_WAITING_CLIENTS
    ensures forall t: Step :: EntryDue(w, 0, inputs, t) <==> ForEntries(w, inputs, t)
  {}

  lemma {:induction false} WaitStepsAreDue(cfg: Config, w: World, i: nat, inputs: Inputs, oses: Oses)
    requires Shaped(w) && i <= MAX_WAITING_CLIENTS
    ensures var steps := WaitSteps(cfg, w, i, inputs, oses);
            TakenAsDue(steps, EntriesDue(w, i, inputs), Defined(Run(cfg, w, steps, oses)))
    decreases MAX_WAITING_CLIENTS - i
  {
    hide Next, Run, Defined, WaitTurn, EntryDue, TakenAsDue;
    RunFirst(cfg, w, Shutdown, [], oses);
    EntryRanks(w, inputs);
    if i == MAX_WAITING_CLIENTS || !Defined(w) {
      TakeNothing(EntriesDue(w, i, inputs), Defined(w));
    } else {
      DueForEntry(cfg, w, i, inputs, oses);
      if w.waiting[i].fd < 0 || inputs.waiting(i).None? {
        WaitStepsAreDue(cfg, w, i + 1, inputs, oses);
        assert EntriesDue(w, i, inputs) == EntriesDue(w, i + 1, inputs);
      } else {
        var step := WaitTurn(w, i, inputs.waiting(i).value, inputs.sendable(i));
        var w1 := Next(cfg, w, step, oses);
        var more := WaitSteps(cfg, w1, i + 1, inputs, oses);
        WaitStepsAreDue(cfg, w1, i + 1, inputs, oses);
        RunFirst(cfg, w, step, more, oses);
        EntryRanks(w1, inputs);
        TakeFirst(step, more, EntriesDue(w, i, inputs), EntriesDue(w1, i + 1, inputs),
                  Defined(Run(cfg, w1, more, oses)));
      }
    }
  }

  // ---------- a whole round ----------

  lemma TakeBoth(a: seq<Step>, b: seq<Step>, due: iset<Step>, later: iset<Step>, defined: bool, defined': bool)
    requires TakenAsDue(a, due, defined) && TakenAsDue(b, later, defined')
    requires forall x, y | x in due && y in later :: Rank(x) < Rank(y)
    requires !defined ==> b == [] && !defined'
    ensures TakenAsDue(a + b, due + later, defined')
  {
    RankedAppend(a, b);
  }

  lemma ListenerFirst(cfg: Config, w: World, inputs: Inputs, oses: Oses)
    requires Shaped(w)
    ensures Run(cfg, w, AcceptSteps(inputs), oses) == Listened(w, inputs)
    ensures Defined(w) <==> Defined(Listened(w, inputs))
    ensures TakenAsDue(AcceptSteps(inputs), AcceptDue(inputs), true)
  {
    RunFirst(cfg, w, Accept(if inputs.accepted.Some? then inputs.accepted.value else 0), [], oses);
    assert inputs.accepted.Some? ==> AcceptSteps(inputs) == [Accept(inputs.accepted.value)] + [];
  }

  ghost function AcceptDue(inputs: Inputs): iset<Step> {
    iset t: Step | t.Accept? && inputs.accepted == Some(t.result)
  }

  ghost function AllDue(w: World, inputs: Inputs): iset<Step>
    requires Shaped(w)
  {
    iset t | Due(w, inputs, t)
  }

  lemma NothingWaits(cfg: Config, w: World, inputs: Inputs, oses: Oses)
    requires Shaped(w)
    ensures !Defined(w) ==> WaitSteps(cfg, w, 0, inputs, oses) == []
    ensures Run(cfg, w, [], oses) == w
  {}

  lemma DueParts(w: World, inputs: Inputs)
    requires Shaped(w)
    ensures var w1 := Listened(w, inputs);
            AllDue(w, inputs) == AcceptDue(inputs) + SlotsDue(w1, 0, inputs) + EntriesDue(w1, 0, inputs)
  {
    SlotRanks(w, inputs);
    SlotRanks(Listened(w, inputs), inputs);
    EntryRanks(Listened(w, inputs), inputs);
  }

  lemma DueRanks(w: World, inputs: Inputs)
    requires Shaped(w)
    ensures forall x, y | x in AcceptDue(inputs) && y in SlotsDue(w, 0, inputs) :: Rank(x) < Rank(y)
    ensures forall x, y | x in AcceptDue(inputs) + SlotsDue(w, 0, inputs) && y in EntriesDue(w, 0, inputs) ::
              Rank(x) < Rank(y)
  {
    SlotRanks(w, inputs);
    EntryRanks(w, inputs);
  }

  /** A round takes the steps that are due, in the order listener, slots, waiting
      connections, each of them once, and no others. If one of them leaves defined
      behaviour, the steps behind it are the only ones that are not taken. */
  lemma RoundExactly(cfg: Config, w: World, inputs: Inputs, oses: Oses)
    requires Shaped(w) && Defined(w)
    ensures var steps := RoundSteps(cfg, w, inputs, oses); var defined := Defined(Run(cfg, w, steps, oses));
            && Ranked(steps)
            && (forall t | t in steps :: Due(w, inputs, t))
            && (forall t | Due(w, inputs, t) && t !in steps :: !defined && forall x | x in steps :: Rank(x) < Rank(t))
  {
    hide Next, Run, Defined, SlotSteps, WaitSteps, AcceptSteps, SlotsDue, EntriesDue, AcceptDue, TakenAsDue, Due,
      Listened;
    var first, w1 := AcceptSteps(inputs), Listened(w, inputs);
    ListenerFirst(cfg, w, inputs, oses);
    var slots := SlotSteps(cfg, w1, 0, inputs, oses);
    var w2 := Run(cfg, w1, slots, oses);
    var waits := WaitSteps(cfg, w2, 0, inputs, oses);
    RunAppend(cfg, w, first, slots, oses);
    RunAppend(cfg, w, first + slots, waits, oses);
    SlotStepsAreDue(cfg, w1, 0, inputs, oses);
    WaitStepsAreDue(cfg, w2, 0, inputs, oses);
    NothingWaits(cfg, w2, inputs, oses);
    DueParts(w, inputs);
    DueRanks(w1, inputs);
    SameEntriesDue(w1, w2, inputs);
    var defined := Defined(Run(cfg, w2, waits, oses));
    TakeBoth(first, slots, AcceptDue(inputs), SlotsDue(w1, 0, inputs), true, Defined(w2));
    TakeBoth(first + slots, waits, AcceptDue(inputs) + SlotsDue(w1, 0, inputs), EntriesDue(w1, 0, inputs),
             Defined(w2), defined);
    Unfolded(first + slots + waits, AllDue(w, inputs), defined);
  }

  lemma SameEntriesDue(w: World, w': World, inputs: Inputs)
    requires Shaped(w) && Shaped(w') && w'.waiting == w.waiting
    ensures EntriesDue(w, 0, inputs) == EntriesDue(w', 0, inputs)
  {}

  lemma Unfolded(steps: seq<Step>, due: iset<Step>, defined: bool)
    requires TakenAsDue(steps, due, defined)
    ensures Ranked(steps) && forall t | t in steps :: t in due
    ensures forall t | t in due && t !in steps :: !defined && forall x | x in steps :: Rank(x) < Rank(t)
  {}

  /** In a round that stays defined: the listener's step comes first if there is one;
      every slot that is connected and has an input is served exactly once, and so is
      every waiting connection; every other entry is not. */
  lemma ServedOnce(cfg: Config, w: World, inputs: Inputs, oses: Oses, rank: int)
    requires Shaped(w) && Defined(w) && Defined(Run(cfg, w, RoundSteps(cfg, w, inputs, oses), oses))
    requires -1 <= rank < MAX_CLIENTS + MAX_WAITING_CLIENTS
    ensures var steps := RoundSteps(cfg, w, inputs, oses); var i := rank - MAX_CLIENTS;
            var active := if rank == -1 then inputs.accepted.Some?
                          else if i < 0 then w.ports[rank].slot.fd >= 0 && inputs.slots(rank).Some?
                          else Listened(w, inputs).waiting[i].fd >= 0 && inputs.waiting(i).Some?;
            && (active <==> exists p :: 0 <= p < |steps| && Rank(steps[p]) == rank)
            && (forall p, q | 0 <= p < |steps| && 0 <= q < |steps| && Rank(steps[p]) == Rank(steps[q]) :: p == q)
            && (rank == -1 && active ==> steps[0] == Accept(inputs.accepted.value))
  {
    hide Next, Run, Defined, RoundSteps, Reads, ReadsNothing;
    RoundExactly(cfg, w, inputs, oses);
    var steps := RoundSteps(cfg, w, inputs, oses);
    var w1 := Listened(w, inputs);
    var i := rank - MAX_CLIENTS;
    if rank == -1 {
      if inputs.accepted.Some? {
        assert Accept(inputs.accepted.value) in steps;
        assert Due(w, inputs, steps[0]);
      }
    } else if i < 0 {
      if w.ports[rank].slot.fd >= 0 && inputs.slots(rank).Some? {
        var step := SlotTurn(w, rank, inputs.slots(rank).value);
        SlotTurnIsDue(w, rank, inputs, step);
        assert step in steps;
      }
    } else if w1.waiting[i].fd >= 0 && inputs.waiting(i).Some? {
      var step := WaitTurn(w1, i, inputs.waiting(i).value, inputs.sendable(i));
      WaitTurnIsDue(w1, i, inputs, step);
      assert step in steps;
    }
  }

  lemma TakesEntry(cfg: Config, w: World, fd: int, i: nat, oses: Oses)
    requires Shaped(w) && fd > 0
    requires i < MAX_WAITING_CLIENTS && w.waiting[i].fd < 0 && forall j | 0 <= j < i :: w.waiting[j].fd >= 0
    ensures Next(cfg, w, Accept(fd), oses)
         == w.(waiting := w.waiting[i := Waiting(fd, w.waiting[i].pending)],
               kernel := w.kernel.(sockets := w.kernel.sockets + {fd}))
  {
    assert FreeEntry(w.waiting, 0) == i;
  }

  /** A round in which only the listener is ready: the lowest free entry holds the new
      socket, which is open, and nothing else changes. */
  lemma ListenerOnly(cfg: Config, w: World, inputs: Inputs, oses: Oses, i: nat)
    requires Shaped(w) && Defined(w) && inputs.accepted.Some? && inputs.accepted.value > 0
    requires forall u: nat :: inputs.slots(u).None? && inputs.waiting(u).None?
    requires i < MAX_WAITING_CLIENTS && w.waiting[i].fd < 0 && forall j | 0 <= j < i :: w.waiting[j].fd >= 0
    ensures var fd := inputs.accepted.value; var w' := Run(cfg, w, RoundSteps(cfg, w, inputs, oses), oses);
            && w'.waiting == w.waiting[i := Waiting(fd, w.waiting[i].pending)]
            && w'.kernel == w.kernel.(sockets := w.kernel.sockets + {fd})
            && w'.ports == w.ports && w'.history == w.history
  {
    hide Next, Run, Defined, RoundSteps, Reads, ReadsNothing;
    RoundExactly(cfg, w, inputs, oses);
    var steps, step := RoundSteps(cfg, w, inputs, oses), Accept(inputs.accepted.value);
    assert forall t | t in steps :: t == step;
    assert Due(w, inputs, step);
    OneStep(steps, step);
    RunFirst(cfg, w, step, [], oses);
    RunOne(cfg, w, step, oses);
    TakesEntry(cfg, w, inputs.accepted.value, i, oses);
  }

  lemma FirstTwo(steps: seq<Step>)
    requires Ranked(steps) && |steps| > 1
    ensures Rank(steps[0]) < Rank(steps[1])
  {}

  lemma OneStep(steps: seq<Step>, step: Step)
    requires Ranked(steps) && forall t | t in steps :: t == step
    ensures steps == [] || steps == [step]
  {
    assert forall p | 0 <= p < |steps| :: steps[p] in steps;
    if |steps| > 1 {
      FirstTwo(steps);
      assert false;
    }
  }
}
