/** The server's two tables and its main loop as a transition system: waiting
    connections, client slots, and the steps the loop interleaves
    (client_connection, client_hello, client_close and main of server/input-server.c). */
module World {
  import opened Protocol
  import opened Slots
  import opened Kernel

  const MAX_CLIENTS: nat := 8
  const MAX_WAITING_CLIENTS: nat := 8

  /** A connection that has not sent its HELLO yet. The unused bytes of an entry
      survive a dropped connection: only a refused or an accepted HELLO clears them. */
  datatype Waiting = Waiting(fd: int, pending: Bytes)

  /** `history[u]` is what serving slot u has done since its last HELLO. */
  datatype World = World(ports: seq<Port>, waiting: seq<Waiting>, kernel: Kernel, history: seq<seq<Effect>>)

  /** The answers each slot gets from the operating system. */
  type Oses = nat -> Os

  datatype Step =
    | Accept(result: int)                        // a connection is pending; accept returned `result`
    | SlotBytes(u: nat, chunk: Bytes)            // recv on slot u returned `chunk`
    | SlotDrop(u: nat)                           // recv on slot u failed or returned 0
    | WaitBytes(i: nat, chunk: Bytes, sent: bool) // recv on entry i returned `chunk`; `sent`: could the reply be sent
    | WaitDrop(i: nat)
    | Shutdown

  predicate Shaped(w: World) {
    |w.ports| == |w.history| == MAX_CLIENTS && |w.waiting| == MAX_WAITING_CLIENTS
  }

  function Start(): World {
    World(seq(MAX_CLIENTS, _ => Port(FreeSlot(), [])), seq(MAX_WAITING_CLIENTS, _ => Waiting(-1, [])),
          Kernel({}, map[]), seq(MAX_CLIENTS, _ => []))
  }

  // ---------- serving connected slots ----------

  function Put(w: World, u: nat, p: Port, effects: seq<Effect>): (r: World)
    requires Shaped(w) && u < MAX_CLIENTS
    ensures Shaped(r)
  {
    World(w.ports[u := p], w.waiting, Absorb(w.kernel, effects), w.history[u := w.history[u] + effects])
  }

  function ServeBytes(cfg: Config, w: World, u: nat, chunk: Bytes, os: Os): (r: World)
    requires Shaped(w) && u < MAX_CLIENTS
    ensures Shaped(r)
  {
    var r := Feed(cfg.loop, cfg, u, w.ports[u], chunk, os);
    Put(w, u, r.port, r.effects)
  }

  function CloseSlot(w: World, u: nat, cleanup: bool, os: Os): (r: World)
    requires Shaped(w) && u < MAX_CLIENTS
    ensures Shaped(r)
  {
    var o := Close(w.ports[u].slot, cleanup, os);
    Put(w, u, Port(o.slot, []), o.effects)
  }

  /** The end of main: the first n slots are closed, their devices destroyed. */
  function CloseFirst(w: World, n: nat, oses: Oses): (r: World)
    requires Shaped(w) && n <= MAX_CLIENTS
    ensures Shaped(r)
  {
    if n == 0 then w else CloseSlot(CloseFirst(w, n - 1, oses), n - 1, true, oses(n - 1))
  }

  // ---------- accepting connections ----------

  /** The first free waiting entry from i on. */
  function FreeEntry(waiting: seq<Waiting>, i: nat): (r: nat)
    requires i <= |waiting|
    ensures i <= r <= |waiting|
    ensures r < |waiting| ==> waiting[r].fd < 0
    ensures forall j | i <= j < r :: waiting[j].fd >= 0
    decreases |waiting| - i
  {
    if i == |waiting| || waiting[i].fd < 0 then i else FreeEntry(waiting, i + 1)
  }

  /** client_connection: without a free entry the connection is turned away at once. */
  function AcceptStep(w: World, result: int): (r: World)
    requires Shaped(w)
    ensures Shaped(r)
  {
    var i := FreeEntry(w.waiting, 0);
    if i == MAX_WAITING_CLIENTS then w
    else if result < 0 then w.(waiting := w.waiting[i := w.waiting[i].(fd := -1)])
    else w.(waiting := w.waiting[i := w.waiting[i].(fd := result)],
            kernel := w.kernel.(sockets := w.kernel.sockets + {result}))
  }

  // ---------- HELLO ----------

  /** The first slot from u on that has neither a connection nor a device. */
  function FirstIdle(ports: seq<Port>, u: nat): (r: nat)
    requires u <= |ports|
    ensures u <= r <= |ports|
    ensures r < |ports| ==> ports[r].slot.fd < 0 && ports[r].slot.evFd < 0
    ensures forall v | u <= v < r :: ports[v].slot.fd >= 0 || ports[v].slot.evFd >= 0
    decreases |ports| - u
  {
    if u == |ports| || (ports[u].slot.fd < 0 && ports[u].slot.evFd < 0) then u else FirstIdle(ports, u + 1)
  }

  /** The first slot from u on without a connection. */
  function FirstDisconnected(ports: seq<Port>, u: nat): (r: nat)
    requires u <= |ports|
    ensures u <= r <= |ports|
    ensures r < |ports| ==> ports[r].slot.fd < 0
    ensures forall v | u <= v < r :: ports[v].slot.fd >= 0
    decreases |ports| - u
  {
    if u == |ports| || ports[u].slot.fd < 0 then u else FirstDisconnected(ports, u + 1)
  }

  datatype Choice = Take(u: nat) | Evict(u: nat) | Refuse(reply: Byte)

  /** Which slot a HELLO gets; `wanted` is its slot byte, 0 meaning any. */
  function Choose(ports: seq<Port>, wanted: Byte): Choice
    requires |ports| == MAX_CLIENTS
  {
    if wanted > 0 then
      if wanted > MAX_CLIENTS then Refuse(INVALID_CLIENT_SLOT)
      else if ports[wanted - 1].slot.fd > 0 then Refuse(CLIENT_SLOT_IN_USE)
      else Take(wanted - 1)
    else if FirstIdle(ports, 0) < MAX_CLIENTS then Take(FirstIdle(ports, 0))
    else if FirstDisconnected(ports, 0) < MAX_CLIENTS then Evict(FirstDisconnected(ports, 0))
    else Refuse(CLIENT_SLOTS_EXHAUSTED)
  }

  /** A HELLO's outcome and the one byte that answers it. */
  datatype Greeting = Greeting(world: World, reply: Byte)

  /** Closes a waiting connection and clears its entry. */
  function TurnAway(w: World, i: nat): (r: World)
    requires Shaped(w) && i < MAX_WAITING_CLIENTS
    ensures Shaped(r)
  {
    w.(waiting := w.waiting[i := Waiting(-1, [])],
       kernel := w.kernel.(sockets := w.kernel.sockets - {w.waiting[i].fd}))
  }

  /** What a promoted client is told: whether it has to authenticate, set up a
      device, or may go on with the device the slot holds. */
  function FirstStatus(cfg: Config, s: Slot): Byte {
    if cfg.password != [] then PASSWORD_REQUIRED
    else if s.evFd == -1 then SETUP_REQUIRED
    else SUCCESS
  }

  /** Moves the socket of entry i to slot u. */
  function Promote(cfg: Config, w: World, i: nat, u: nat, sent: bool): (g: Greeting)
    requires Shaped(w) && i < MAX_WAITING_CLIENTS && u < MAX_CLIENTS
    ensures Shaped(g.world)
  {
    var status := FirstStatus(cfg, w.ports[u].slot);
    if !sent then Greeting(TurnAway(w, i), status)
    else
      var slot := w.ports[u].slot.(fd := w.waiting[i].fd, status := status);
      Greeting(World(w.ports[u := Port(slot, [])], w.waiting[i := Waiting(-1, [])], w.kernel,
                     w.history[u := [Sent([status], true)]]), status)
  }

  /** client_hello on a whole HELLO message `msg`. */
  function Hello(cfg: Config, w: World, i: nat, msg: Bytes, sent: bool, oses: Oses): (g: Greeting)
    requires Shaped(w) && i < MAX_WAITING_CLIENTS && |msg| >= HELLO_SIZE
    ensures Shaped(g.world)
  {
    if msg[0] != HELLO then Greeting(TurnAway(w, i), INVALID)
    else if msg[1] != PROTOCOL_VERSION then Greeting(TurnAway(w, i), VERSION_MISMATCH)
    else match Choose(w.ports, msg[2])
      case Refuse(reply) => Greeting(TurnAway(w, i), reply)
      case Take(u) => Promote(cfg, w, i, u, sent)
      case Evict(u) =>
        var o := Cleanup(w.ports[u].slot, oses(u));
        Promote(cfg, Put(w, u, Port(o.slot, []), o.effects), i, u, sent)
  }

  function WaitStep(cfg: Config, w: World, i: nat, chunk: Bytes, sent: bool, oses: Oses): (r: World)
    requires Shaped(w) && i < MAX_WAITING_CLIENTS
    ensures Shaped(r)
  {
    var buf := w.waiting[i].pending + chunk;
    if |buf| < HELLO_SIZE then w.(waiting := w.waiting[i := w.waiting[i].(pending := buf)])
    else Hello(cfg, w, i, buf, sent, oses).world
  }

  function DropWaiting(w: World, i: nat): (r: World)
    requires Shaped(w) && i < MAX_WAITING_CLIENTS
    ensures Shaped(r)
  {
    w.(waiting := w.waiting[i := w.waiting[i].(fd := -1)],
       kernel := w.kernel.(sockets := w.kernel.sockets - {w.waiting[i].fd}))
  }

  // ---------- the transition system ----------

  function Next(cfg: Config, w: World, step: Step, oses: Oses): (r: World)
    requires Shaped(w)
    ensures Shaped(r)
  {
    match step
    case Accept(result) => AcceptStep(w, result)
    case SlotBytes(u, chunk) => if u < MAX_CLIENTS then ServeBytes(cfg, w, u, chunk, oses(u)) else w
    case SlotDrop(u) => if u < MAX_CLIENTS then CloseSlot(w, u, false, oses(u)) else w
    case WaitBytes(i, chunk, sent) => if i < MAX_WAITING_CLIENTS then WaitStep(cfg, w, i, chunk, sent, oses) else w
    case WaitDrop(i) => if i < MAX_WAITING_CLIENTS then DropWaiting(w, i) else w
    case Shutdown => CloseFirst(w, |w.ports|, oses)
  }

  /** The server's side of a step: only connected entries are served, recv is
      offered the room that is left and returns at least one byte of it, and the
      step does not run into undefined behaviour: it creates no device whose name was
      never sent or has no end and, with the loop as written, is not cut behind the
      type byte of a variable-length message. */
  predicate Proper(cfg: Config, w: World, step: Step, oses: Oses)
    requires Shaped(w)
  {
    match step
    case Accept(_) => true
    case SlotBytes(u, chunk) =>
      && u < MAX_CLIENTS
      && w.ports[u].slot.fd >= 0
      && 1 <= |chunk| <= INPUT_BUFFER_SIZE - |w.ports[u].pending|
      && !Feed(cfg.loop, cfg, u, w.ports[u], chunk, oses(u)).port.slot.wrecked
    case SlotDrop(u) => u < MAX_CLIENTS && w.ports[u].slot.fd >= 0
    case WaitBytes(i, chunk, _) =>
      && i < MAX_WAITING_CLIENTS
      && w.waiting[i].fd >= 0
      && 1 <= |chunk| <= INPUT_BUFFER_SIZE - |w.waiting[i].pending|
    case WaitDrop(i) => i < MAX_WAITING_CLIENTS && w.waiting[i].fd >= 0
    case Shutdown => true
  }

  /** The operating system's side: a new descriptor is not in use, nor the standard input. */
  predicate Promised(cfg: Config, w: World, step: Step, oses: Oses)
    requires Shaped(w)
  {
    match step
    case Accept(result) => result != 0 && result !in w.kernel.sockets
    case SlotBytes(u, chunk) =>
      u < MAX_CLIENTS ==> Feasible(w.kernel, Feed(cfg.loop, cfg, u, w.ports[u], chunk, oses(u)).effects)
    case _ => true
  }

  predicate Legal(cfg: Config, w: World, step: Step, oses: Oses)
    requires Shaped(w)
  {
    Proper(cfg, w, step, oses) && Promised(cfg, w, step, oses)
  }

  function Run(cfg: Config, w: World, steps: seq<Step>, oses: Oses): (r: World)
    requires Shaped(w)
    ensures Shaped(r)
    decreases |steps|
  {
    if steps == [] then w else Run(cfg, Next(cfg, w, steps[0], oses), steps[1..], oses)
  }

  predicate LegalRun(cfg: Config, w: World, steps: seq<Step>, oses: Oses)
    requires Shaped(w)
    decreases |steps|
  {
    steps != [] ==>
      Legal(cfg, w, steps[0], oses) && LegalRun(cfg, Next(cfg, w, steps[0], oses), steps[1..], oses)
  }

  predicate ProperRun(cfg: Config, w: World, steps: seq<Step>, oses: Oses)
    requires Shaped(w)
    decreases |steps|
  {
    steps != [] ==>
      Proper(cfg, w, steps[0], oses) && ProperRun(cfg, Next(cfg, w, steps[0], oses), steps[1..], oses)
  }

  predicate PromisedRun(cfg: Config, w: World, steps: seq<Step>, oses: Oses)
    requires Shaped(w)
    decreases |steps|
  {
    steps != [] ==>
      Promised(cfg, w, steps[0], oses) && PromisedRun(cfg, Next(cfg, w, steps[0], oses), steps[1..], oses)
  }

  lemma {:induction false} BothSides(cfg: Config, w: World, steps: seq<Step>, oses: Oses)
    requires Shaped(w)
    ensures LegalRun(cfg, w, steps, oses) <==> ProperRun(cfg, w, steps, oses) && PromisedRun(cfg, w, steps, oses)
    decreases |steps|
  {
    hide Next, Proper, Promised;
    if steps != [] {
      BothSides(cfg, Next(cfg, w, steps[0], oses), steps[1..], oses);
    }
  }

  lemma {:induction false} RunAppend(cfg: Config, w: World, a: seq<Step>, b: seq<Step>, oses: Oses)
    requires Shaped(w)
    ensures Run(cfg, w, a + b, oses) == Run(cfg, Run(cfg, w, a, oses), b, oses)
    ensures ProperRun(cfg, w, a + b, oses) <==>
              ProperRun(cfg, w, a, oses) && ProperRun(cfg, Run(cfg, w, a, oses), b, oses)
    ensures LegalRun(cfg, w, a + b, oses) <==>
              LegalRun(cfg, w, a, oses) && LegalRun(cfg, Run(cfg, w, a, oses), b, oses)
    decreases |a|
  {
    hide Next, Proper, Legal;
    if a == [] {
      assert a + b == b;
    } else {
      assert (a + b)[1..] == a[1..] + b;
      RunAppend(cfg, Next(cfg, w, a[0], oses), a[1..], b, oses);
    }
  }

  lemma RunFirst(cfg: Config, w: World, step: Step, more: seq<Step>, oses: Oses)
    requires Shaped(w)
    ensures Run(cfg, w, [step] + more, oses) == Run(cfg, Next(cfg, w, step, oses), more, oses)
    ensures ProperRun(cfg, w, [step] + more, oses) <==>
              Proper(cfg, w, step, oses) && ProperRun(cfg, Next(cfg, w, step, oses), more, oses)
    ensures LegalRun(cfg, w, [step] + more, oses) <==>
              Legal(cfg, w, step, oses) && LegalRun(cfg, Next(cfg, w, step, oses), more, oses)
    ensures Run(cfg, w, [], oses) == w && ProperRun(cfg, w, [], oses) && LegalRun(cfg, w, [], oses)
  {
    hide Next, Proper, Legal;
    assert ([step] + more)[1..] == more;
  }

  lemma RunOne(cfg: Config, w: World, step: Step, oses: Oses)
    requires Shaped(w)
    ensures Run(cfg, w, [step], oses) == Next(cfg, w, step, oses)
    ensures LegalRun(cfg, w, [step], oses) <==> Legal(cfg, w, step, oses)
  {
    hide Next, Legal;
    RunFirst(cfg, w, step, [], oses);
    assert [step] + [] == [step];
    RunFirst(cfg, Next(cfg, w, step, oses), step, [], oses);
  }

  // ---------- the invariant ----------

  /** The descriptor of the e-th table entry: first the slots, then the waiting entries. */
  function Fd(w: World, e: nat): int
    requires Shaped(w) && e < MAX_CLIENTS + MAX_WAITING_CLIENTS
  {
    if e < MAX_CLIENTS then w.ports[e].slot.fd else w.waiting[e - MAX_CLIENTS].fd
  }

  /** No socket is held by two entries. */
  predicate Exclusive(w: World)
    requires Shaped(w)
  {
    forall e, f | 0 <= e < f < MAX_CLIENTS + MAX_WAITING_CLIENTS :: Fd(w, e) >= 0 ==> Fd(w, e) != Fd(w, f)
  }

  /** The open sockets are exactly the ones held. */
  predicate Accounted(w: World)
    requires Shaped(w)
  {
    && (forall e | 0 <= e < MAX_CLIENTS + MAX_WAITING_CLIENTS :: Fd(w, e) >= -1 && Fd(w, e) != 0)
    && (forall e | 0 <= e < MAX_CLIENTS + MAX_WAITING_CLIENTS :: Fd(w, e) >= 0 ==> Fd(w, e) in w.kernel.sockets)
    && (forall fd | fd in w.kernel.sockets ::
          fd > 0 && exists e | 0 <= e < MAX_CLIENTS + MAX_WAITING_CLIENTS :: Fd(w, e) == fd)
  }

  /** No device is held by two slots. */
  predicate DevicesExclusive(w: World)
    requires Shaped(w)
  {
    forall u, v | 0 <= u < v < MAX_CLIENTS :: w.ports[u].slot.evFd >= 0 ==> w.ports[u].slot.evFd != w.ports[v].slot.evFd
  }

  predicate SlotsOk(cfg: Config, w: World)
    requires Shaped(w)
  {
    && (forall u | 0 <= u < MAX_CLIENTS :: SlotOk(cfg, w.ports[u].slot, w.kernel, w.history[u]))
    && DevicesOk(cfg, w.kernel)
  }

  /** Room for at least 760 more bytes, unless the head is no message type. */
  predicate BuffersOk(w: World)
    requires Shaped(w)
  {
    && (forall u | 0 <= u < MAX_CLIENTS ::
          && |w.ports[u].pending| <= INPUT_BUFFER_SIZE
          && (|w.ports[u].pending| < MAX_FRAME || Stuck(w.ports[u].pending)))
    && (forall i | 0 <= i < MAX_WAITING_CLIENTS :: |w.waiting[i].pending| < HELLO_SIZE)
  }

  predicate Inv(cfg: Config, w: World) {
    Shaped(w) && Exclusive(w) && Accounted(w) && DevicesExclusive(w) && SlotsOk(cfg, w) && BuffersOk(w)
  }
}
