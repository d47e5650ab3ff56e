/** The server process: the two tables of client records and the functions of its
    main loop that work on them, refining the transition system of module World. */
module InputServers {
  import opened Wrappers
  import opened Protocol
  import opened Slots
  import opened Kernel
  import opened World
  import opened Rounds
  import opened GamepadClients

  class InputServer {
    const cfg: Config
    // clients[] and waiting_clients[]
    const clients: seq<GamepadClient>
    const waiting: seq<GamepadClient>
    // the state of the transition system this process is in
    ghost var world: World

    /** All records are different objects with different buffers. */
    ghost predicate Separate() {
      && |clients| == MAX_CLIENTS && |waiting| == MAX_WAITING_CLIENTS
      && (forall u, v | 0 <= u < v < |clients| :: clients[u] != clients[v] && clients[u].buffer != clients[v].buffer)
      && (forall i, j | 0 <= i < j < |waiting| :: waiting[i] != waiting[j] && waiting[i].buffer != waiting[j].buffer)
      && (forall u, i | 0 <= u < |clients| && 0 <= i < |waiting| ::
            clients[u] != waiting[i] && clients[u].buffer != waiting[i].buffer)
    }

    ghost function Buffers(): set<object> {
      (set c | c in clients :: c.buffer) + (set c | c in waiting :: c.buffer)
    }

    /** Record u holds port p and history h. */
    ghost predicate Holds(c: GamepadClient, p: Port, h: seq<Effect>)
      reads c, c.buffer
    {
      c.Valid() && c.View() == p && c.log == h
    }

    ghost predicate Waits(c: GamepadClient, e: Waiting)
      reads c, c.buffer
    {
      c.Valid() && c.scanOffset == 0 && Waiting(c.fd, c.Pending()) == e
    }

    ghost predicate Valid()
      reads this, clients, waiting, Buffers()
    {
      && Separate() && Shaped(world) && cfg.loop == AsWritten
      && (forall u | 0 <= u < |clients| :: Holds(clients[u], world.ports[u], world.history[u]))
      && (forall i | 0 <= i < |waiting| :: Waits(waiting[i], world.waiting[i]))
    }

    constructor (cfg: Config)
      ensures Valid() && world == Start() && this.cfg == cfg.(loop := AsWritten)
      ensures fresh(clients) && fresh(waiting) && fresh(Buffers())
    {
      var cs := NewRecords(MAX_CLIENTS);
      var ws := NewRecords(MAX_WAITING_CLIENTS);
      this.cfg := cfg.(loop := AsWritten);
      clients, waiting := cs, ws;
      world := Start();
    }

    static method NewRecords(n: nat) returns (cs: seq<GamepadClient>)
      ensures |cs| == n && fresh(cs) && fresh(set c | c in cs :: c.buffer)
      ensures forall u | 0 <= u < n :: Blank(cs[u])
      ensures forall u, v | 0 <= u < v < n :: cs[u] != cs[v] && cs[u].buffer != cs[v].buffer
    {
      cs := [];
      while |cs| < n
        invariant |cs| <= n && fresh(cs) && fresh(set c | c in cs :: c.buffer)
        invariant forall u | 0 <= u < |cs| :: Blank(cs[u])
        invariant forall u, v | 0 <= u < v < |cs| :: cs[u] != cs[v] && cs[u].buffer != cs[v].buffer
      {
        var c := new GamepadClient();
        cs := cs + [c];
      }
    }

    /** A record as init_client leaves it. */
    static ghost predicate Blank(c: GamepadClient)
      reads c, c.buffer
    {
      c.Valid() && c.State() == FreeSlot() && c.Pending() == [] && c.scanOffset == 0 && c.log == []
    }

    // ---------- client slots ----------

    /** The main loop's turn for a slot that woke up: recv_data, then client_data,
        or client_close when recv returned an error or the end of the stream, for
        which the empty chunk stands. */
    method SlotReady(u: nat, chunk: Bytes, os: Os)
      requires Valid() && u < |clients| && Live(clients[u].State())
      requires |chunk| <= INPUT_BUFFER_SIZE - clients[u].available
      modifies this`world, clients[u], clients[u].buffer
      ensures Valid()
      ensures chunk == [] ==> world == CloseSlot(old(world), u, false, os)
      ensures chunk != [] ==> world == ServeBytes(cfg, old(world), u, chunk, os)
    {
      hide Holds, Waits, Feed, Close, CloseSlot, ServeBytes;
      var c := clients[u];
      ghost var p, h := world.ports[u], world.history[u];
      assert Holds(c, p, h);
      HeldRecord(c, p, h);
      LiveView(c, p);
      ghost var next := if chunk == [] then CloseSlot(world, u, false, os) else ServeBytes(cfg, world, u, chunk, os);
      OnlySlot(cfg, world, u, chunk, os);
      Serve(c, u, chunk, os);
      HeldRecord(c, next.ports[u], next.history[u]);
      world := next;
    }

    lemma LiveView(c: GamepadClient, p: Port)
      requires c.Valid() && c.View() == p
      ensures c.State() == p.slot
    {}

    method Serve(c: GamepadClient, u: nat, chunk: Bytes, os: Os)
      requires c.Valid() && u < 0xFF && Live(c.State()) && cfg.loop == AsWritten
      requires |chunk| <= INPUT_BUFFER_SIZE - c.available
      modifies c, c.buffer
      ensures c.Valid()
      ensures chunk == [] ==> var o := Close(old(c.State()), false, os);
                c.View() == Port(o.slot, []) && c.log == old(c.log) + o.effects
      ensures chunk != [] ==> var r := Feed(cfg.loop, cfg, u, old(c.View()), chunk, os);
                c.View() == r.port && c.log == old(c.log) + r.effects
    {
      var ok := c.RecvData(chunk);
      if !ok {
        c.ClientClose(false, os);
        return;
      }
      c.ClientData(cfg, u, os);
    }

    // ---------- waiting connections ----------

    /** client_connection. */
    method ClientConnection(result: int)
      requires Valid()
      modifies this`world, waiting
      ensures Valid() && world == AcceptStep(old(world), result)
    {
      assert forall j | 0 <= j < |waiting| :: Waits(waiting[j], world.waiting[j]);
      var i := 0;
      while i < |waiting| && waiting[i].fd >= 0
        invariant 0 <= i <= |waiting|
        invariant forall j | 0 <= j < i :: waiting[j].fd >= 0
      {
        i := i + 1;
      }
      FreeEntryIs(world.waiting, i);
      if i == |waiting| {
        // accepted, told so, and closed again
        return;
      }
      Occupy(i, result);
    }

    method Occupy(i: nat, result: int)
      requires Valid() && i < |waiting| && i == FreeEntry(world.waiting, 0)
      modifies this`world, waiting[i]
      ensures Valid() && world == AcceptStep(old(world), result)
    {
      assert Waits(waiting[i], world.waiting[i]);
      waiting[i].fd := if result < 0 then -1 else result;
      world := AcceptStep(world, result);
      assert Waits(waiting[i], world.waiting[i]);
    }

    /** close() on a waiting entry, which keeps its bytes. */
    method HangUp(i: nat)
      requires Valid() && i < |waiting|
      modifies this`world, waiting[i]
      ensures Valid() && world == DropWaiting(old(world), i)
    {
      assert Waits(waiting[i], world.waiting[i]);
      waiting[i].fd := -1;
      world := DropWaiting(world, i);
      assert Waits(waiting[i], world.waiting[i]);
    }

    // ---------- HELLO ----------

    /** The two scans of client_hello for a client that named no slot, and its check
        of a slot that was named. */
    method ChooseSlot(wanted: Byte) returns (c: Choice)
      requires Valid()
      ensures c == Choose(world.ports, wanted)
    {
      assert forall u | 0 <= u < |clients| :: Holds(clients[u], world.ports[u], world.history[u]);
      if wanted > 0 {
        if wanted > MAX_CLIENTS {
          return Refuse(INVALID_CLIENT_SLOT);
        } else if clients[wanted - 1].fd > 0 {
          return Refuse(CLIENT_SLOT_IN_USE);
        }
        return Take(wanted - 1);
      }

      // a free slot without a device
      for u := 0 to |clients|
        invariant forall v | 0 <= v < u :: !(clients[v].fd < 0 && clients[v].evFd < 0)
      {
        if clients[u].fd < 0 && clients[u].evFd < 0 {
          FirstIdleIs(world.ports, u);
          return Take(u);
        }
      }
      FirstIdleIs(world.ports, |clients|);

      // a free slot whose device has to go
      for u := 0 to |clients|
        invariant forall v | 0 <= v < u :: clients[v].fd >= 0
      {
        if clients[u].fd < 0 {
          FirstDisconnectedIs(world.ports, u);
          return Evict(u);
        }
      }
      FirstDisconnectedIs(world.ports, |clients|);
      return Refuse(CLIENT_SLOTS_EXHAUSTED);
    }

    /** Destroys the device of a slot. */
    method EvictDevice(u: nat, os: Os)
      requires Valid() && u < |clients| && clients[u].fd < 0
      modifies this`world, clients[u]
      ensures Valid() && clients[u].fd < 0
      ensures world == var o := Cleanup(old(world.ports[u].slot), os); Put(old(world), u, Port(o.slot, []), o.effects)
    {
      assert Holds(clients[u], world.ports[u], world.history[u]);
      ghost var o := Cleanup(world.ports[u].slot, os);
      clients[u].CleanupDevice(os);
      world := Put(world, u, Port(o.slot, []), o.effects);
      assert Holds(clients[u], world.ports[u], world.history[u]);
    }

    /** What the client of a slot is told first. */
    method FirstReply(c: GamepadClient) returns (reply: Byte)
      ensures reply == FirstStatus(cfg, c.State())
    {
      if |cfg.password| > 0 {
        reply := PASSWORD_REQUIRED;
      } else if c.evFd == -1 {
        reply := SETUP_REQUIRED;
      } else {
        reply := SUCCESS;
      }
    }

    /** Moves the connection of entry i to slot u and tells the client how to go on. */
    method MoveToSlot(i: nat, u: nat, sent: bool) returns (ok: bool, reply: Byte)
      requires Valid() && i < |waiting| && u < |clients|
      modifies this`world, clients[u], clients[u].buffer, waiting[i]
      ensures ok == sent && reply == FirstStatus(cfg, old(world.ports[u].slot))
      ensures Valid()
      ensures sent ==> world == Promote(cfg, old(world), i, u, sent).world
      ensures !sent ==> world == DropWaiting(old(world), i)
    {
      hide Holds, Waits, FirstStatus;
      HeldRecord(clients[u], world.ports[u], world.history[u]);
      LiveView(clients[u], world.ports[u]);
      reply := FirstReply(clients[u]);
      if !sent {
        HangUp(i);
        return false, reply;
      }
      Transfer(i, u, reply);
      return true, reply;
    }

    method Transfer(i: nat, u: nat, reply: Byte)
      requires Valid() && i < |waiting| && u < |clients| && reply == FirstStatus(cfg, world.ports[u].slot)
      modifies this`world, clients[u], clients[u].buffer, waiting[i]
      ensures Valid() && waiting[i].scanOffset == 0
      ensures world == Promote(cfg, old(world), i, u, true).world
    {
      hide Holds, Waits, FirstStatus;
      var c, e := clients[u], waiting[i];
      assert Holds(c, world.ports[u], world.history[u]) && Waits(e, world.waiting[i]);
      HeldRecord(c, world.ports[u], world.history[u]);
      WaitingRecord(e, world.waiting[i]);
      ghost var slot := world.ports[u].slot.(fd := e.fd, status := reply);
      c.Adopt(e.fd, reply);
      e.Release();
      world := Promote(cfg, world, i, u, true).world;
      HeldRecord(c, Port(slot, []), [Sent([reply], true)]);
      WaitingRecord(e, Waiting(-1, []));
    }

    lemma HeldRecord(c: GamepadClient, p: Port, h: seq<Effect>)
      ensures Holds(c, p, h) <==> c.Valid() && c.View() == p && c.log == h
    {}

    lemma WaitingRecord(c: GamepadClient, e: Waiting)
      ensures Waits(c, e) <==> c.Valid() && c.scanOffset == 0 && Waiting(c.fd, c.Pending()) == e
    {}

    /** client_hello: false when the connection was turned away; `reply` is what it
        sends, if the HELLO is there. */
    method ClientHello(i: nat, sent: bool, oses: Oses) returns (ok: bool, reply: Option<Byte>)
      requires Valid() && i < |waiting|
      modifies this`world, clients, waiting, Buffers()
      ensures Valid()
      ensures var buf := old(world.waiting[i].pending);
              if |buf| < HELLO_SIZE then ok && world == old(world)
              else if ok then world == Hello(cfg, old(world), i, buf, sent, oses).world
              else Cleared(world, i) == Hello(cfg, old(world), i, buf, sent, oses).world
      ensures var buf := old(world.waiting[i].pending);
              reply == if |buf| < HELLO_SIZE then None
                       else Some(Hello(cfg, old(world), i, buf, sent, oses).reply)
    {
      hide Choose, Promote, Put, DropWaiting, TurnAway, Cleared, Cleanup, FirstStatus;
      assert Waits(waiting[i], world.waiting[i]);
      TurnedAway(cfg, world, i, 0);
      if waiting[i].available < HELLO_SIZE {
        return true, None;
      }
      var msg := waiting[i].buffer[..HELLO_SIZE];
      assert msg == world.waiting[i].pending[..HELLO_SIZE];
      if msg[0] != HELLO {
        HangUp(i);
        return false, Some(INVALID);
      }
      if msg[1] != PROTOCOL_VERSION {
        HangUp(i);
        return false, Some(VERSION_MISMATCH);
      }

      var c := ChooseSlot(msg[2]);
      if c.Refuse? {
        HangUp(i);
        return false, Some(c.reply);
      }
      ChosenInRange(world.ports, msg[2]);
      assert Holds(clients[c.u], world.ports[c.u], world.history[c.u]);
      if c.Evict? {
        EvictDevice(c.u, oses(c.u));
      }
      TurnedAway(cfg, world, i, c.u);
      var status;
      ok, status := MoveToSlot(i, c.u, sent);
      reply := Some(status);
    }

    /** The main loop's turn for a waiting connection that woke up. */
    method WaitingReady(i: nat, chunk: Bytes, sent: bool, oses: Oses)
      requires Valid() && i < |waiting| && |chunk| <= INPUT_BUFFER_SIZE - waiting[i].available
      modifies this`world, clients, waiting, Buffers()
      ensures Valid()
      ensures chunk == [] ==> world == DropWaiting(old(world), i)
      ensures chunk != [] ==> world == WaitStep(cfg, old(world), i, chunk, sent, oses)
    {
      hide Hello, Holds, Waits;
      HelloIgnoresPending(cfg, world, i, chunk, sent, oses);
      Receive(i, chunk);
      if chunk == [] {
        assert world.waiting[i].pending == old(world.waiting[i].pending);
        HangUp(i);
        return;
      }
      var ok, _ := ClientHello(i, sent, oses);
      if !ok {
        Clear(i);
      }
    }

    /** recv_data on a waiting entry. */
    method Receive(i: nat, chunk: Bytes)
      requires Valid() && i < |waiting| && |chunk| <= INPUT_BUFFER_SIZE - waiting[i].available
      modifies this`world, waiting[i], waiting[i].buffer
      ensures Valid() && world == Received(old(world), i, chunk)
    {
      assert Waits(waiting[i], world.waiting[i]);
      var ok := waiting[i].RecvData(chunk);
      assert world.waiting[i].pending + [] == world.waiting[i].pending;
      world := Received(world, i, chunk);
      assert Waits(waiting[i], world.waiting[i]);
    }

    method Clear(i: nat)
      requires Valid() && i < |waiting|
      modifies this`world, waiting[i]
      ensures Valid() && world == Cleared(old(world), i)
    {
      assert Waits(waiting[i], world.waiting[i]);
      waiting[i].available := 0;
      waiting[i].scanOffset := 0;
      world := Cleared(world, i);
      assert Waits(waiting[i], world.waiting[i]);
    }

    // ---------- the main loop ----------

    /** One round of the main loop after select. It is abandoned when it leaves
        defined behaviour. */
    method Round(inputs: Inputs, oses: Oses) returns (ok: bool)
      requires Valid() && Defined(world)
      modifies this`world, clients, waiting, Buffers()
      ensures Valid() && world == Run(cfg, old(world), RoundSteps(cfg, old(world), inputs, oses), oses)
      ensures ok == Defined(world)
    {
      hide Next, Run, SlotSteps, WaitSteps, SlotsFrom, WaitsFrom, Defined, Holds, Waits;
      ghost var w0 := world;
      AcceptTurn(inputs, oses);
      ok := ServeSlots(inputs, oses);
      if ok {
        ServeWaitings(inputs, oses);
      } else {
        SlotsStop(cfg, world, MAX_CLIENTS, inputs, oses);
      }
      RoundInParts(cfg, w0, inputs, oses);
    }

    /** The turns of the slots, up to one that leaves defined behaviour. */
    method ServeSlots(inputs: Inputs, oses: Oses) returns (ok: bool)
      requires Valid() && Defined(world)
      modifies this`world, clients, set c | c in clients :: c.buffer
      ensures Valid() && ok == Defined(world)
      ensures world == SlotsFrom(cfg, old(world), 0, inputs, oses)
    {
      hide Next, Holds, Waits, SlotsFrom, Defined;
      ghost var w1 := world;
      ok := true;
      for u := 0 to |clients|
        invariant Valid() && ok && Defined(world)
        invariant SlotsFrom(cfg, w1, 0, inputs, oses) == SlotsFrom(cfg, world, u, inputs, oses)
      {
        SlotsNext(cfg, world, u, inputs, oses);
        assert Holds(clients[u], world.ports[u], world.history[u]);
        HeldRecord(clients[u], world.ports[u], world.history[u]);
        if clients[u].fd >= 0 && inputs.slots(u).Some? {
          ok := ServeSlot(u, inputs.slots(u).value, oses);
          if !ok {
            SlotsStop(cfg, world, u + 1, inputs, oses);
            return;
          }
        }
      }
      SlotsStop(cfg, world, MAX_CLIENTS, inputs, oses);
    }

    /** The turns of the waiting connections. */
    method ServeWaitings(inputs: Inputs, oses: Oses)
      requires Valid() && Defined(world)
      modifies this`world, clients, waiting, Buffers()
      ensures Valid() && Defined(world)
      ensures world == WaitsFrom(cfg, old(world), 0, inputs, oses)
    {
      hide Next, Holds, Waits, WaitsFrom, Defined;
      ghost var w2 := world;
      for i := 0 to |waiting|
        invariant Valid() && Defined(world)
        invariant WaitsFrom(cfg, w2, 0, inputs, oses) == WaitsFrom(cfg, world, i, inputs, oses)
      {
        WaitsNext(cfg, world, i, inputs, oses);
        assert Waits(waiting[i], world.waiting[i]);
        WaitingRecord(waiting[i], world.waiting[i]);
        if waiting[i].fd >= 0 && inputs.waiting(i).Some? {
          ServeWaiting(i, inputs.waiting(i).value, inputs.sendable(i), oses);
        }
      }
      WaitsStop(cfg, world, MAX_WAITING_CLIENTS, inputs, oses);
    }

    method AcceptTurn(inputs: Inputs, oses: Oses)
      requires Valid() && Defined(world)
      modifies this`world, waiting
      ensures Valid() && Defined(world) && world == Run(cfg, old(world), AcceptSteps(inputs), oses)
    {
      if inputs.accepted.Some? {
        ClientConnection(inputs.accepted.value);
        RunFirst(cfg, old(world), Accept(inputs.accepted.value), [], oses);
        assert AcceptSteps(inputs) == [Accept(inputs.accepted.value)] + [];
      }
    }

    method ServeSlot(u: nat, input: Bytes, oses: Oses) returns (ok: bool)
      requires Valid() && Defined(world) && u < |clients| && clients[u].fd >= 0
      modifies this`world, clients[u], clients[u].buffer
      ensures Valid() && ok == Defined(world)
      ensures world == Next(cfg, old(world), SlotTurn(old(world), u, input), oses)
    {
      hide Next, ServeBytes, CloseSlot, Holds, Waits, Defined;
      var c := clients[u];
      assert Holds(c, world.ports[u], world.history[u]);
      HeldRecord(c, world.ports[u], world.history[u]);
      NotWrecked(world, u);
      var chunk := Room(input, INPUT_BUFFER_SIZE - c.available);
      SlotReady(u, chunk, oses(u));
      SlotKeepsDefined(cfg, old(world), u, chunk, oses);
      assert Holds(c, world.ports[u], world.history[u]);
      HeldRecord(c, world.ports[u], world.history[u]);
      ok := !c.wrecked;
    }

    method ServeWaiting(i: nat, input: Bytes, sent: bool, oses: Oses)
      requires Valid() && Defined(world) && i < |waiting|
      modifies this`world, clients, waiting, Buffers()
      ensures Valid() && Defined(world)
      ensures world == Next(cfg, old(world), WaitTurn(old(world), i, input, sent), oses)
    {
      hide Next, WaitStep, DropWaiting, Holds, Waits, Defined;
      assert Waits(waiting[i], world.waiting[i]);
      WaitingRecord(waiting[i], world.waiting[i]);
      var chunk := Room(input, INPUT_BUFFER_SIZE - waiting[i].available);
      WaitingReady(i, chunk, sent, oses);
      WaitKeepsDefined(cfg, old(world), i, chunk, sent, oses);
    }

    /** The end of main: closes every slot and destroys its device. */
    method Shutdown(oses: Oses)
      requires Valid() && Defined(world)
      requires forall u | 0 <= u < |clients| :: clients[u].fd >= -1
      modifies this`world, clients
      ensures Valid() && world == CloseFirst(old(world), |clients|, oses)
    {
      for u := 0 to |clients|
        invariant Valid() && Defined(world) && world == CloseFirst(old(world), u, oses)
        invariant forall v | 0 <= v < |clients| :: clients[v].fd >= -1
      {
        CloseRecord(u, oses(u));
      }
    }

    method CloseRecord(u: nat, os: Os)
      requires Valid() && Defined(world) && u < |clients| && clients[u].fd >= -1
      modifies this`world, clients[u]
      ensures Valid() && Defined(world) && world == CloseSlot(old(world), u, true, os) && clients[u].fd == -1
    {
      hide Absorb, Drain;
      assert Holds(clients[u], world.ports[u], world.history[u]);
      clients[u].ClientClose(true, os);
      world := CloseSlot(world, u, true, os);
      assert Holds(clients[u], world.ports[u], world.history[u]);
    }
  }

  lemma FreeEntryIs(waiting: seq<Waiting>, i: nat)
    requires i <= |waiting| && (forall j | 0 <= j < i :: waiting[j].fd >= 0)
    requires i < |waiting| ==> waiting[i].fd < 0
    ensures FreeEntry(waiting, 0) == i
  {}

  lemma FirstIdleIs(ports: seq<Port>, u: nat)
    requires u <= |ports| && (forall v | 0 <= v < u :: !(ports[v].slot.fd < 0 && ports[v].slot.evFd < 0))
    requires u < |ports| ==> ports[u].slot.fd < 0 && ports[u].slot.evFd < 0
    ensures FirstIdle(ports, 0) == u
  {}

  lemma FirstDisconnectedIs(ports: seq<Port>, u: nat)
    requires u <= |ports| && (forall v | 0 <= v < u :: ports[v].slot.fd >= 0)
    requires u < |ports| ==> ports[u].slot.fd < 0
    ensures FirstDisconnected(ports, 0) == u
  {}

  lemma ChosenInRange(ports: seq<Port>, wanted: Byte)
    requires |ports| == MAX_CLIENTS
    ensures var c := Choose(ports, wanted); !c.Refuse? ==> c.u < MAX_CLIENTS && (c.Evict? ==> ports[c.u].slot.fd < 0)
  {}

  /** An entry that forgot the bytes it had received. */
  ghost function Cleared(w: World, i: nat): World
    requires i < |w.waiting|
  {
    w.(waiting := w.waiting[i := w.waiting[i].(pending := [])])
  }

  /** Hanging up and then forgetting the bytes is turning the connection away; a client
      that is promoted is told its first status, whether or not it can be told. */
  lemma TurnedAway(cfg: Config, w: World, i: nat, u: nat)
    requires Shaped(w) && i < MAX_WAITING_CLIENTS && u < MAX_CLIENTS
    ensures Cleared(DropWaiting(w, i), i) == TurnAway(w, i) == Promote(cfg, w, i, u, false).world
    ensures forall sent: bool :: Promote(cfg, w, i, u, sent).reply == FirstStatus(cfg, w.ports[u].slot)
  {}

  /** An entry that received more bytes. */
  ghost function Received(w: World, i: nat, chunk: Bytes): World
    requires i < |w.waiting|
  {
    w.(waiting := w.waiting[i := w.waiting[i].(pending := w.waiting[i].pending + chunk)])
  }

  /** What client_hello makes of the bytes depends on them, not on where they are. */
  lemma HelloIgnoresPending(cfg: Config, w: World, i: nat, chunk: Bytes, sent: bool, oses: Oses)
    requires Shaped(w) && i < MAX_WAITING_CLIENTS
    ensures var r := Received(w, i, chunk);
            && r.waiting[i].fd == w.waiting[i].fd
            && (chunk == [] ==> r == w)
            && (|r.waiting[i].pending| < HELLO_SIZE ==> WaitStep(cfg, w, i, chunk, sent, oses) == r)
            && (|r.waiting[i].pending| >= HELLO_SIZE ==>
                  WaitStep(cfg, w, i, chunk, sent, oses) == Hello(cfg, r, i, r.waiting[i].pending, sent, oses).world)
  {
    var r := Received(w, i, chunk);
    assert w.waiting[i].pending + [] == w.waiting[i].pending;
    assert r.waiting[i := Waiting(-1, [])] == w.waiting[i := Waiting(-1, [])];
  }

  /** A slot's turn concerns its own record only. */
  lemma OnlySlot(cfg: Config, w: World, u: nat, chunk: Bytes, os: Os)
    requires Shaped(w) && u < MAX_CLIENTS
    ensures var o := Close(w.ports[u].slot, false, os);
            var next := CloseSlot(w, u, false, os);
            && next.ports == w.ports[u := Port(o.slot, [])]
            && next.history == w.history[u := w.history[u] + o.effects]
            && next.waiting == w.waiting
    ensures var r := Feed(cfg.loop, cfg, u, w.ports[u], chunk, os);
            var next := ServeBytes(cfg, w, u, chunk, os);
            && next.ports == w.ports[u := r.port]
            && next.history == w.history[u := w.history[u] + r.effects]
            && next.waiting == w.waiting
  {
    hide Feed, Close, Absorb;
  }

  lemma NotWrecked(w: World, u: nat)
    requires Shaped(w) && Defined(w) && u < MAX_CLIENTS
    ensures !w.ports[u].slot.wrecked
  {}

  lemma SlotKeepsDefined(cfg: Config, w: World, u: nat, chunk: Bytes, oses: Oses)
    requires Shaped(w) && Defined(w) && u < MAX_CLIENTS
    ensures var w' := if chunk == [] then CloseSlot(w, u, false, oses(u)) else ServeBytes(cfg, w, u, chunk, oses(u));
            && Next(cfg, w, if chunk == [] then SlotDrop(u) else SlotBytes(u, chunk), oses) == w'
            && (!w'.ports[u].slot.wrecked <==> Defined(w'))
  {
    hide Drain, Close, Absorb;
  }

  lemma WaitKeepsDefined(cfg: Config, w: World, i: nat, chunk: Bytes, sent: bool, oses: Oses)
    requires Shaped(w) && Defined(w) && i < MAX_WAITING_CLIENTS
    ensures var w' := if chunk == [] then DropWaiting(w, i) else WaitStep(cfg, w, i, chunk, sent, oses);
            && Next(cfg, w, if chunk == [] then WaitDrop(i) else WaitBytes(i, chunk, sent), oses) == w'
            && Defined(w')
  {
    hide Absorb, Choose;
  }
}
