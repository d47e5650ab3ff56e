/** How slots and devices come and go: the allocator behind HELLO, the life of a
    device across connections, and the ways out of each status. */
module Lifecycle {
  import opened Protocol
  import opened Uinput
  import opened DeviceCreation
  import opened Slots
  import opened Kernel
  import opened World
  import opened Runs

  // ---------- the allocator ----------

  predicate AllConnected(ports: seq<Port>) {
    forall u | 0 <= u < |ports| :: ports[u].slot.fd >= 0
  }

  predicate Idle(p: Port) {
    p.slot.fd < 0 && p.slot.evFd < 0
  }

  /** The simple specification of "any slot": the lowest idle slot; without one,
      the lowest disconnected slot, whose device goes; refused without either. */
  predicate RightChoice(ports: seq<Port>, c: Choice) {
    match c
    case Refuse(reply) => reply == CLIENT_SLOTS_EXHAUSTED && AllConnected(ports)
    case Take(u) => u < |ports| && Idle(ports[u]) && forall v | 0 <= v < u :: !Idle(ports[v])
    case Evict(u) =>
      && u < |ports|
      && ports[u].slot.fd < 0
      && (forall v | 0 <= v < u :: ports[v].slot.fd >= 0)
      && (forall v | 0 <= v < |ports| :: !Idle(ports[v]))
  }

  /** The two scans of client_hello meet the specification, and nothing else does. */
  lemma AnySlot(ports: seq<Port>, c: Choice)
    requires |ports| == MAX_CLIENTS
    ensures RightChoice(ports, c) <==> c == Choose(ports, 0)
  {}

  /** Auxiliary: a slot that is asked for by number is refused exactly while it is in use. A
      descriptor 0 would count as "not in use": it is the one live descriptor a
      promotion could overwrite. */
  lemma NamedSlot(ports: seq<Port>, wanted: Byte)
    requires |ports| == MAX_CLIENTS && 0 < wanted
    ensures Choose(ports, wanted) == Refuse(INVALID_CLIENT_SLOT) <==> wanted > MAX_CLIENTS
    ensures wanted <= MAX_CLIENTS && ports[wanted - 1].slot.fd >= 0 ==>
              (Choose(ports, wanted) == Refuse(CLIENT_SLOT_IN_USE) <==> ports[wanted - 1].slot.fd != 0)
    ensures wanted <= MAX_CLIENTS && ports[wanted - 1].slot.fd < 0 ==> Choose(ports, wanted) == Take(wanted - 1)
  {}

  /** An automatically assigned client gets an empty slot. An evicted device is
      destroyed and no other is touched; only a kernel that refuses to destroy it
      lets the client inherit it. */
  lemma AutoAssigned(cfg: Config, w: World, i: nat, oses: Oses)
    requires Inv(cfg, w) && i < MAX_WAITING_CLIENTS && w.waiting[i].fd >= 0
    requires !AllConnected(w.ports)
    ensures var g := Hello(cfg, w, i, [HELLO, PROTOCOL_VERSION, 0], true, oses);
            var c := Choose(w.ports, 0);
            && !c.Refuse?
            && c.u < MAX_CLIENTS
            && g.world.ports[c.u].slot.fd == w.waiting[i].fd
            && (forall v | 0 <= v < MAX_CLIENTS && v != c.u :: g.world.ports[v] == w.ports[v])
            && g.world.kernel.sockets == w.kernel.sockets
            && (g.world.ports[c.u].slot.evFd >= 0 <==> c.Evict? && oses(c.u)(w.ports[c.u].slot.calls) < 0)
            && (c.Evict? && g.world.ports[c.u].slot.evFd < 0 ==> g.world.ports[c.u].slot.meta == EmptyMeta())
            && g.world.kernel.devices
               == (if c.Evict? && oses(c.u)(w.ports[c.u].slot.calls) >= 0
                   then w.kernel.devices - {w.ports[c.u].slot.evFd} else w.kernel.devices)
  {
    hide Exclusive, Accounted, BuffersOk, DevicesExclusive, DevicesOk, Authenticated;
    var c := Choose(w.ports, 0);
    AnySlot(w.ports, c);
    var s := w.ports[c.u].slot;
    if c.Evict? {
      assert SlotOk(cfg, s, w.kernel, w.history[c.u]);
      AbsorbFew(w.kernel, Destroyed(s.evFd), Destroyed(s.evFd));
    }
  }

  // ---------- accepting and greeting ----------

  /** Auxiliary: an accepted connection is held by the lowest free waiting entry; without a
      free one, or if accept failed, no socket stays open. */
  lemma AcceptedWaits(w: World, result: int)
    requires Shaped(w)
    ensures var w' := AcceptStep(w, result);
            && w'.ports == w.ports && w'.history == w.history && w'.kernel.devices == w.kernel.devices
            && (result >= 0 ==>
                  if forall i | 0 <= i < MAX_WAITING_CLIENTS :: w.waiting[i].fd >= 0 then w' == w
                  else
                    && w'.kernel.sockets == w.kernel.sockets + {result}
                    && exists i | 0 <= i < MAX_WAITING_CLIENTS ::
                         && w'.waiting == w.waiting[i := Waiting(result, w.waiting[i].pending)]
                         && w.waiting[i].fd < 0
                         && forall j | 0 <= j < i :: w.waiting[j].fd >= 0)
            && (result < 0 ==>
                  && w'.kernel == w.kernel
                  && forall i | 0 <= i < MAX_WAITING_CLIENTS ::
                       && w'.waiting[i].pending == w.waiting[i].pending
                       && (w'.waiting[i].fd == w.waiting[i].fd || (w'.waiting[i].fd < 0 && w.waiting[i].fd < 0)))
  {}

  /** A HELLO is either promoted to a slot, which then has the client's socket, an
      empty buffer and the status the client was told, or turned away with nothing
      but its socket gone. It is promoted if and only if it is a HELLO of the right
      version and the allocator has a slot for it. */
  lemma PromotedOrTurnedAway(cfg: Config, w: World, i: nat, msg: Bytes, oses: Oses)
    requires Inv(cfg, w) && i < MAX_WAITING_CLIENTS && w.waiting[i].fd >= 0 && |msg| >= HELLO_SIZE
    ensures var g := Hello(cfg, w, i, msg, true, oses); var fd := w.waiting[i].fd;
            && g.world.waiting == w.waiting[i := Waiting(-1, [])]
            && (if msg[0] == HELLO && msg[1] == PROTOCOL_VERSION && !Choose(w.ports, msg[2]).Refuse? then
                  && g.world.kernel.sockets == w.kernel.sockets
                  && (g.reply == PASSWORD_REQUIRED <==> cfg.password != [])
                  && exists u | 0 <= u < MAX_CLIENTS ::
                       && g.world.ports[u].slot.fd == fd
                       && g.world.ports[u].slot.status == g.reply
                       && g.world.ports[u].pending == []
                       && g.world.history[u] == [Sent([g.reply], true)]
                       && (g.reply == SUCCESS <==> cfg.password == [] && g.world.ports[u].slot.evFd >= 0)
                else
                  && g.world.ports == w.ports && g.world.history == w.history
                  && g.world.kernel == w.kernel.(sockets := w.kernel.sockets - {fd})
                  && g.reply in {INVALID, VERSION_MISMATCH, INVALID_CLIENT_SLOT, CLIENT_SLOT_IN_USE,
                                 CLIENT_SLOTS_EXHAUSTED})
  {
    hide Exclusive, Accounted, BuffersOk, DevicesExclusive, DevicesOk, SlotOk;
    var c := Choose(w.ports, msg[2]);
    if msg[0] == HELLO && msg[1] == PROTOCOL_VERSION && !c.Refuse? {
      ChosenIsFree(cfg, w, msg[2]);
      var s := w.ports[c.u].slot;
      NoStrangeDescriptor(cfg, w, c.u);
      CleanupSockets(s, w.kernel, oses(c.u));
      var g := Hello(cfg, w, i, msg, true, oses);
      assert g.world.ports[c.u].slot.fd == w.waiting[i].fd;
    }
  }

  /** The slot byte of a HELLO can be granted: a slot there is that is not in use, or
      any slot while one is disconnected. */
  predicate Grantable(ports: seq<Port>, slot: Byte)
    requires |ports| == MAX_CLIENTS
  {
    slot <= MAX_CLIENTS && if slot > 0 then ports[slot - 1].slot.fd <= 0 else !AllConnected(ports)
  }

  /** The slot it is granted: the one named, or the lowest idle one, or the lowest
      disconnected one. */
  predicate Grants(ports: seq<Port>, slot: Byte, u: nat) {
    && u < |ports|
    && if slot > 0 then u == slot - 1
       else if forall v | 0 <= v < |ports| :: !Idle(ports[v]) then
         ports[u].slot.fd < 0 && forall v | 0 <= v < u :: ports[v].slot.fd >= 0
       else
         Idle(ports[u]) && forall v | 0 <= v < u :: !Idle(ports[v])
  }

  /** Its device has to go first: the client named no slot and the one it gets has one. */
  predicate Evicts(ports: seq<Port>, slot: Byte, u: nat) {
    slot == 0 && u < |ports| && ports[u].slot.evFd >= 0
  }

  /** A HELLO of the right type and version for a slot that can be granted. */
  predicate Welcome(ports: seq<Port>, msg: Bytes)
    requires |ports| == MAX_CLIENTS && |msg| >= HELLO_SIZE
  {
    msg[0] == HELLO && msg[1] == PROTOCOL_VERSION && Grantable(ports, msg[2])
  }

  lemma GrantIs(cfg: Config, w: World, slot: Byte, u: nat)
    requires Inv(cfg, w)
    ensures Grantable(w.ports, slot) <==> !Choose(w.ports, slot).Refuse?
    ensures Grantable(w.ports, slot) && Grants(w.ports, slot, u) ==>
              Choose(w.ports, slot) == if Evicts(w.ports, slot, u) then Evict(u) else Take(u)
    ensures Grantable(w.ports, slot) ==> Grants(w.ports, slot, Choose(w.ports, slot).u)
  {
    hide Exclusive, Accounted, BuffersOk, DevicesExclusive, DevicesOk, SlotOk;
    if slot == 0 {
      AnySlot(w.ports, Choose(w.ports, 0));
      if Grants(w.ports, slot, u) && Grantable(w.ports, slot) {
        AnySlot(w.ports, if Evicts(w.ports, slot, u) then Evict(u) else Take(u));
      }
    }
  }

  /** What a HELLO is answered, from the message and the tables: one refusal for each
      thing that can be wrong with it, in this order; and else what is needed next,
      where a slot keeps its device if the client named it or the kernel does not let
      the device go. */
  lemma AnswerExactly(cfg: Config, w: World, i: nat, msg: Bytes, sent: bool, oses: Oses, u: nat)
    requires Inv(cfg, w) && i < MAX_WAITING_CLIENTS && |msg| >= HELLO_SIZE
    requires Welcome(w.ports, msg) ==> Grants(w.ports, msg[2], u)
    ensures var reply := Hello(cfg, w, i, msg, sent, oses).reply;
            var right := msg[0] == HELLO && msg[1] == PROTOCOL_VERSION;
            && (reply == INVALID <==> msg[0] != HELLO)
            && (reply == VERSION_MISMATCH <==> msg[0] == HELLO && msg[1] != PROTOCOL_VERSION)
            && (reply == INVALID_CLIENT_SLOT <==> right && msg[2] > MAX_CLIENTS)
            && (reply == CLIENT_SLOT_IN_USE <==>
                  right && 0 < msg[2] <= MAX_CLIENTS && w.ports[msg[2] - 1].slot.fd > 0)
            && (reply == CLIENT_SLOTS_EXHAUSTED <==> right && msg[2] == 0 && AllConnected(w.ports))
            && (reply == PASSWORD_REQUIRED <==> Welcome(w.ports, msg) && cfg.password != [])
            && (reply == SUCCESS <==>
                  && Welcome(w.ports, msg) && cfg.password == [] && w.ports[u].slot.evFd >= 0
                  && (msg[2] > 0 || oses(u)(w.ports[u].slot.calls) < 0))
            && (reply == SETUP_REQUIRED <==>
                  && Welcome(w.ports, msg) && cfg.password == []
                  && (w.ports[u].slot.evFd < 0 || (msg[2] == 0 && oses(u)(w.ports[u].slot.calls) >= 0)))
  {
    hide Exclusive, Accounted, BuffersOk, DevicesExclusive, DevicesOk, SlotOk;
    GrantIs(cfg, w, msg[2], u);
    if msg[2] == 0 {
      AnySlot(w.ports, Choose(w.ports, 0));
    }
    if Welcome(w.ports, msg) {
      NoStrangeDescriptor(cfg, w, u);
    }
  }

  /** What it does: a client that is welcome and can be told so moves to the slot it is
      granted; with every other outcome only its socket goes. Nothing else changes but
      the device that had to go. */
  lemma GreetingExactly(cfg: Config, w: World, i: nat, msg: Bytes, sent: bool, oses: Oses, u: nat)
    requires Inv(cfg, w) && i < MAX_WAITING_CLIENTS && |msg| >= HELLO_SIZE
    requires Welcome(w.ports, msg) ==> Grants(w.ports, msg[2], u)
    ensures var g := Hello(cfg, w, i, msg, sent, oses); var fd := w.waiting[i].fd;
            && g.world.waiting == w.waiting[i := Waiting(-1, [])]
            && g.world.kernel.sockets
               == (if Welcome(w.ports, msg) && sent then w.kernel.sockets else w.kernel.sockets - {fd})
            && (!Welcome(w.ports, msg) ==>
                  && g.world.ports == w.ports && g.world.history == w.history
                  && g.world.kernel.devices == w.kernel.devices)
            && (Welcome(w.ports, msg) ==>
                  var s := w.ports[u].slot; var s' := g.world.ports[u].slot;
                  var gone := Evicts(w.ports, msg[2], u) && oses(u)(s.calls) >= 0;
                  && (forall v | 0 <= v < MAX_CLIENTS && v != u :: g.world.ports[v] == w.ports[v])
                  && s'.evFd == (if gone then -1 else s.evFd)
                  && s'.meta == (if gone then EmptyMeta() else s.meta)
                  && g.world.kernel.devices == (if gone then w.kernel.devices - {s.evFd} else w.kernel.devices)
                  && s'.fd == (if sent then fd else s.fd)
                  && s'.status == (if sent then g.reply else s.status)
                  && (sent ==> g.world.ports[u].pending == [] && g.world.history[u] == [Sent([g.reply], true)]))
  {
    hide Exclusive, Accounted, BuffersOk, DevicesExclusive, DevicesOk, SlotOk, Absorb;
    GrantIs(cfg, w, msg[2], u);
    if Welcome(w.ports, msg) {
      NoStrangeDescriptor(cfg, w, u);
      AbsorbFew(w.kernel, Destroyed(w.ports[u].slot.evFd), Destroyed(w.ports[u].slot.evFd));
    }
  }

  lemma NoStrangeDescriptor(cfg: Config, w: World, u: nat)
    requires Inv(cfg, w) && u < MAX_CLIENTS
    ensures w.ports[u].slot.evFd >= -1
  {
    hide Exclusive, Accounted, BuffersOk, DevicesExclusive, DevicesOk, Authenticated;
    assert SlotOk(cfg, w.ports[u].slot, w.kernel, w.history[u]);
  }

  lemma CleanupSockets(s: Slot, k: Kernel, os: Os)
    ensures Absorb(k, Cleanup(s, os).effects).sockets == k.sockets
  {
    AbsorbFew(k, Destroyed(s.evFd), Destroyed(s.evFd));
  }

  // ---------- the bytes an entry keeps ----------

  /** A dropped connection leaves its unused bytes in the waiting entry. The next
      client of the entry is understood exactly when nothing was left, or when the
      leftover happens to read the same. */
  lemma LeftoverBytes(leftover: Bytes, slot: Byte)
    requires |leftover| < HELLO_SIZE
    ensures var hello := [HELLO, PROTOCOL_VERSION, slot];
            (leftover + hello)[..HELLO_SIZE] == hello
            <==> leftover == [] || (leftover == [HELLO, PROTOCOL_VERSION] && slot == HELLO)
  {
    var hello := [HELLO, PROTOCOL_VERSION, slot];
    var read := (leftover + hello)[..HELLO_SIZE];
    if |leftover| == 1 {
      assert read[1] == HELLO;
    } else if |leftover| == 2 {
      assert leftover == [leftover[0], leftover[1]];
      assert read == [leftover[0], leftover[1], HELLO];
    } else {
      assert read == hello;
    }
  }

  /** Such a leftover survives in a reachable server: a client that hangs up after
      the first byte of its HELLO leaves it to the next one. */
  lemma LeftoverReachable(cfg: Config, oses: Oses)
    ensures var steps := [Accept(7), WaitBytes(0, [HELLO], true), WaitDrop(0), Accept(8)];
            && LegalRun(cfg, Start(), steps, oses)
            && Run(cfg, Start(), steps, oses).waiting[0] == Waiting(8, [HELLO])
  {
    var s0, s1, s2, s3 := Accept(7), WaitBytes(0, [HELLO], true), WaitDrop(0), Accept(8);
    var w0 := Start();
    var w1 := Next(cfg, w0, s0, oses);
    var w2 := Next(cfg, w1, s1, oses);
    var w3 := Next(cfg, w2, s2, oses);
    var w4 := Next(cfg, w3, s3, oses);
    assert [] + [HELLO] == [HELLO];
    assert w2.waiting[0] == Waiting(7, [HELLO]);
    assert [s0, s1, s2, s3][1..] == [s1, s2, s3] && [s1, s2, s3][1..] == [s2, s3];
    assert [s2, s3][1..] == [s3] && [s3][1..] == [];
    assert Run(cfg, w4, [], oses) == w4 && LegalRun(cfg, w4, [], oses);
    assert Run(cfg, w3, [s3], oses) == w4 && LegalRun(cfg, w3, [s3], oses);
    assert Run(cfg, w2, [s2, s3], oses) == w4 && LegalRun(cfg, w2, [s2, s3], oses);
    assert Run(cfg, w1, [s1, s2, s3], oses) == w4 && LegalRun(cfg, w1, [s1, s2, s3], oses);
  }

  // ---------- the life of a device ----------

  /** Serving a slot destroys a device only for a QUIT and creates one only for a
      SETUP_END; without either the slot keeps the device it has. */
  lemma {:induction false} DeviceChanges(rule: Rule, cfg: Config, index: nat, s: Slot, buf: Bytes, os: Os)
    requires index < 0xFF
    ensures var r := Drain(rule, cfg, index, s, buf, os);
            && ([QUIT] !in Frames(buf).frames ==> forall e | e in r.effects :: !e.Destroyed?)
            && ([SETUP_END] !in Frames(buf).frames ==> forall e | e in r.effects :: !e.Created?)
            && ([QUIT] !in Frames(buf).frames && [SETUP_END] !in Frames(buf).frames ==> r.port.slot.evFd == s.evFd)
    decreases |buf|
  {
    hide Dispatch;
    var n := HeadFrame(buf);
    if Live(s) && n > 0 && !(LoneHeader(buf) && rule == AsWritten) {
      var first := Dispatch(cfg, index, s, buf[..n], os);
      HeadIsFrame(buf);
      DispatchChanges(cfg, index, s, buf[..n], os);
      DeviceChanges(rule, cfg, index, first.slot, buf[n..], os);
      assert Frames(buf).frames == [buf[..n]] + Frames(buf[n..]).frames;
    }
  }

  lemma DispatchChanges(cfg: Config, index: nat, s: Slot, msg: Bytes, os: Os)
    requires index < 0xFF && IsFrame(msg)
    ensures var o := Dispatch(cfg, index, s, msg, os);
            && (msg != [QUIT] ==> forall e | e in o.effects :: !e.Destroyed?)
            && (msg != [SETUP_END] ==> forall e | e in o.effects :: !e.Created?)
            && (msg != [QUIT] && msg != [SETUP_END] ==> o.slot.evFd == s.evFd)
  {
    hide Creation, SpecNow, StrncmpEqual;
    if msg[0] == QUIT {
      assert msg == [QUIT];
    } else if msg[0] == SETUP_END {
      assert msg == [SETUP_END];
    }
  }

  /** The only steps after which a device may be gone or replaced: the client's own
      QUIT or SETUP_END, the end of the server, or an automatic assignment that
      evicts the slot. */
  predicate Disturbs(w: World, step: Step, u: nat)
    requires Shaped(w) && u < MAX_CLIENTS
  {
    match step
    case SlotBytes(v, chunk) =>
      v == u && ([QUIT] in Frames(w.ports[u].pending + chunk).frames
                 || [SETUP_END] in Frames(w.ports[u].pending + chunk).frames)
    case WaitBytes(i, chunk, _) =>
      i < MAX_WAITING_CLIENTS
      && var buf := w.waiting[i].pending + chunk;
         HELLO_SIZE <= |buf| && buf[0] == HELLO && buf[1] == PROTOCOL_VERSION && Choose(w.ports, buf[2]) == Evict(u)
    case Shutdown => true
    case _ => false
  }

  /** An eviction only strikes when no slot is idle, and only a disconnected slot,
      for a client that named no slot. */
  lemma EvictionIsLastResort(ports: seq<Port>, wanted: Byte, u: nat)
    requires |ports| == MAX_CLIENTS && Choose(ports, wanted) == Evict(u)
    ensures wanted == 0 && u < MAX_CLIENTS && ports[u].slot.fd < 0 && ports[u].slot.evFd >= 0
    ensures forall v | 0 <= v < MAX_CLIENTS :: ports[v].slot.fd >= 0 || ports[v].slot.evFd >= 0
  {}

  /** The same device: same capabilities, and all events it had received. */
  predicate SameDevice(k: Kernel, k': Kernel, d: int) {
    && d in k.devices
    && d in k'.devices
    && k'.devices[d].spec == k.devices[d].spec
    && k.devices[d].events <= k'.devices[d].events
  }

  lemma DeviceKept(cfg: Config, w: World, step: Step, oses: Oses, u: nat)
    requires Inv(cfg, w) && Legal(cfg, w, step, oses) && u < MAX_CLIENTS
    requires w.ports[u].slot.evFd >= 0 && !Disturbs(w, step, u)
    ensures var w' := Next(cfg, w, step, oses); var d := w.ports[u].slot.evFd;
            w'.ports[u].slot.evFd == d && SameDevice(w.kernel, w'.kernel, d)
  {
    hide Exclusive, Accounted, BuffersOk, Feasible, Drain, Close, Absorb, Sound, Local, Hello, Frames, SlotOk,
      DevicesOk;
    HoldsLive(cfg, w, u);
    match step
    case Accept(_) =>
    case SlotBytes(v, chunk) => ServeKeepsDevice(cfg, w, u, v, chunk, oses(v));
    case SlotDrop(v) => DropKeepsDevice(cfg, w, u, v, oses(v));
    case WaitBytes(i, chunk, sent) => WaitKeepsDevice(cfg, w, u, i, chunk, sent, oses);
    case WaitDrop(_) =>
    case Shutdown =>
  }

  lemma HoldsLive(cfg: Config, w: World, u: nat)
    requires Inv(cfg, w) && u < MAX_CLIENTS && w.ports[u].slot.evFd >= 0
    ensures w.ports[u].slot.evFd in w.kernel.devices
    ensures forall v | 0 <= v < MAX_CLIENTS && v != u :: w.ports[v].slot.evFd != w.ports[u].slot.evFd
  {
    hide Exclusive, Accounted, BuffersOk, DevicesOk, Authenticated;
    assert SlotOk(cfg, w.ports[u].slot, w.kernel, w.history[u]);
  }

  lemma ServeKeepsDevice(cfg: Config, w: World, u: nat, v: nat, chunk: Bytes, os: Os)
    requires Inv(cfg, w) && u < MAX_CLIENTS && v < MAX_CLIENTS && w.ports[u].slot.evFd >= 0
    requires w.ports[v].slot.fd >= 0
    requires var r := Feed(cfg.loop, cfg, v, w.ports[v], chunk, os);
             !r.port.slot.wrecked && Feasible(w.kernel, r.effects)
    requires u == v ==> var f := Frames(w.ports[u].pending + chunk).frames; [QUIT] !in f && [SETUP_END] !in f
    ensures var w' := ServeBytes(cfg, w, v, chunk, os); var d := w.ports[u].slot.evFd;
            w'.ports[u].slot.evFd == d && SameDevice(w.kernel, w'.kernel, d)
  {
    hide Exclusive, Accounted, BuffersOk, Feasible, Drain, Absorb, Sound, Frames, DevicesOk, Authenticated;
    var p := w.ports[v];
    var r := Feed(cfg.loop, cfg, v, p, chunk, os);
    HoldsLive(cfg, w, u);
    assert SlotOk(cfg, p.slot, w.kernel, w.history[v]);
    if u == v {
      DeviceChanges(cfg.loop, cfg, v, p.slot, p.pending + chunk, os);
      DeviceFate(w.kernel, r.effects, w.ports[u].slot.evFd);
    } else {
      DrainKeeps(cfg.loop, cfg, v, p.slot, p.pending + chunk, os, w.kernel, w.history[v]);
    }
  }

  lemma DropKeepsDevice(cfg: Config, w: World, u: nat, v: nat, os: Os)
    requires Inv(cfg, w) && u < MAX_CLIENTS && v < MAX_CLIENTS && w.ports[u].slot.evFd >= 0
    ensures var w' := CloseSlot(w, v, false, os); var d := w.ports[u].slot.evFd;
            w'.ports[u].slot.evFd == d && SameDevice(w.kernel, w'.kernel, d)
  {
    HoldsLive(cfg, w, u);
    var s := w.ports[v].slot;
    AbsorbFew(w.kernel, Closed(s.fd), Closed(s.fd));
    assert [] + [Closed(s.fd)] == [Closed(s.fd)];
  }

  lemma WaitKeepsDevice(cfg: Config, w: World, u: nat, i: nat, chunk: Bytes, sent: bool, oses: Oses)
    requires Inv(cfg, w) && u < MAX_CLIENTS && i < MAX_WAITING_CLIENTS && w.ports[u].slot.evFd >= 0
    requires !Disturbs(w, WaitBytes(i, chunk, sent), u)
    ensures var w' := WaitStep(cfg, w, i, chunk, sent, oses); var d := w.ports[u].slot.evFd;
            w'.ports[u].slot.evFd == d && SameDevice(w.kernel, w'.kernel, d)
  {
    hide Exclusive, Accounted, BuffersOk, SlotsOk, DevicesExclusive, SlotOk, DevicesOk, Absorb;
    HoldsLive(cfg, w, u);
    var buf := w.waiting[i].pending + chunk;
    if |buf| >= HELLO_SIZE && buf[0] == HELLO && buf[1] == PROTOCOL_VERSION && Choose(w.ports, buf[2]).Evict? {
      var v := Choose(w.ports, buf[2]).u;
      EvictionIsLastResort(w.ports, buf[2], v);
      EvictSpares(cfg, w, u, v, oses(v));
    }
  }

  lemma EvictSpares(cfg: Config, w: World, u: nat, v: nat, os: Os)
    requires Inv(cfg, w) && u < MAX_CLIENTS && v < MAX_CLIENTS && u != v && w.ports[u].slot.evFd >= 0
    ensures var o := Cleanup(w.ports[v].slot, os);
            SameDevice(w.kernel, Absorb(w.kernel, o.effects), w.ports[u].slot.evFd)
  {
    hide Exclusive, Accounted, BuffersOk, SlotsOk;
    HoldsLive(cfg, w, u);
    var s := w.ports[v].slot;
    AbsorbFew(w.kernel, Destroyed(s.evFd), Destroyed(s.evFd));
  }

  predicate Undisturbed(cfg: Config, w: World, steps: seq<Step>, oses: Oses, u: nat)
    requires Shaped(w) && u < MAX_CLIENTS
    decreases |steps|
  {
    steps != [] ==>
      !Disturbs(w, steps[0], u) && Undisturbed(cfg, Next(cfg, w, steps[0], oses), steps[1..], oses, u)
  }

  /** A device survives every run without such a step: dropped connections,
      reconnects, other clients and their devices do not touch it. */
  lemma {:induction false} DeviceSurvives(cfg: Config, w: World, steps: seq<Step>, oses: Oses, u: nat)
    requires Inv(cfg, w) && LegalRun(cfg, w, steps, oses) && u < MAX_CLIENTS
    requires w.ports[u].slot.evFd >= 0 && Undisturbed(cfg, w, steps, oses, u)
    ensures var w' := Run(cfg, w, steps, oses); var d := w.ports[u].slot.evFd;
            w'.ports[u].slot.evFd == d && SameDevice(w.kernel, w'.kernel, d)
    decreases |steps|
  {
    hide Exclusive, Accounted, BuffersOk, DevicesExclusive, Next, Legal, Disturbs, DevicesOk, Authenticated;
    if steps == [] {
      HoldsLive(cfg, w, u);
    } else {
      var w1 := Next(cfg, w, steps[0], oses);
      StepKeeps(cfg, w, steps[0], oses);
      DeviceKept(cfg, w, steps[0], oses, u);
      DeviceSurvives(cfg, w1, steps[1..], oses, u);
    }
  }

  /** Resumption: after the connection of a slot was dropped and however long other
      clients went on, a HELLO that names the slot while it is free gets the very
      device it had, and is not asked to set one up. */
  lemma Resumption(cfg: Config, w: World, steps: seq<Step>, oses: Oses, u: nat, i: nat)
    requires Inv(cfg, w) && u < MAX_CLIENTS && i < MAX_WAITING_CLIENTS
    requires w.ports[u].slot.evFd >= 0
    requires LegalRun(cfg, w, [SlotDrop(u)] + steps, oses) && Undisturbed(cfg, w, [SlotDrop(u)] + steps, oses, u)
    requires var w1 := Run(cfg, w, [SlotDrop(u)] + steps, oses);
             w1.ports[u].slot.fd < 0 && w1.waiting[i].fd >= 0
    ensures var w1 := Run(cfg, w, [SlotDrop(u)] + steps, oses);
            var g := Hello(cfg, w1, i, [HELLO, PROTOCOL_VERSION, u + 1], true, oses);
            var d := w.ports[u].slot.evFd;
            && g.world.ports[u].slot.fd == w1.waiting[i].fd
            && g.world.ports[u].slot.evFd == d
            && SameDevice(w.kernel, g.world.kernel, d)
            && g.reply == (if cfg.password != [] then PASSWORD_REQUIRED else SUCCESS)
            && g.world.ports[u].slot.status == g.reply
  {
    hide Exclusive, Accounted, BuffersOk, DevicesExclusive, Next, Legal, Disturbs, SlotsOk, Run, LegalRun, Undisturbed;
    DeviceSurvives(cfg, w, [SlotDrop(u)] + steps, oses, u);
  }

  /** Setting up anew replaces the slot's device without destroying the old one:
      it stays alive while no slot holds it any more. */
  lemma ReSetupLeaks(cfg: Config, index: nat, s: Slot, os: Os, k: Kernel)
    requires index < 0xFF && Live(s) && s.status == SUCCESS && NameReadable(s.meta.name)
    requires s.evFd >= 0 && s.evFd in k.devices && Willing(os) && os(s.calls + 1) !in k.devices
    ensures IsFrame([SETUP_REQUIRED]) && IsFrame([SETUP_END])
    ensures var o := Interpret(cfg, index, s, [[SETUP_REQUIRED], [SETUP_END]], os); var k' := Absorb(k, o.effects);
            && o.slot.status == SUCCESS && o.slot.evFd == os(s.calls + 1) != s.evFd
            && s.evFd in k'.devices && o.slot.evFd in k'.devices
  {
    hide Dispatch, SpecWanted, Interpret, Absorb;
    var asking := s.(status := SETUP_REQUIRED, calls := s.calls + 1);
    AsksAgain(cfg, index, s, os);
    SetsUpOnceMore(cfg, index, asking, os);
    var second := Dispatch(cfg, index, asking, [SETUP_END], os);
    TwoMessages(cfg, index, s, [SETUP_REQUIRED], [SETUP_END], os);
    AbsorbAppend(k, [Sent([SETUP_REQUIRED], true)], second.effects);
    AbsorbFew(k, Sent([SETUP_REQUIRED], true), second.effects[0]);
    AbsorbFew(k, second.effects[0], second.effects[1]);
  }

  lemma AsksAgain(cfg: Config, index: nat, s: Slot, os: Os)
    requires index < 0xFF && Live(s) && s.status == SUCCESS && Willing(os)
    ensures IsFrame([SETUP_REQUIRED])
    ensures Dispatch(cfg, index, s, [SETUP_REQUIRED], os)
         == Outcome(s.(status := SETUP_REQUIRED, calls := s.calls + 1), [Sent([SETUP_REQUIRED], true)])
  {}

  lemma SetsUpOnceMore(cfg: Config, index: nat, s: Slot, os: Os)
    requires index < 0xFF && Live(s) && s.status == SETUP_REQUIRED && NameReadable(s.meta.name) && Willing(os)
    ensures IsFrame([SETUP_END])
    ensures var o := Dispatch(cfg, index, s, [SETUP_END], os);
            && Live(o.slot) && o.slot.status == SUCCESS && o.slot.evFd == os(s.calls)
            && o.effects == [Created(os(s.calls), SpecWanted(cfg, s.meta)), Sent([SUCCESS, index + 1], true)]
  {
    hide Creation, SpecNow, NameReadable, SpecWanted, WholePlan;
    WillingCreates(cfg, s, os);
  }

  lemma TwoMessages(cfg: Config, index: nat, s: Slot, a: Bytes, b: Bytes, os: Os)
    requires index < 0xFF && IsFrame(a) && IsFrame(b) && Live(s) && Live(Dispatch(cfg, index, s, a, os).slot)
    ensures var first := Dispatch(cfg, index, s, a, os);
            var second := Dispatch(cfg, index, first.slot, b, os);
            Interpret(cfg, index, s, [a, b], os) == Outcome(second.slot, first.effects + second.effects)
  {
    hide Dispatch;
    var first := Dispatch(cfg, index, s, a, os);
    var second := Dispatch(cfg, index, first.slot, b, os);
    assert [a, b][1..] == [b] && [b][1..] == [];
    assert Interpret(cfg, index, second.slot, [], os) == Outcome(second.slot, []);
    assert second.effects + [] == second.effects;
    assert Interpret(cfg, index, first.slot, [b], os) == second;
  }

  // ---------- the list of requested events ----------

  /** A message that ends the connection also ends the list of requested events if
      it is QUIT, if the list could not grow, or if there was none; after any other
      error the list outlives the connection, and the next client of the slot adds
      to it. A connection that ends in recv always clears it. */
  lemma EventsOutliveErrors(cfg: Config, index: nat, s: Slot, msg: Bytes, os: Os)
    requires index < 0xFF && IsFrame(msg) && Live(s)
    requires var o := Dispatch(cfg, index, s, msg, os); o.slot.fd == -1 && !o.slot.wrecked
    ensures Dispatch(cfg, index, s, msg, os).slot.meta.enabled == []
       <==> || s.meta.enabled == []
            || msg[0] == QUIT
            || (msg[0] == REQUEST_EVENT && s.status == SETUP_REQUIRED && Allowed(cfg, DecodeRequest(msg)))
    ensures Close(s, false, os).slot.meta.enabled == []
  {}

  /** Auxiliary: closing is final. It leaves no socket, no status and no requested events, and
      closing again does nothing more. With cleanup the device and everything the
      client had set up goes as well, unless the kernel refuses. */
  lemma ClosedForGood(s: Slot, cleanup: bool, os: Os)
    ensures var o := Close(s, cleanup, os);
            && o.slot.fd == -1 && o.slot.status == UNCONN && o.slot.meta.enabled == []
            && (Closed(s.fd) in o.effects <==> s.fd >= 0)
            && Close(o.slot, false, os) == Outcome(o.slot, [])
            && (!cleanup ==> o.slot.evFd == s.evFd && o.slot.meta.name == s.meta.name
                             && o.slot.meta.absinfo == s.meta.absinfo)
            && (cleanup && s.evFd >= 0 && os(s.calls) >= 0 ==> o.slot.evFd == -1 && o.slot.meta == EmptyMeta())
  {}

  /** Auxiliary: QUIT gives up socket and device, unless the kernel refuses to destroy it. */
  lemma QuitReleases(cfg: Config, index: nat, s: Slot, os: Os)
    requires index < 0xFF && Live(s)
    ensures IsFrame([QUIT])
    ensures var o := Dispatch(cfg, index, s, [QUIT], os);
            && o.slot.fd == -1 && Closed(s.fd) in o.effects
            && (o.slot.evFd >= 0 <==> s.evFd >= 0 && os(s.calls) < 0)
            && (Destroyed(s.evFd) in o.effects <==> s.evFd >= 0 && os(s.calls) >= 0)
  {}

  // ---------- statuses ----------

  /** The status a message is meant for. */
  function TurnOf(t: Byte): Byte {
    if t == PASSWORD then PASSWORD_REQUIRED
    else if t == DATA || t == SETUP_REQUIRED then SUCCESS
    else SETUP_REQUIRED
  }

  /** The messages a server takes from a connected client, QUIT aside. */
  predicate FromClient(t: Byte) {
    t in {PASSWORD, ABSINFO, DEVICE, REQUEST_EVENT, SETUP_REQUIRED, SETUP_END, DATA}
  }

  /** A message out of its turn, or of a type no client should send, changes nothing
      about the slot. PASSWORD and DATA are skipped; everything else ends the
      connection, with a word about it only for REQUEST_EVENT and SETUP_END. */
  lemma OutOfTurn(cfg: Config, index: nat, s: Slot, msg: Bytes, os: Os)
    requires index < 0xFF && IsFrame(msg) && Live(s) && msg[0] != QUIT
    requires s.status != TurnOf(msg[0]) || !FromClient(msg[0])
    ensures var o := Dispatch(cfg, index, s, msg, os);
            && o.slot.evFd == s.evFd && o.slot.meta == s.meta && o.slot.status == s.status
            && o.slot.fd == (if msg[0] == PASSWORD || msg[0] == DATA then s.fd else -1)
            && (forall e | e in o.effects :: e.Sent? || e == Closed(s.fd))
            && ((exists e :: e in o.effects && e.Sent?) <==> msg[0] == REQUEST_EVENT || msg[0] == SETUP_END)
            && (forall e | e in o.effects && e.Sent? :: e.reply == [INVALID])
  {
    hide StrncmpEqual, Creation, SpecNow;
    var o := Dispatch(cfg, index, s, msg, os);
    if msg[0] == REQUEST_EVENT || msg[0] == SETUP_END {
      assert o.effects[0].Sent? && o.effects[0] in o.effects;
    }
  }

  /** The only ways a connected slot changes its status; in each of them the client
      is told the status it is in. */
  lemma StatusMachine(cfg: Config, index: nat, s: Slot, msg: Bytes, os: Os)
    requires index < 0xFF && IsFrame(msg) && Live(s)
    ensures var o := Dispatch(cfg, index, s, msg, os);
            Live(o.slot) && o.slot.status != s.status ==>
              && msg[0] != QUIT && s.status == TurnOf(msg[0])
              && (exists e :: e in o.effects && e.Sent? && e.ok && e.reply[..1] == [o.slot.status])
              && (if msg[0] == PASSWORD then
                    && (o.slot.status == INVALID_PASSWORD <==> !StrncmpEqual(cfg.password, msg[PASSWORD_SIZE..]))
                    && (o.slot.status == SUCCESS ==> s.evFd >= 0)
                    && (o.slot.status == SETUP_REQUIRED ==> s.evFd < 0)
                    && o.slot.status in {INVALID_PASSWORD, SETUP_REQUIRED, SUCCESS}
                  else if msg == [SETUP_REQUIRED] then o.slot.status == SETUP_REQUIRED && o.slot.evFd == s.evFd
                  else msg == [SETUP_END] && o.slot.status == SUCCESS && o.slot.evFd >= 0)
  {
    hide StrncmpEqual, Creation, SpecNow;
    var o := Dispatch(cfg, index, s, msg, os);
    if Live(o.slot) && o.slot.status != s.status {
      if msg[0] == PASSWORD || msg[0] == SETUP_END {
        assert o.effects[1].Sent? && o.effects[1] in o.effects;
      } else {
        assert o.effects[0].Sent? && o.effects[0] in o.effects;
      }
    }
  }

  /** A wrong password is final: whatever the client sends on, it is never asked
      to set up a device, never creates one and never writes to one. */
  lemma {:induction false} InvalidPasswordIsFinal(rule: Rule, cfg: Config, index: nat, s: Slot, buf: Bytes, os: Os)
    requires index < 0xFF && s.status == INVALID_PASSWORD
    ensures var r := Drain(rule, cfg, index, s, buf, os);
            && (Live(r.port.slot) ==> r.port.slot.status == INVALID_PASSWORD)
            && (forall e | e in r.effects :: !e.Created? && !e.Wrote?)
    decreases |buf|
  {
    hide Dispatch;
    var n := HeadFrame(buf);
    if Live(s) && n > 0 && !(LoneHeader(buf) && rule == AsWritten) {
      var first := Dispatch(cfg, index, s, buf[..n], os);
      InvalidPasswordDispatch(cfg, index, s, buf[..n], os);
      if Live(first.slot) {
        InvalidPasswordIsFinal(rule, cfg, index, first.slot, buf[n..], os);
      }
    }
  }

  lemma InvalidPasswordDispatch(cfg: Config, index: nat, s: Slot, msg: Bytes, os: Os)
    requires index < 0xFF && IsFrame(msg) && s.status == INVALID_PASSWORD
    ensures var o := Dispatch(cfg, index, s, msg, os);
            && (Live(o.slot) ==> o.slot.status == INVALID_PASSWORD)
            && (forall e | e in o.effects :: !e.Created? && !e.Wrote?)
  {}

  // ---------- shutdown ----------

  /** The end of main closes every slot; a device it leaves is one the kernel
      refused to destroy. */
  lemma {:induction false} ShutdownReleases(cfg: Config, w: World, n: nat, oses: Oses)
    requires Inv(cfg, w) && n <= MAX_CLIENTS
    ensures var r := CloseFirst(w, n, oses);
            && r.waiting == w.waiting
            && (forall u | n <= u < MAX_CLIENTS :: r.ports[u] == w.ports[u])
            && (forall u | 0 <= u < n :: r.ports[u].slot.fd == -1
                  && (r.ports[u].slot.evFd >= 0 <==> w.ports[u].slot.evFd >= 0 && oses(u)(w.ports[u].slot.calls) < 0))
  {
    hide Exclusive, Accounted, BuffersOk, DevicesExclusive, SlotsOk, Absorb;
    if n > 0 {
      ShutdownReleases(cfg, w, n - 1, oses);
    }
  }
}
