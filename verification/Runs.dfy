/** Properties of every run of the server: who holds which socket and device,
    what a connected slot may rely on, and which steps can touch it. */
module Runs {
  import opened Protocol
  import opened Slots
  import opened Kernel
  import opened World
  import opened Fragmentation

  // ---------- one lemma per kind of change ----------

  /** Serving slot u in a way that keeps the slot's invariants keeps them all. */
  lemma PutKeeps(cfg: Config, w: World, u: nat, p: Port, effects: seq<Effect>)
    requires Inv(cfg, w) && u < MAX_CLIENTS
    requires Serves(cfg, w.ports[u].slot, p.slot, effects, w.kernel, w.history[u])
    requires |p.pending| <= INPUT_BUFFER_SIZE && (|p.pending| < MAX_FRAME || Stuck(p.pending))
    ensures Inv(cfg, Put(w, u, p, effects))
  {
    hide Absorb, Sound, DevicesOk;
    PutSockets(cfg, w, u, p, effects);
    PutDevices(cfg, w, u, p, effects);
  }

  lemma PutSockets(cfg: Config, w: World, u: nat, p: Port, effects: seq<Effect>)
    requires Inv(cfg, w) && u < MAX_CLIENTS
    requires Local(w.ports[u].slot, w.kernel, p.slot, Absorb(w.kernel, effects))
    ensures Exclusive(Put(w, u, p, effects)) && Accounted(Put(w, u, p, effects))
  {
    hide Absorb, SlotsOk, BuffersOk, DevicesExclusive;
    var w' := Put(w, u, p, effects);
    assert forall e | 0 <= e < MAX_CLIENTS + MAX_WAITING_CLIENTS && e != u :: Fd(w', e) == Fd(w, e);
    assert Fd(w', u) == p.slot.fd && Fd(w, u) == w.ports[u].slot.fd;
  }

  lemma PutDevices(cfg: Config, w: World, u: nat, p: Port, effects: seq<Effect>)
    requires Inv(cfg, w) && u < MAX_CLIENTS
    requires Serves(cfg, w.ports[u].slot, p.slot, effects, w.kernel, w.history[u])
    ensures DevicesExclusive(Put(w, u, p, effects)) && SlotsOk(cfg, Put(w, u, p, effects))
  {
    hide Absorb, Sound, DevicesOk, BuffersOk, Accounted, Authenticated;
    var w' := Put(w, u, p, effects);
    var s := w.ports[u].slot;
    forall v | 0 <= v < MAX_CLIENTS && v != u
      ensures SlotOk(cfg, w'.ports[v].slot, w'.kernel, w'.history[v])
      ensures w.ports[v].slot.evFd >= 0 ==> w.ports[v].slot.evFd != p.slot.evFd
    {
      var t := w.ports[v].slot;
      assert SlotOk(cfg, t, w.kernel, w.history[v]);
      assert t.fd >= 0 ==> Fd(w, v) != Fd(w, u);
      assert t.evFd >= 0 ==> t.evFd != s.evFd;
    }
  }

  /** Waiting entries and sockets change, slots and devices do not. */
  lemma WaitingKeeps(cfg: Config, w: World, w': World)
    requires Inv(cfg, w) && Shaped(w')
    requires w'.ports == w.ports && w'.history == w.history && w'.kernel.devices == w.kernel.devices
    requires forall u | 0 <= u < MAX_CLIENTS :: w.ports[u].slot.fd >= 0 ==> w.ports[u].slot.fd in w'.kernel.sockets
    ensures SlotsOk(cfg, w') && DevicesExclusive(w')
  {
    hide Authenticated, BuffersOk, Accounted, Exclusive;
    forall u | 0 <= u < MAX_CLIENTS
      ensures SlotOk(cfg, w'.ports[u].slot, w'.kernel, w'.history[u])
    {
      assert SlotOk(cfg, w.ports[u].slot, w.kernel, w.history[u]);
    }
  }

  lemma AcceptKeeps(cfg: Config, w: World, result: int)
    requires Inv(cfg, w)
    requires result != 0 && (result > 0 ==> result !in w.kernel.sockets)
    ensures Inv(cfg, AcceptStep(w, result))
  {
    hide SlotOk, DevicesOk;
    var w' := AcceptStep(w, result);
    var i := FreeEntry(w.waiting, 0);
    if i < MAX_WAITING_CLIENTS {
      assert forall e | 0 <= e < MAX_CLIENTS + MAX_WAITING_CLIENTS && e != MAX_CLIENTS + i :: Fd(w', e) == Fd(w, e);
      assert Fd(w', MAX_CLIENTS + i) == if result < 0 then -1 else result;
      assert Fd(w, MAX_CLIENTS + i) < 0;
      assert forall u | 0 <= u < MAX_CLIENTS :: Fd(w, u) == w.ports[u].slot.fd;
      WaitingKeeps(cfg, w, w');
    }
  }

  /** Hanging up on entry i, with whatever bytes it keeps. */
  lemma HangUpWaitingKeeps(cfg: Config, w: World, w': World, i: nat)
    requires Inv(cfg, w) && i < MAX_WAITING_CLIENTS && w.waiting[i].fd >= 0
    requires |w'.waiting| == MAX_WAITING_CLIENTS
    requires w' == w.(waiting := w'.waiting, kernel := w.kernel.(sockets := w.kernel.sockets - {w.waiting[i].fd}))
    requires forall j | 0 <= j < MAX_WAITING_CLIENTS && j != i :: w'.waiting[j] == w.waiting[j]
    requires w'.waiting[i].fd == -1 && |w'.waiting[i].pending| < HELLO_SIZE
    ensures Inv(cfg, w')
  {
    hide Exclusive, Accounted, SlotsOk, DevicesExclusive;
    HangUpSockets(cfg, w, w', i);
    WaitingKeeps(cfg, w, w');
  }

  lemma HangUpSockets(cfg: Config, w: World, w': World, i: nat)
    requires Inv(cfg, w) && i < MAX_WAITING_CLIENTS && w.waiting[i].fd >= 0
    requires |w'.waiting| == MAX_WAITING_CLIENTS
    requires w' == w.(waiting := w'.waiting, kernel := w.kernel.(sockets := w.kernel.sockets - {w.waiting[i].fd}))
    requires forall j | 0 <= j < MAX_WAITING_CLIENTS && j != i :: w'.waiting[j] == w.waiting[j]
    requires w'.waiting[i].fd == -1
    ensures Exclusive(w') && Accounted(w')
    ensures forall u | 0 <= u < MAX_CLIENTS :: w.ports[u].slot.fd >= 0 ==> w.ports[u].slot.fd in w'.kernel.sockets
  {
    hide SlotsOk, DevicesExclusive, BuffersOk;
    assert forall e | 0 <= e < MAX_CLIENTS + MAX_WAITING_CLIENTS && e != MAX_CLIENTS + i :: Fd(w', e) == Fd(w, e);
    assert Fd(w', MAX_CLIENTS + i) == -1 && Fd(w, MAX_CLIENTS + i) == w.waiting[i].fd;
    assert forall u | 0 <= u < MAX_CLIENTS :: Fd(w', u) == w.ports[u].slot.fd;
    assert Exclusive(w');
  }

  lemma PromoteKeeps(cfg: Config, w: World, i: nat, u: nat, sent: bool)
    requires Inv(cfg, w) && i < MAX_WAITING_CLIENTS && u < MAX_CLIENTS
    requires w.waiting[i].fd >= 0 && w.ports[u].slot.fd < 0
    ensures Inv(cfg, Promote(cfg, w, i, u, sent).world)
  {
    var w' := Promote(cfg, w, i, u, sent).world;
    if !sent {
      HangUpWaitingKeeps(cfg, w, w', i);
    } else {
      PromoteSockets(cfg, w, i, u);
      PromoteSlots(cfg, w, i, u);
    }
  }

  /** Promotion moves the socket: the slot held none, the entry holds none afterwards. */
  lemma PromoteSockets(cfg: Config, w: World, i: nat, u: nat)
    requires Inv(cfg, w) && i < MAX_WAITING_CLIENTS && u < MAX_CLIENTS
    requires w.waiting[i].fd >= 0 && w.ports[u].slot.fd < 0
    ensures var w' := Promote(cfg, w, i, u, true).world; Exclusive(w') && Accounted(w')
  {
    hide SlotsOk, DevicesExclusive, BuffersOk;
    var w' := Promote(cfg, w, i, u, true).world;
    assert forall e | 0 <= e < MAX_CLIENTS + MAX_WAITING_CLIENTS && e != MAX_CLIENTS + i && e != u ::
        Fd(w', e) == Fd(w, e);
    assert Fd(w', MAX_CLIENTS + i) == -1 && Fd(w', u) == Fd(w, MAX_CLIENTS + i) == w.waiting[i].fd;
    assert Fd(w, u) < 0;
  }

  lemma PromoteSlots(cfg: Config, w: World, i: nat, u: nat)
    requires Inv(cfg, w) && i < MAX_WAITING_CLIENTS && u < MAX_CLIENTS
    requires w.waiting[i].fd >= 0 && w.ports[u].slot.fd < 0
    ensures var w' := Promote(cfg, w, i, u, true).world; SlotsOk(cfg, w') && DevicesExclusive(w')
  {
    hide Exclusive, BuffersOk, Authenticated;
    var w' := Promote(cfg, w, i, u, true).world;
    assert Fd(w, MAX_CLIENTS + i) in w.kernel.sockets;
    assert SlotOk(cfg, w.ports[u].slot, w.kernel, w.history[u]);
    assert SlotOk(cfg, w'.ports[u].slot, w'.kernel, w'.history[u]);
    forall v | 0 <= v < MAX_CLIENTS && v != u
      ensures SlotOk(cfg, w'.ports[v].slot, w'.kernel, w'.history[v])
    {
      assert SlotOk(cfg, w.ports[v].slot, w.kernel, w.history[v]);
    }
  }

  // ---------- every step, every run ----------

  lemma StartOk(cfg: Config)
    ensures Inv(cfg, Start())
  {}

  lemma ServeBytesKeeps(cfg: Config, w: World, u: nat, chunk: Bytes, os: Os)
    requires Inv(cfg, w) && u < MAX_CLIENTS && w.ports[u].slot.fd >= 0
    requires |chunk| <= INPUT_BUFFER_SIZE - |w.ports[u].pending|
    requires var r := Feed(cfg.loop, cfg, u, w.ports[u], chunk, os);
             !r.port.slot.wrecked && Feasible(w.kernel, r.effects)
    ensures Inv(cfg, ServeBytes(cfg, w, u, chunk, os))
  {
    hide Drain, Absorb, Sound, Feasible;
    var p := w.ports[u];
    assert SlotOk(cfg, p.slot, w.kernel, w.history[u]);
    DrainKeeps(cfg.loop, cfg, u, p.slot, p.pending + chunk, os, w.kernel, w.history[u]);
    PendingBound(cfg.loop, cfg, u, p.slot, p.pending + chunk, os);
    var r := Feed(cfg.loop, cfg, u, p, chunk, os);
    PutKeeps(cfg, w, u, r.port, r.effects);
  }

  lemma CloseSlotKeeps(cfg: Config, w: World, u: nat, cleanup: bool, os: Os)
    requires Inv(cfg, w) && u < MAX_CLIENTS
    ensures Inv(cfg, CloseSlot(w, u, cleanup, os))
  {
    hide Absorb, Sound, Close;
    var o := Close(w.ports[u].slot, cleanup, os);
    assert SlotOk(cfg, w.ports[u].slot, w.kernel, w.history[u]);
    CloseKeeps(cfg, w.ports[u].slot, cleanup, os, w.kernel, w.history[u]);
    PutKeeps(cfg, w, u, Port(o.slot, []), o.effects);
  }

  lemma {:induction false} CloseFirstKeeps(cfg: Config, w: World, n: nat, oses: Oses)
    requires Inv(cfg, w) && n <= MAX_CLIENTS
    ensures Inv(cfg, CloseFirst(w, n, oses))
  {
    hide CloseSlot, SlotsOk, Exclusive, Accounted, DevicesExclusive, BuffersOk;
    if n > 0 {
      CloseFirstKeeps(cfg, w, n - 1, oses);
      CloseSlotKeeps(cfg, CloseFirst(w, n - 1, oses), n - 1, true, oses(n - 1));
    }
  }

  /** Making room for a client that takes the lowest disconnected slot. */
  function Evicted(w: World, u: nat, os: Os): (r: World)
    requires Shaped(w) && u < MAX_CLIENTS
    ensures Shaped(r)
  {
    var o := Cleanup(w.ports[u].slot, os);
    Put(w, u, Port(o.slot, []), o.effects)
  }

  lemma EvictedKeeps(cfg: Config, w: World, u: nat, os: Os)
    requires Inv(cfg, w) && u < MAX_CLIENTS && w.ports[u].slot.fd < 0
    ensures var r := Evicted(w, u, os); Inv(cfg, r) && r.waiting == w.waiting && r.ports[u].slot.fd == -1
  {
    hide Absorb, Sound, Cleanup;
    var o := Cleanup(w.ports[u].slot, os);
    assert SlotOk(cfg, w.ports[u].slot, w.kernel, w.history[u]);
    CleanupKeeps(cfg, w.ports[u].slot, os, w.kernel, w.history[u]);
    PutKeeps(cfg, w, u, Port(o.slot, []), o.effects);
  }

  /** A slot is only ever given away while it has no connection. */
  lemma ChosenIsFree(cfg: Config, w: World, wanted: Byte)
    requires Inv(cfg, w)
    ensures var c := Choose(w.ports, wanted); !c.Refuse? ==> c.u < MAX_CLIENTS && w.ports[c.u].slot.fd < 0
  {
    hide SlotOk, DevicesOk, Exclusive;
    if 0 < wanted <= MAX_CLIENTS {
      assert Fd(w, wanted - 1) != 0;
    }
  }

  lemma HelloKeeps(cfg: Config, w: World, i: nat, msg: Bytes, sent: bool, oses: Oses)
    requires Inv(cfg, w) && i < MAX_WAITING_CLIENTS && w.waiting[i].fd >= 0 && |msg| >= HELLO_SIZE
    ensures Inv(cfg, Hello(cfg, w, i, msg, sent, oses).world)
  {
    hide SlotOk, DevicesOk, Exclusive, Accounted, SlotsOk, BuffersOk, DevicesExclusive, Choose, Promote, Put;
    HangUpWaitingKeeps(cfg, w, TurnAway(w, i), i);
    if msg[0] == HELLO && msg[1] == PROTOCOL_VERSION {
      ChosenIsFree(cfg, w, msg[2]);
      match Choose(w.ports, msg[2])
      case Refuse(_) =>
      case Take(u) => PromoteKeeps(cfg, w, i, u, sent);
      case Evict(u) =>
        EvictedKeeps(cfg, w, u, oses(u));
        PromoteKeeps(cfg, Evicted(w, u, oses(u)), i, u, sent);
    }
  }

  lemma WaitKeeps(cfg: Config, w: World, i: nat, chunk: Bytes, sent: bool, oses: Oses)
    requires Inv(cfg, w) && i < MAX_WAITING_CLIENTS && w.waiting[i].fd >= 0
    ensures Inv(cfg, WaitStep(cfg, w, i, chunk, sent, oses))
  {
    hide SlotOk, DevicesOk, Hello;
    var buf := w.waiting[i].pending + chunk;
    if |buf| >= HELLO_SIZE {
      HelloKeeps(cfg, w, i, buf, sent, oses);
    } else {
      var w' := WaitStep(cfg, w, i, chunk, sent, oses);
      assert forall e | 0 <= e < MAX_CLIENTS + MAX_WAITING_CLIENTS :: Fd(w', e) == Fd(w, e);
      forall u | 0 <= u < MAX_CLIENTS
        ensures w.ports[u].slot.fd >= 0 ==> w.ports[u].slot.fd in w'.kernel.sockets
      {
        assert Fd(w, u) == w.ports[u].slot.fd;
      }
      WaitingKeeps(cfg, w, w');
    }
  }

  /** Every legal step keeps every invariant. */
  lemma StepKeeps(cfg: Config, w: World, step: Step, oses: Oses)
    requires Inv(cfg, w) && Legal(cfg, w, step, oses)
    ensures Inv(cfg, Next(cfg, w, step, oses))
  {
    hide SlotsOk, Exclusive, Accounted, DevicesExclusive, AcceptStep, ServeBytes, CloseSlot, CloseFirst, WaitStep,
      Feasible, Feed;
    match step
    case Accept(result) => AcceptKeeps(cfg, w, result);
    case SlotBytes(u, chunk) => ServeBytesKeeps(cfg, w, u, chunk, oses(u));
    case SlotDrop(u) => CloseSlotKeeps(cfg, w, u, false, oses(u));
    case WaitBytes(i, chunk, sent) => WaitKeeps(cfg, w, i, chunk, sent, oses);
    case WaitDrop(i) => HangUpWaitingKeeps(cfg, w, DropWaiting(w, i), i);
    case Shutdown => CloseFirstKeeps(cfg, w, |w.ports|, oses);
  }

  /** Every legal run keeps every invariant. */
  lemma {:induction false} RunKeeps(cfg: Config, w: World, steps: seq<Step>, oses: Oses)
    requires Inv(cfg, w) && LegalRun(cfg, w, steps, oses)
    ensures Inv(cfg, Run(cfg, w, steps, oses))
    decreases |steps|
  {
    hide SlotsOk, Exclusive, Accounted, DevicesExclusive, BuffersOk, Next, Legal;
    if steps != [] {
      StepKeeps(cfg, w, steps[0], oses);
      RunKeeps(cfg, Next(cfg, w, steps[0], oses), steps[1..], oses);
    }
  }

  // ---------- what the invariant says about every run from the start ----------

  /** Socket ownership: the open client sockets are exactly the descriptors in the
      two tables, and no descriptor is in two entries. */
  lemma SocketOwnership(cfg: Config, steps: seq<Step>, oses: Oses)
    requires LegalRun(cfg, Start(), steps, oses)
    ensures var w := Run(cfg, Start(), steps, oses);
            && (forall fd :: fd in w.kernel.sockets <==>
                  fd >= 0 && exists e | 0 <= e < MAX_CLIENTS + MAX_WAITING_CLIENTS :: Fd(w, e) == fd)
            && (forall e, f | 0 <= e < f < MAX_CLIENTS + MAX_WAITING_CLIENTS :: Fd(w, e) >= 0 ==> Fd(w, e) != Fd(w, f))
  {
    hide SlotsOk, DevicesExclusive, BuffersOk, LegalRun, Run;
    StartOk(cfg);
    RunKeeps(cfg, Start(), steps, oses);
  }

  /** Device liveness: a connected slot in SUCCESS has a device, that device is
      alive, and it belongs to no other slot. */
  lemma DeviceLiveness(cfg: Config, steps: seq<Step>, oses: Oses, u: nat)
    requires LegalRun(cfg, Start(), steps, oses) && u < MAX_CLIENTS
    ensures var w := Run(cfg, Start(), steps, oses); var s := w.ports[u].slot;
            s.fd >= 0 && s.status == SUCCESS ==>
              && s.evFd in w.kernel.devices
              && forall v | 0 <= v < MAX_CLIENTS && v != u :: w.ports[v].slot.evFd != s.evFd
  {
    hide Exclusive, Accounted, BuffersOk, LegalRun, Run, Authenticated;
    StartOk(cfg);
    RunKeeps(cfg, Start(), steps, oses);
    var w := Run(cfg, Start(), steps, oses);
    assert SlotOk(cfg, w.ports[u].slot, w.kernel, w.history[u]);
  }

  /** Authentication history: where a password is set, a connected slot that may
      set up a device or send events has had a PASSWORD accepted since its HELLO. */
  lemma AuthenticationHistory(cfg: Config, steps: seq<Step>, oses: Oses, u: nat)
    requires LegalRun(cfg, Start(), steps, oses) && u < MAX_CLIENTS && cfg.password != []
    ensures var w := Run(cfg, Start(), steps, oses); var s := w.ports[u].slot;
            s.fd >= 0 && (s.status == SETUP_REQUIRED || s.status == SUCCESS) ==>
              exists e :: e in w.history[u] && e.Judged? && StrncmpEqual(cfg.password, e.payload)
  {
    hide Exclusive, Accounted, BuffersOk, LegalRun, Run, DevicesExclusive;
    StartOk(cfg);
    RunKeeps(cfg, Start(), steps, oses);
    var w := Run(cfg, Start(), steps, oses);
    assert SlotOk(cfg, w.ports[u].slot, w.kernel, w.history[u]);
  }

  /** A payload as the clients send it: a string and its NUL. */
  predicate CarriesNul(payload: Bytes) {
    |payload| > 0 && payload[|payload| - 1] == 0 && 0 !in payload[..|payload| - 1]
  }

  /** If every password that was judged carried its NUL, then the accepted one is
      the configured password itself. */
  lemma AuthenticatedByPassword(cfg: Config, steps: seq<Step>, oses: Oses, u: nat)
    requires LegalRun(cfg, Start(), steps, oses) && u < MAX_CLIENTS && cfg.password != []
    requires var w := Run(cfg, Start(), steps, oses);
             forall e | e in w.history[u] && e.Judged? :: CarriesNul(e.payload)
    ensures var w := Run(cfg, Start(), steps, oses); var s := w.ports[u].slot;
            s.fd >= 0 && (s.status == SETUP_REQUIRED || s.status == SUCCESS) ==>
              exists e :: e in w.history[u] && e.Judged? && e.payload == cfg.password + [0]
  {
    hide LegalRun, Run, StrncmpEqual;
    AuthenticationHistory(cfg, steps, oses, u);
    var w := Run(cfg, Start(), steps, oses);
    var s := w.ports[u].slot;
    if s.fd >= 0 && (s.status == SETUP_REQUIRED || s.status == SUCCESS) {
      var e :| e in w.history[u] && e.Judged? && StrncmpEqual(cfg.password, e.payload);
      var n := |e.payload| - 1;
      AcceptanceIsEquality(cfg.password, e.payload[..n]);
      assert e.payload == e.payload[..n] + [0];
    }
  }

  /** Whitelist end to end: every code enabled on any device is within the
      ranges of its tables and on the whitelist. */
  lemma WhitelistEndToEnd(cfg: Config, steps: seq<Step>, oses: Oses)
    requires LegalRun(cfg, Start(), steps, oses)
    ensures var w := Run(cfg, Start(), steps, oses);
            forall d, e :: d in w.kernel.devices && e in w.kernel.devices[d].spec.capabilities.codes ==>
              e.kind < EV_MAX && e.code < KEY_MAX && e in cfg.whitelist
  {
    hide Exclusive, Accounted, BuffersOk, LegalRun, Run, DevicesExclusive, SlotOk;
    StartOk(cfg);
    RunKeeps(cfg, Start(), steps, oses);
  }

  /** Buffer bound: an open slot leaves recv room for at least 760 bytes, unless
      it is stuck on a byte that is no message type. */
  lemma RoomForMore(cfg: Config, steps: seq<Step>, oses: Oses, u: nat)
    requires LegalRun(cfg, Start(), steps, oses) && u < MAX_CLIENTS
    ensures var p := Run(cfg, Start(), steps, oses).ports[u];
            && |p.pending| <= INPUT_BUFFER_SIZE
            && (INPUT_BUFFER_SIZE - |p.pending| >= 760 || Stuck(p.pending))
  {
    hide Exclusive, Accounted, LegalRun, Run, DevicesExclusive, SlotsOk;
    StartOk(cfg);
    RunKeeps(cfg, Start(), steps, oses);
  }

  /** Serving a slot of a reachable server writes only to living devices, destroys
      only living devices and closes only open sockets. */
  lemma OnlyLiveDescriptors(cfg: Config, steps: seq<Step>, oses: Oses, u: nat, chunk: Bytes)
    requires LegalRun(cfg, Start(), steps, oses)
    requires Legal(cfg, Run(cfg, Start(), steps, oses), SlotBytes(u, chunk), oses)
    ensures var w := Run(cfg, Start(), steps, oses);
            Sound(w.kernel, Feed(cfg.loop, cfg, u, w.ports[u], chunk, oses(u)).effects)
  {
    hide Exclusive, Accounted, LegalRun, Run, DevicesExclusive, BuffersOk, Drain, Sound;
    StartOk(cfg);
    RunKeeps(cfg, Start(), steps, oses);
    var w := Run(cfg, Start(), steps, oses);
    assert SlotOk(cfg, w.ports[u].slot, w.kernel, w.history[u]);
    DrainKeeps(cfg.loop, cfg, u, w.ports[u].slot, w.ports[u].pending + chunk, oses(u), w.kernel, w.history[u]);
  }
}
