/** Where every virtual device of the server is: held by one slot, or left behind
    by a client that set up a new one. */
module Devices {
  import opened Protocol
  import opened Slots
  import opened Kernel
  import opened World
  import opened Runs

  function Held(evFd: int): set<int> {
    if evFd >= 0 then {evFd} else {}
  }

  /** The descriptor a slot holds after its effects. */
  function HeldAfter(evFd: int, effects: seq<Effect>): int
    decreases |effects|
  {
    if effects == [] then evFd
    else HeldAfter(match effects[0] { case Created(d, _) => d case Destroyed(_) => -1 case _ => evFd }, effects[1..])
  }

  /** The devices that a newer one took the place of. */
  function Replaced(evFd: int, effects: seq<Effect>): set<int>
    decreases |effects|
  {
    if effects == [] then {}
    else
      match effects[0]
      case Created(d, _) => Held(evFd) + Replaced(d, effects[1..])
      case Destroyed(_) => Replaced(-1, effects[1..])
      case _ => Replaced(evFd, effects[1..])
  }

  /** A slot destroys no device but the one it holds. */
  predicate OwnDevices(evFd: int, effects: seq<Effect>)
    decreases |effects|
  {
    effects != [] ==>
      match effects[0]
      case Created(d, _) => d >= 0 && OwnDevices(d, effects[1..])
      case Destroyed(d) => d == evFd >= 0 && OwnDevices(-1, effects[1..])
      case _ => OwnDevices(evFd, effects[1..])
  }

  lemma {:induction false} DevicesAppend(evFd: int, a: seq<Effect>, b: seq<Effect>)
    ensures HeldAfter(evFd, a + b) == HeldAfter(HeldAfter(evFd, a), b)
    ensures Replaced(evFd, a + b) == Replaced(evFd, a) + Replaced(HeldAfter(evFd, a), b)
    ensures OwnDevices(evFd, a + b) <==> OwnDevices(evFd, a) && OwnDevices(HeldAfter(evFd, a), b)
    decreases |a|
  {
    if a == [] {
      assert a + b == b;
    } else {
      assert (a + b)[0] == a[0] && (a + b)[1..] == a[1..] + b;
      var next := match a[0] { case Created(d, _) => d case Destroyed(_) => -1 case _ => evFd };
      DevicesAppend(next, a[1..], b);
    }
  }

  /** Serving a slot moves its devices: what was alive stays, except the one held
      before; what was replaced and what is held now is alive as well. */
  lemma {:induction false} DevicesAfter(k: Kernel, evFd: int, effects: seq<Effect>)
    requires Feasible(k, effects) && OwnDevices(evFd, effects) && Held(evFd) <= k.devices.Keys
    ensures var held := HeldAfter(evFd, effects);
            && Absorb(k, effects).devices.Keys == k.devices.Keys - Held(evFd) + Replaced(evFd, effects) + Held(held)
            && (held == evFd || held < 0 || held !in k.devices)
            && Held(held) !! Replaced(evFd, effects)
            && (forall d | d in Replaced(evFd, effects) :: d >= 0 && (d == evFd || d !in k.devices))
    decreases |effects|
  {
    hide Feasible;
    if effects != [] {
      FeasibleHead(k, effects);
      var k1 := AbsorbOne(k, effects[0]);
      var next := match effects[0] { case Created(d, _) => d case Destroyed(_) => -1 case _ => evFd };
      assert effects[0].Created? ==> k1.devices.Keys == k.devices.Keys + {next} && next !in k.devices;
      assert effects[0].Destroyed? ==> k1.devices.Keys == k.devices.Keys - {evFd};
      assert !effects[0].Created? && !effects[0].Destroyed? ==> k1.devices.Keys == k.devices.Keys;
      DevicesAfter(k1, next, effects[1..]);
    }
  }

  lemma FeasibleHead(k: Kernel, effects: seq<Effect>)
    requires Feasible(k, effects) && effects != []
    ensures FeasibleOne(k, effects[0]) && Feasible(AbsorbOne(k, effects[0]), effects[1..])
  {}

  // ---------- one slot ----------

  /** Whether serving a message leaves the slot's device behind: the client ends a
      setup although it still has a device, and the new device can be created. */
  predicate SetsUpAgain(cfg: Config, s: Slot, msg: Bytes, os: Os) {
    msg == [SETUP_END] && s.status == SETUP_REQUIRED && s.evFd >= 0 && Creation(cfg, s, os).fd >= 0
  }

  lemma DispatchDevices(cfg: Config, index: nat, s: Slot, msg: Bytes, os: Os)
    requires index < 0xFF && IsFrame(msg)
    ensures var o := Dispatch(cfg, index, s, msg, os);
            && OwnDevices(s.evFd, o.effects)
            && (HeldAfter(s.evFd, o.effects) == o.slot.evFd)
            && Replaced(s.evFd, o.effects) == if SetsUpAgain(cfg, s, msg, os) then {s.evFd} else {}
  {
    var o := Dispatch(cfg, index, s, msg, os);
    if msg[0] == QUIT {
      CloseDevices(s, true, os);
    } else if msg[0] == SETUP_END {
      assert msg == [SETUP_END];
      SetupEndDevices(cfg, s, index, os);
      var h := HandleSetupEnd(cfg, s, index, os);
      DevicesAppend(s.evFd, h.effects, [Closed(s.fd)]);
      FewDevices(h.slot.evFd, Closed(s.fd), Closed(s.fd));
    } else {
      HandleNoDevices(cfg, index, s, msg, os);
      NoDevices(s.evFd, o.effects);
    }
  }

  predicate DeviceNeutral(e: Effect) {
    !e.Created? && !e.Destroyed?
  }

  lemma HandleNoDevices(cfg: Config, index: nat, s: Slot, msg: Bytes, os: Os)
    requires index < 0xFF && IsFrame(msg) && msg[0] != QUIT && msg[0] != SETUP_END
    ensures var o := Dispatch(cfg, index, s, msg, os);
            o.slot.evFd == s.evFd && forall e | e in o.effects :: DeviceNeutral(e)
  {}

  lemma {:induction false} NoDevices(evFd: int, effects: seq<Effect>)
    requires forall e | e in effects :: DeviceNeutral(e)
    ensures OwnDevices(evFd, effects) && HeldAfter(evFd, effects) == evFd && Replaced(evFd, effects) == {}
    decreases |effects|
  {
    if effects != [] {
      assert DeviceNeutral(effects[0]);
      assert forall e | e in effects[1..] :: e in effects;
      NoDevices(evFd, effects[1..]);
    }
  }

  /** Short effect lists, spelled out. */
  lemma FewDevices(evFd: int, a: Effect, b: Effect)
    ensures DeviceNeutral(a) ==> HeldAfter(evFd, [a]) == evFd && Replaced(evFd, [a]) == {} && OwnDevices(evFd, [a])
    ensures a == Destroyed(evFd) && evFd >= 0 ==>
              OwnDevices(evFd, [a]) && HeldAfter(evFd, [a]) == -1 && Replaced(evFd, [a]) == {}
    ensures a.Created? && a.dev >= 0 && DeviceNeutral(b) ==>
              OwnDevices(evFd, [a, b]) && HeldAfter(evFd, [a, b]) == a.dev && Replaced(evFd, [a, b]) == Held(evFd)
  {
    assert [a, b][1..] == [b] && [a][1..] == [];
    if DeviceNeutral(a) {
      NoDevices(evFd, [a]);
    }
    if a.Created? && DeviceNeutral(b) {
      NoDevices(a.dev, [b]);
    }
    assert OwnDevices(-1, []) && HeldAfter(-1, []) == -1 && Replaced(-1, []) == {};
  }

  lemma SetupEndDevices(cfg: Config, s: Slot, index: nat, os: Os)
    requires index < 0xFF
    ensures var h := HandleSetupEnd(cfg, s, index, os);
            && OwnDevices(s.evFd, h.effects)
            && HeldAfter(s.evFd, h.effects) == h.slot.evFd
            && Replaced(s.evFd, h.effects) == if SetsUpAgain(cfg, s, [SETUP_END], os) then {s.evFd} else {}
  {
    var h := HandleSetupEnd(cfg, s, index, os);
    if |h.effects| == 1 {
      FewDevices(s.evFd, h.effects[0], h.effects[0]);
    } else if |h.effects| == 2 {
      FewDevices(s.evFd, h.effects[0], h.effects[1]);
    }
  }

  lemma CloseDevices(s: Slot, cleanup: bool, os: Os)
    ensures var o := Close(s, cleanup, os);
            && OwnDevices(s.evFd, o.effects)
            && HeldAfter(s.evFd, o.effects) == o.slot.evFd
            && Replaced(s.evFd, o.effects) == {}
    ensures var o := Cleanup(s, os);
            && OwnDevices(s.evFd, o.effects)
            && HeldAfter(s.evFd, o.effects) == o.slot.evFd
            && Replaced(s.evFd, o.effects) == {}
  {
    var c := Cleanup(s, os);
    FewDevices(s.evFd, Destroyed(s.evFd), Closed(s.fd));
    var first := if cleanup then c.effects else [];
    var last := if s.fd >= 0 then [Closed(s.fd)] else [];
    DevicesAppend(s.evFd, first, last);
    NoDevices(HeldAfter(s.evFd, first), last);
  }

  /** The devices left behind while a buffer is served: one for every message that
      sets up again, and no others. */
  function LeftBehind(cfg: Config, index: nat, s: Slot, buf: Bytes, os: Os): set<int>
    requires index < 0xFF
    decreases |buf|
  {
    var n := HeadFrame(buf);
    if !Live(s) || n == 0 || |buf| < n then {}
    else
      (if SetsUpAgain(cfg, s, buf[..n], os) then {s.evFd} else {})
      + LeftBehind(cfg, index, Dispatch(cfg, index, s, buf[..n], os).slot, buf[n..], os)
  }

  lemma {:induction false} DrainDevices(rule: Rule, cfg: Config, index: nat, s: Slot, buf: Bytes, os: Os)
    requires index < 0xFF
    ensures var r := Drain(rule, cfg, index, s, buf, os);
            && OwnDevices(s.evFd, r.effects)
            && HeldAfter(s.evFd, r.effects) == r.port.slot.evFd
            && Replaced(s.evFd, r.effects) == LeftBehind(cfg, index, s, buf, os)
    decreases |buf|
  {
    hide Dispatch, SetsUpAgain;
    var n := HeadFrame(buf);
    if Live(s) && n > 0 && !LoneHeader(buf) {
      var first := Dispatch(cfg, index, s, buf[..n], os);
      var rest := Drain(rule, cfg, index, first.slot, buf[n..], os);
      DispatchDevices(cfg, index, s, buf[..n], os);
      DrainDevices(rule, cfg, index, first.slot, buf[n..], os);
      DevicesAppend(s.evFd, first.effects, rest.effects);
    } else {
      NoDevices(s.evFd, Drain(rule, cfg, index, s, buf, os).effects);
    }
  }

  // ---------- the whole server ----------

  function HeldBySlots(w: World): set<int>
    requires Shaped(w)
  {
    set u, d | 0 <= u < MAX_CLIENTS && d in Held(w.ports[u].slot.evFd) :: d
  }

  /** The devices that are alive although no slot holds them. */
  function Orphans(w: World): set<int>
    requires Shaped(w)
  {
    w.kernel.devices.Keys - HeldBySlots(w)
  }

  function HeldByOthers(w: World, u: nat): set<int>
    requires Shaped(w)
  {
    set v, d | 0 <= v < MAX_CLIENTS && v != u && d in Held(w.ports[v].slot.evFd) :: d
  }

  lemma AllLive(cfg: Config, w: World, u: nat)
    requires Inv(cfg, w) && u < MAX_CLIENTS
    ensures HeldBySlots(w) == HeldByOthers(w, u) + Held(w.ports[u].slot.evFd)
    ensures HeldBySlots(w) <= w.kernel.devices.Keys && HeldByOthers(w, u) !! Held(w.ports[u].slot.evFd)
  {
    hide Exclusive, Accounted, BuffersOk, Authenticated, DevicesOk;
    forall v | 0 <= v < MAX_CLIENTS
      ensures Held(w.ports[v].slot.evFd) <= w.kernel.devices.Keys
    {
      assert SlotOk(cfg, w.ports[v].slot, w.kernel, w.history[v]);
    }
  }

  lemma OthersKeepTheirs(w: World, u: nat, p: Port, effects: seq<Effect>)
    requires Shaped(w) && u < MAX_CLIENTS
    ensures HeldBySlots(Put(w, u, p, effects)) == HeldByOthers(w, u) + Held(p.slot.evFd)
  {
    hide Absorb, Held;
    var w' := Put(w, u, p, effects);
    assert forall v | 0 <= v < MAX_CLIENTS && v != u :: w'.ports[v] == w.ports[v];
    assert w'.ports[u] == p;
    forall d: int
      ensures d in HeldBySlots(w') <==> d in HeldByOthers(w, u) || d in Held(p.slot.evFd)
    {
    }
  }

  lemma PutOrphans(cfg: Config, w: World, u: nat, p: Port, effects: seq<Effect>)
    requires Inv(cfg, w) && u < MAX_CLIENTS
    requires Feasible(w.kernel, effects) && OwnDevices(w.ports[u].slot.evFd, effects)
    requires HeldAfter(w.ports[u].slot.evFd, effects) == p.slot.evFd
    ensures Orphans(Put(w, u, p, effects)) == Orphans(w) + Replaced(w.ports[u].slot.evFd, effects)
  {
    hide Exclusive, Accounted, BuffersOk, SlotsOk, DevicesExclusive, Feasible, Absorb, OwnDevices, HeldAfter, Replaced,
      HeldBySlots, HeldByOthers;
    AllLive(cfg, w, u);
    OthersKeepTheirs(w, u, p, effects);
    DevicesAfter(w.kernel, w.ports[u].slot.evFd, effects);
    Accounts(w.kernel.devices.Keys, Absorb(w.kernel, effects).devices.Keys, HeldByOthers(w, u),
             Held(w.ports[u].slot.evFd), Held(p.slot.evFd), Replaced(w.ports[u].slot.evFd, effects));
  }

  lemma Accounts(keys: set<int>, keys': set<int>, others: set<int>, mine: set<int>, mine': set<int>, left: set<int>)
    requires keys' == keys - mine + left + mine'
    requires others <= keys && mine <= keys && others !! mine && mine' !! left
    requires mine' <= mine || mine' !! keys
    requires forall d | d in left :: d in mine || d !in keys
    ensures keys' - (others + mine') == keys - (others + mine) + left
  {
    forall d: int
      ensures d in keys' - (others + mine') <==> d in keys - (others + mine) + left
    {
    }
  }

  /** What a step leaves behind. */
  function StepLeaves(cfg: Config, w: World, step: Step, oses: Oses): set<int>
    requires Shaped(w)
  {
    match step
    case SlotBytes(u, chunk) =>
      if u < MAX_CLIENTS then LeftBehind(cfg, u, w.ports[u].slot, w.ports[u].pending + chunk, oses(u)) else {}
    case _ => {}
  }

  lemma StepOrphans(cfg: Config, w: World, step: Step, oses: Oses)
    requires Inv(cfg, w) && Legal(cfg, w, step, oses)
    ensures Orphans(Next(cfg, w, step, oses)) == Orphans(w) + StepLeaves(cfg, w, step, oses)
  {
    hide Exclusive, Accounted, BuffersOk, SlotsOk, DevicesExclusive, Feasible, Drain, Close, Put, Hello, CloseFirst,
      LeftBehind;
    match step
    case Accept(_) =>
    case SlotBytes(u, chunk) =>
      var r := Feed(cfg.loop, cfg, u, w.ports[u], chunk, oses(u));
      ServedIsLive(cfg, w, u);
      DrainDevices(cfg.loop, cfg, u, w.ports[u].slot, w.ports[u].pending + chunk, oses(u));
      PutOrphans(cfg, w, u, r.port, r.effects);
    case SlotDrop(u) => CloseOrphans(cfg, w, u, false, oses(u));
    case WaitBytes(i, chunk, sent) => WaitOrphans(cfg, w, i, chunk, sent, oses);
    case WaitDrop(_) =>
    case Shutdown => ShutdownOrphans(cfg, w, |w.ports|, oses);
  }

  lemma ServedIsLive(cfg: Config, w: World, u: nat)
    requires Inv(cfg, w) && u < MAX_CLIENTS
    ensures w.ports[u].slot.fd >= 0 ==> Live(w.ports[u].slot)
  {
    hide Exclusive, Accounted, BuffersOk, Authenticated, DevicesOk;
    assert SlotOk(cfg, w.ports[u].slot, w.kernel, w.history[u]);
  }

  lemma CloseOrphans(cfg: Config, w: World, u: nat, cleanup: bool, os: Os)
    requires Inv(cfg, w) && u < MAX_CLIENTS
    ensures Orphans(CloseSlot(w, u, cleanup, os)) == Orphans(w)
  {
    hide Exclusive, Accounted, BuffersOk, DevicesExclusive, Close, Put, Absorb, SlotOk, DevicesOk;
    var o := Close(w.ports[u].slot, cleanup, os);
    assert SlotOk(cfg, w.ports[u].slot, w.kernel, w.history[u]);
    CloseKeeps(cfg, w.ports[u].slot, cleanup, os, w.kernel, w.history[u]);
    CloseDevices(w.ports[u].slot, cleanup, os);
    PutOrphans(cfg, w, u, Port(o.slot, []), o.effects);
  }

  lemma {:induction false} ShutdownOrphans(cfg: Config, w: World, n: nat, oses: Oses)
    requires Inv(cfg, w) && n <= MAX_CLIENTS
    ensures Orphans(CloseFirst(w, n, oses)) == Orphans(w)
  {
    hide Orphans, CloseSlot, Exclusive, Accounted, BuffersOk, SlotsOk, DevicesExclusive;
    if n > 0 {
      ShutdownOrphans(cfg, w, n - 1, oses);
      CloseFirstKeeps(cfg, w, n - 1, oses);
      CloseOrphans(cfg, CloseFirst(w, n - 1, oses), n - 1, true, oses(n - 1));
    }
  }

  lemma EvictOrphans(cfg: Config, w: World, u: nat, os: Os)
    requires Inv(cfg, w) && u < MAX_CLIENTS && w.ports[u].slot.fd < 0
    ensures Orphans(Evicted(w, u, os)) == Orphans(w)
  {
    hide Exclusive, Accounted, BuffersOk, DevicesExclusive, Cleanup, Put, Absorb, SlotOk, DevicesOk;
    var o := Cleanup(w.ports[u].slot, os);
    assert SlotOk(cfg, w.ports[u].slot, w.kernel, w.history[u]);
    CleanupKeeps(cfg, w.ports[u].slot, os, w.kernel, w.history[u]);
    CloseDevices(w.ports[u].slot, false, os);
    PutOrphans(cfg, w, u, Port(o.slot, []), o.effects);
  }

  lemma WaitOrphans(cfg: Config, w: World, i: nat, chunk: Bytes, sent: bool, oses: Oses)
    requires Inv(cfg, w) && i < MAX_WAITING_CLIENTS
    ensures Orphans(WaitStep(cfg, w, i, chunk, sent, oses)) == Orphans(w)
  {
    hide Exclusive, Accounted, BuffersOk, SlotsOk, DevicesExclusive, Put, Choose;
    var buf := w.waiting[i].pending + chunk;
    if |buf| >= HELLO_SIZE && buf[0] == HELLO && buf[1] == PROTOCOL_VERSION {
      ChosenIsFree(cfg, w, buf[2]);
      match Choose(w.ports, buf[2])
      case Refuse(_) =>
      case Take(u) => PromoteOrphans(cfg, w, i, u, sent);
      case Evict(u) =>
        EvictOrphans(cfg, w, u, oses(u));
        PromoteOrphans(cfg, Evicted(w, u, oses(u)), i, u, sent);
    }
  }

  lemma PromoteOrphans(cfg: Config, w: World, i: nat, u: nat, sent: bool)
    requires Shaped(w) && i < MAX_WAITING_CLIENTS && u < MAX_CLIENTS
    ensures Orphans(Promote(cfg, w, i, u, sent).world) == Orphans(w)
  {
    var w' := Promote(cfg, w, i, u, sent).world;
    assert forall v | 0 <= v < MAX_CLIENTS :: w'.ports[v].slot.evFd == w.ports[v].slot.evFd;
  }

  // ---------- every run ----------

  function RunLeaves(cfg: Config, w: World, steps: seq<Step>, oses: Oses): set<int>
    requires Shaped(w)
    decreases |steps|
  {
    if steps == [] then {}
    else StepLeaves(cfg, w, steps[0], oses) + RunLeaves(cfg, Next(cfg, w, steps[0], oses), steps[1..], oses)
  }

  lemma {:induction false} RunOrphans(cfg: Config, w: World, steps: seq<Step>, oses: Oses)
    requires Inv(cfg, w) && LegalRun(cfg, w, steps, oses)
    ensures Orphans(Run(cfg, w, steps, oses)) == Orphans(w) + RunLeaves(cfg, w, steps, oses)
    decreases |steps|
  {
    hide Orphans, Next, Legal, StepLeaves, Exclusive, Accounted, BuffersOk, SlotsOk, DevicesExclusive;
    if steps != [] {
      StepKeeps(cfg, w, steps[0], oses);
      StepOrphans(cfg, w, steps[0], oses);
      RunOrphans(cfg, Next(cfg, w, steps[0], oses), steps[1..], oses);
    }
  }

  /** Device accounting: after every run the living devices are the ones the slots
      hold, one each, and the ones left behind by clients that set up again; no
      device is both. Nothing else creates, keeps or loses a device. */
  lemma DevicesAccounted(cfg: Config, steps: seq<Step>, oses: Oses)
    requires LegalRun(cfg, Start(), steps, oses)
    ensures var w := Run(cfg, Start(), steps, oses);
            && w.kernel.devices.Keys == HeldBySlots(w) + RunLeaves(cfg, Start(), steps, oses)
            && HeldBySlots(w) !! RunLeaves(cfg, Start(), steps, oses)
            && forall u, v | 0 <= u < v < MAX_CLIENTS :: Held(w.ports[u].slot.evFd) !! Held(w.ports[v].slot.evFd)
  {
    hide LegalRun, Run, RunLeaves, Exclusive, Accounted, BuffersOk, SlotsOk, DevicesExclusive;
    StartOk(cfg);
    RunKeeps(cfg, Start(), steps, oses);
    RunOrphans(cfg, Start(), steps, oses);
    var w := Run(cfg, Start(), steps, oses);
    AllLive(cfg, w, 0);
    assert Orphans(w) == RunLeaves(cfg, Start(), steps, oses);
    forall u, v | 0 <= u < v < MAX_CLIENTS
      ensures Held(w.ports[u].slot.evFd) !! Held(w.ports[v].slot.evFd)
    {
      AllLive(cfg, w, v);
    }
  }
}
