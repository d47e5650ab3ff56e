/** The part of the operating system the server holds resources in: open client
    sockets and virtual devices. */
module Kernel {
  import opened Protocol
  import opened Uinput
  import opened DeviceCreation
  import opened Slots

  /** A device and everything written to it. */
  datatype Device = Device(spec: DeviceSpec, events: seq<InputEvent>)

  datatype Kernel = Kernel(sockets: set<int>, devices: map<int, Device>)

  function AbsorbOne(k: Kernel, e: Effect): Kernel {
    match e
    case Created(d, spec) => k.(devices := k.devices[d := Device(spec, [])])
    case Wrote(d, event) =>
      if d in k.devices then
        k.(devices := k.devices[d := k.devices[d].(events := k.devices[d].events + [event])])
      else k
    case Destroyed(d) => k.(devices := k.devices - {d})
    case Closed(fd) => k.(sockets := k.sockets - {fd})
    case _ => k
  }

  function Absorb(k: Kernel, effects: seq<Effect>): Kernel
    decreases |effects|
  {
    if effects == [] then k else Absorb(AbsorbOne(k, effects[0]), effects[1..])
  }

  /** What the kernel promises: a descriptor it hands out is not in use. */
  predicate FeasibleOne(k: Kernel, e: Effect) {
    e.Created? ==> e.dev !in k.devices
  }

  predicate Feasible(k: Kernel, effects: seq<Effect>)
    decreases |effects|
  {
    effects != [] ==> FeasibleOne(k, effects[0]) && Feasible(AbsorbOne(k, effects[0]), effects[1..])
  }

  /** What the server promises: it writes to, destroys and closes only what is there. */
  predicate SoundOne(k: Kernel, e: Effect) {
    match e
    case Wrote(d, _) => d in k.devices
    case Destroyed(d) => d in k.devices
    case Closed(fd) => fd in k.sockets
    case _ => true
  }

  predicate Sound(k: Kernel, effects: seq<Effect>)
    decreases |effects|
  {
    effects != [] ==> SoundOne(k, effects[0]) && Sound(AbsorbOne(k, effects[0]), effects[1..])
  }

  lemma {:induction false} AbsorbAppend(k: Kernel, a: seq<Effect>, b: seq<Effect>)
    ensures Absorb(k, a + b) == Absorb(Absorb(k, a), b)
    ensures Feasible(k, a + b) <==> Feasible(k, a) && Feasible(Absorb(k, a), b)
    ensures Sound(k, a + b) <==> Sound(k, a) && Sound(Absorb(k, a), b)
    decreases |a|
  {
    hide AbsorbOne, FeasibleOne, SoundOne;
    if a == [] {
      assert a + b == b;
    } else {
      assert (a + b)[0] == a[0] && (a + b)[1..] == a[1..] + b;
      AbsorbAppend(AbsorbOne(k, a[0]), a[1..], b);
    }
  }

  /** A device disappears only by being destroyed; until then it keeps its
      capabilities and only gains events, exactly the ones written to it. */
  lemma {:induction false} DeviceFate(k: Kernel, effects: seq<Effect>, d: int)
    requires d in k.devices && Feasible(k, effects)
    requires forall e | e in effects :: e != Destroyed(d)
    ensures var after := Absorb(k, effects).devices;
            d in after && after[d].spec == k.devices[d].spec
            && after[d].events == k.devices[d].events + WrittenTo(d, effects)
    decreases |effects|
  {
    if effects != [] {
      var k1 := AbsorbOne(k, effects[0]);
      assert effects[0] in effects;
      if effects[0].Destroyed? {
        assert effects[0] == Destroyed(effects[0].dev);
      }
      assert forall e | e in effects[1..] :: e in effects;
      DeviceFate(k1, effects[1..], d);
      var now := if effects[0].Wrote? && effects[0].dev == d then [effects[0].event] else [];
      assert k1.devices[d].events == k.devices[d].events + now;
      Assoc(k.devices[d].events, now, WrittenTo(d, effects[1..]));
    }
  }

  function WrittenTo(d: int, effects: seq<Effect>): seq<InputEvent>
    decreases |effects|
  {
    if effects == [] then []
    else (if effects[0].Wrote? && effects[0].dev == d then [effects[0].event] else []) + WrittenTo(d, effects[1..])
  }

  // ---------- what serving one slot keeps ----------

  predicate Authenticated(cfg: Config, history: seq<Effect>) {
    exists e :: e in history && e.Judged? && StrncmpEqual(cfg.password, e.payload)
  }

  predicate ServingStatus(status: Byte) {
    status == PASSWORD_REQUIRED || status == INVALID_PASSWORD || status == SETUP_REQUIRED || status == SUCCESS
  }

  /** Every invariant of a single slot; `history` is what serving it has done
      since its last HELLO. */
  predicate SlotOk(cfg: Config, s: Slot, k: Kernel, history: seq<Effect>) {
    && !s.wrecked
    && s.fd >= -1 && s.evFd >= -1
    // the socket is open, the device alive
    && (s.fd >= 0 ==> s.fd in k.sockets)
    && (s.evFd >= 0 ==> s.evFd in k.devices)
    // a connected slot that may send events has a device
    && (s.fd >= 0 ==> ServingStatus(s.status))
    && (s.fd >= 0 && s.status == SUCCESS ==> s.evFd >= 0)
    // and, where a password is set, has shown it
    && (s.fd >= 0 && cfg.password != [] && (s.status == SETUP_REQUIRED || s.status == SUCCESS)
        ==> Authenticated(cfg, history))
    // only allowed events are ever collected
    && (forall e | e in s.meta.enabled :: Allowed(cfg, e))
  }

  /** Every code that is enabled on any device is allowed. */
  predicate DevicesOk(cfg: Config, k: Kernel) {
    forall d | d in k.devices :: forall e | e in k.devices[d].spec.capabilities.codes :: Allowed(cfg, e)
  }

  /** What serving a slot leaves alone: all other sockets and devices. */
  predicate Local(s: Slot, k: Kernel, s': Slot, k': Kernel) {
    && (s'.fd == s.fd || s'.fd == -1)
    && k'.sockets == (if s'.fd == s.fd then k.sockets else k.sockets - {s.fd})
    && (s'.evFd == s.evFd || s'.evFd == -1 || s'.evFd !in k.devices)
    && (forall d | d in k.devices && d >= 0 && d != s.evFd :: d in k'.devices && k'.devices[d] == k.devices[d])
  }

  lemma LocalTransitive(s: Slot, k: Kernel, s1: Slot, k1: Kernel, s2: Slot, k2: Kernel)
    requires Local(s, k, s1, k1) && Local(s1, k1, s2, k2)
    requires s.fd >= 0 && s1.fd >= 0 && s2.evFd >= -1
    ensures Local(s, k, s2, k2)
  {}

  /** The kernel effect of short effect lists, spelled out. */
  lemma AbsorbFew(k: Kernel, a: Effect, b: Effect)
    ensures Absorb(k, []) == k && Feasible(k, []) && Sound(k, [])
    ensures Absorb(k, [a]) == AbsorbOne(k, a)
    ensures Feasible(k, [a]) <==> FeasibleOne(k, a)
    ensures Sound(k, [a]) <==> SoundOne(k, a)
    ensures Absorb(k, [a, b]) == AbsorbOne(AbsorbOne(k, a), b)
    ensures Feasible(k, [a, b]) <==> FeasibleOne(k, a) && FeasibleOne(AbsorbOne(k, a), b)
    ensures Sound(k, [a, b]) <==> SoundOne(k, a) && SoundOne(AbsorbOne(k, a), b)
  {
    hide AbsorbOne, FeasibleOne, SoundOne;
    assert [a, b][1..] == [b] && [a][1..] == [] && [b][1..] == [];
    assert forall j: Kernel :: Absorb(j, []) == j && Feasible(j, []) && Sound(j, []);
    var j := AbsorbOne(k, a);
    assert Absorb(j, [b]) == AbsorbOne(j, b);
    assert Feasible(j, [b]) <==> FeasibleOne(j, b);
    assert Sound(j, [b]) <==> SoundOne(j, b);
  }

  /** Handling a message, with outcome `h`, leaves the socket alone and keeps
      every invariant. */
  predicate Keeps(cfg: Config, s: Slot, h: Handled, k: Kernel, history: seq<Effect>) {
    var k' := Absorb(k, h.effects);
    && SlotOk(cfg, h.slot, k', history + h.effects)
    && DevicesOk(cfg, k')
    && Local(s, k, h.slot, k')
    && h.slot.fd == s.fd
    && Sound(k, h.effects)
  }

  predicate Ready(cfg: Config, s: Slot, k: Kernel, history: seq<Effect>) {
    Live(s) && SlotOk(cfg, s, k, history) && DevicesOk(cfg, k)
  }

  lemma PasswordKeeps(cfg: Config, s: Slot, msg: Bytes, os: Os, k: Kernel, history: seq<Effect>)
    requires |msg| >= PASSWORD_SIZE && Ready(cfg, s, k, history)
    ensures Keeps(cfg, s, HandlePassword(cfg, s, msg, os), k, history)
  {
    var h := HandlePassword(cfg, s, msg, os);
    if s.status == PASSWORD_REQUIRED {
      AbsorbFew(k, h.effects[0], h.effects[1]);
      assert h.effects[0] in history + h.effects;
    } else {
      assert history + h.effects == history;
      AbsorbFew(k, Closed(0), Closed(0));
    }
  }

  lemma AbsInfoKeeps(cfg: Config, s: Slot, msg: Bytes, k: Kernel, history: seq<Effect>)
    requires |msg| == ABSINFO_SIZE && Ready(cfg, s, k, history)
    ensures Keeps(cfg, s, HandleAbsInfo(s, msg), k, history)
  {}

  lemma DeviceKeeps(cfg: Config, s: Slot, msg: Bytes, k: Kernel, history: seq<Effect>)
    requires |msg| >= DEVICE_SIZE && Ready(cfg, s, k, history)
    ensures Keeps(cfg, s, HandleDevice(s, msg), k, history)
  {}

  lemma AuthenticatedAppend(cfg: Config, a: seq<Effect>, b: seq<Effect>)
    requires Authenticated(cfg, a)
    ensures Authenticated(cfg, a + b)
  {}

  lemma SetupRequiredKeeps(cfg: Config, s: Slot, os: Os, k: Kernel, history: seq<Effect>)
    requires Ready(cfg, s, k, history)
    ensures Keeps(cfg, s, HandleSetupRequired(s, os), k, history)
  {}

  lemma RequestEventKeeps(cfg: Config, s: Slot, msg: Bytes, os: Os, k: Kernel, history: seq<Effect>)
    requires |msg| == REQUEST_EVENT_SIZE && Ready(cfg, s, k, history)
    ensures Keeps(cfg, s, HandleRequestEvent(cfg, s, msg, os), k, history)
  {}

  lemma SpecCapabilities(cfg: Config, s: Slot, os: Os)
    ensures SpecNow(cfg, s, os).capabilities == Requested(s.meta.enabled)
  {}

  lemma SetupEndKeeps(cfg: Config, index: nat, s: Slot, os: Os, k: Kernel, history: seq<Effect>)
    requires index < 0xFF && Ready(cfg, s, k, history)
    requires var h := HandleSetupEnd(cfg, s, index, os); !h.slot.wrecked && Feasible(k, h.effects)
    ensures Keeps(cfg, s, HandleSetupEnd(cfg, s, index, os), k, history)
  {
    hide Creation, SpecNow;
    CreatedIsDefined(cfg, s, os);
    SpecCapabilities(cfg, s, os);
    var h := HandleSetupEnd(cfg, s, index, os);
    if |h.effects| == 0 {
      assert history + [] == history;
      AbsorbFew(k, Closed(0), Closed(0));
    } else if |h.effects| == 1 {
      AbsorbFew(k, h.effects[0], h.effects[0]);
    } else {
      AbsorbFew(k, h.effects[0], h.effects[1]);
    }
    if Authenticated(cfg, history) {
      AuthenticatedAppend(cfg, history, h.effects);
    }
  }

  lemma DataKeeps(cfg: Config, s: Slot, msg: Bytes, os: Os, k: Kernel, history: seq<Effect>)
    requires |msg| == DATA_SIZE && Ready(cfg, s, k, history)
    ensures Keeps(cfg, s, HandleData(s, msg, os), k, history)
  {}

  lemma HandleKeeps(cfg: Config, index: nat, s: Slot, msg: Bytes, os: Os, k: Kernel, history: seq<Effect>)
    requires index < 0xFF && IsFrame(msg) && Ready(cfg, s, k, history)
    requires var h := Handle(cfg, index, s, msg, os); !h.slot.wrecked && Feasible(k, h.effects)
    ensures Keeps(cfg, s, Handle(cfg, index, s, msg, os), k, history)
  {
    hide Keeps, Ready, HandlePassword, HandleAbsInfo, HandleDevice, HandleRequestEvent, HandleSetupRequired,
      HandleSetupEnd, HandleData;
    if msg[0] == PASSWORD { PasswordKeeps(cfg, s, msg, os, k, history); }
    else if msg[0] == ABSINFO { AbsInfoKeeps(cfg, s, msg, k, history); }
    else if msg[0] == DEVICE { DeviceKeeps(cfg, s, msg, k, history); }
    else if msg[0] == REQUEST_EVENT { RequestEventKeeps(cfg, s, msg, os, k, history); }
    else if msg[0] == SETUP_REQUIRED { SetupRequiredKeeps(cfg, s, os, k, history); }
    else if msg[0] == SETUP_END { SetupEndKeeps(cfg, index, s, os, k, history); }
    else if msg[0] == DATA { DataKeeps(cfg, s, msg, os, k, history); }
    else { RefusalKeeps(cfg, s, k, history); }
  }

  lemma RefusalKeeps(cfg: Config, s: Slot, k: Kernel, history: seq<Effect>)
    requires Ready(cfg, s, k, history)
    ensures Keeps(cfg, s, Handled(s, -1, []), k, history)
  {}

  // ---------- whole messages and whole buffers ----------

  /** The same for an operation that may also close the socket. */
  predicate Serves(cfg: Config, s: Slot, s': Slot, effects: seq<Effect>, k: Kernel, history: seq<Effect>) {
    var k' := Absorb(k, effects);
    && SlotOk(cfg, s', k', history + effects)
    && DevicesOk(cfg, k')
    && Local(s, k, s', k')
    && Sound(k, effects)
  }

  /** Closing is always allowed by the kernel and keeps every invariant. */
  lemma CloseKeeps(cfg: Config, s: Slot, cleanup: bool, os: Os, k: Kernel, history: seq<Effect>)
    requires SlotOk(cfg, s, k, history) && DevicesOk(cfg, k)
    ensures var o := Close(s, cleanup, os);
            Serves(cfg, s, o.slot, o.effects, k, history) && Feasible(k, o.effects) && o.slot.fd == -1
  {
    var o := Close(s, cleanup, os);
    if |o.effects| == 1 {
      assert o.effects == [o.effects[0]];
      AbsorbFew(k, o.effects[0], o.effects[0]);
    } else if |o.effects| == 2 {
      assert o.effects == [o.effects[0], o.effects[1]];
      AbsorbFew(k, o.effects[0], o.effects[1]);
    } else {
      AbsorbFew(k, Closed(0), Closed(0));
    }
  }

  /** Destroying the device of a disconnected slot keeps every invariant. */
  lemma CleanupKeeps(cfg: Config, s: Slot, os: Os, k: Kernel, history: seq<Effect>)
    requires SlotOk(cfg, s, k, history) && DevicesOk(cfg, k) && s.fd < 0
    ensures var o := Cleanup(s, os);
            Serves(cfg, s, o.slot, o.effects, k, history) && Feasible(k, o.effects) && o.slot.fd == -1
  {}

  /** Closing the socket alone, as client_data does after an error. */
  lemma HangUpKeeps(cfg: Config, s: Slot, k: Kernel, history: seq<Effect>)
    requires Ready(cfg, s, k, history)
    ensures Serves(cfg, s, s.(fd := -1), [Closed(s.fd)], k, history) && Feasible(k, [Closed(s.fd)])
  {}

  lemma ServesThen(cfg: Config, s: Slot, s1: Slot, s2: Slot, a: seq<Effect>, b: seq<Effect>, k: Kernel,
                   history: seq<Effect>)
    requires s.fd >= 0 && s1.fd >= 0
    requires Serves(cfg, s, s1, a, k, history)
    requires Serves(cfg, s1, s2, b, Absorb(k, a), history + a)
    ensures Serves(cfg, s, s2, a + b, k, history)
  {
    AbsorbAppend(k, a, b);
    Assoc(history, a, b);
    LocalTransitive(s, k, s1, Absorb(k, a), s2, Absorb(k, a + b));
  }

  lemma DispatchKeeps(cfg: Config, index: nat, s: Slot, msg: Bytes, os: Os, k: Kernel, history: seq<Effect>)
    requires index < 0xFF && IsFrame(msg) && Ready(cfg, s, k, history)
    requires var o := Dispatch(cfg, index, s, msg, os); !o.slot.wrecked && Feasible(k, o.effects)
    ensures var o := Dispatch(cfg, index, s, msg, os); Serves(cfg, s, o.slot, o.effects, k, history)
  {
    hide Handle, Close, Absorb, Feasible, Sound, SlotOk, DevicesOk, Local;
    if msg[0] == QUIT {
      assert SlotOk(cfg, s, k, history) && DevicesOk(cfg, k);
      CloseKeeps(cfg, s, true, os, k, history);
    } else {
      var h := Handle(cfg, index, s, msg, os);
      AbsorbAppend(k, h.effects, [Closed(s.fd)]);
      HandleKeeps(cfg, index, s, msg, os, k, history);
      if h.ret < 0 && !h.slot.wrecked {
        HangUpKeeps(cfg, h.slot, Absorb(k, h.effects), history + h.effects);
        ServesThen(cfg, s, h.slot, h.slot.(fd := -1), h.effects, [Closed(s.fd)], k, history);
      }
    }
  }

  /** Serving a buffer, however the lone-header case is treated, keeps every
      invariant as long as it stays defined. */
  lemma {:induction false} DrainKeeps(rule: Rule, cfg: Config, index: nat, s: Slot, buf: Bytes, os: Os, k: Kernel,
                                      history: seq<Effect>)
    requires index < 0xFF && Ready(cfg, s, k, history)
    requires var r := Drain(rule, cfg, index, s, buf, os); !r.port.slot.wrecked && Feasible(k, r.effects)
    ensures var r := Drain(rule, cfg, index, s, buf, os); Serves(cfg, s, r.port.slot, r.effects, k, history)
    decreases |buf|
  {
    hide Dispatch, Absorb, Feasible, Sound, SlotOk, DevicesOk, Local;
    var n := HeadFrame(buf);
    if LoneHeader(buf) && rule == AsWritten {
      HangUpKeeps(cfg, s, k, history);
    } else if n == 0 {
      NothingKeeps(cfg, s, k, history);
    } else {
      var first := Dispatch(cfg, index, s, buf[..n], os);
      var rest := Drain(rule, cfg, index, first.slot, buf[n..], os);
      AbsorbAppend(k, first.effects, rest.effects);
      DispatchKeeps(cfg, index, s, buf[..n], os, k, history);
      if Live(first.slot) {
        DrainKeeps(rule, cfg, index, first.slot, buf[n..], os, Absorb(k, first.effects), history + first.effects);
        ServesThen(cfg, s, first.slot, rest.port.slot, first.effects, rest.effects, k, history);
      } else {
        assert first.effects + [] == first.effects;
      }
    }
  }

  lemma NothingKeeps(cfg: Config, s: Slot, k: Kernel, history: seq<Effect>)
    requires Ready(cfg, s, k, history)
    ensures Serves(cfg, s, s, [], k, history)
  {}
}
