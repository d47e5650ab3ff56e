/** Runs from a fresh server in which the code does what its documentation does not
    lead one to expect. Each is legal: the operating system keeps its promises and
    the behaviour is defined. */
module Witnesses {
  import opened Wrappers
  import opened Protocol
  import opened Uinput
  import opened DeviceCreation
  import opened Slots
  import opened Kernel
  import opened World
  import opened Rounds
  import opened InputClient
  import opened Handshake
  import opened Leftovers
  import opened Composition
  import opened Axes

  // ---------- single steps ----------

  /** A chunk that is one message. */
  lemma ServeOne(cfg: Config, w: World, u: nat, s: Slot, msg: Bytes, oses: Oses)
    requires Shaped(w) && u < MAX_CLIENTS && w.ports[u] == Port(s, []) && Live(s)
    requires IsFrame(msg) && |msg| <= INPUT_BUFFER_SIZE
    requires var o := Dispatch(cfg, u, s, msg, oses(u)); !o.slot.wrecked && Feasible(w.kernel, o.effects)
    ensures Legal(cfg, w, SlotBytes(u, msg), oses)
    ensures var o := Dispatch(cfg, u, s, msg, oses(u));
            Next(cfg, w, SlotBytes(u, msg), oses) == Put(w, u, Port(o.slot, []), o.effects)
  {
    hide Dispatch, Put, Feasible;
    DrainOne(cfg.loop, cfg, u, s, msg, oses(u));
    assert [] + msg == msg;
  }

  lemma DrainOne(rule: Rule, cfg: Config, index: nat, s: Slot, msg: Bytes, os: Os)
    requires index < 0xFF && Live(s) && IsFrame(msg)
    ensures var o := Dispatch(cfg, index, s, msg, os);
            Drain(rule, cfg, index, s, msg, os) == Served(Port(o.slot, []), o.effects)
  {
    hide Dispatch;
    assert msg[..|msg|] == msg && msg[|msg|..] == [];
    var o := Dispatch(cfg, index, s, msg, os);
    assert Drain(rule, cfg, index, o.slot, [], os) == Served(Port(o.slot, []), []);
    assert o.effects + [] == o.effects;
  }

  function GreetSteps(fd: int): seq<Step> {
    [Accept(fd), WaitBytes(0, HelloMessage(0), true)]
  }

  /** A server whose first entry and slot are free. */
  predicate Vacant(w: World)
    requires Shaped(w)
  {
    w.waiting[0] == Waiting(-1, []) && w.ports[0].slot.fd < 0 && w.ports[0].slot.evFd < 0
  }

  function AfterGreeting(cfg: Config, w: World, fd: int): World
    requires Shaped(w)
  {
    var s := w.ports[0].slot;
    var status := FirstStatus(cfg, s);
    World(w.ports[0 := Port(s.(fd := fd, status := status), [])], w.waiting,
          w.kernel.(sockets := w.kernel.sockets + {fd}), w.history[0 := [Sent([status], true)]])
  }

  /** A client that names no slot gets the first one. */
  lemma Greet(cfg: Config, w: World, fd: int, oses: Oses)
    requires Shaped(w) && Vacant(w) && fd > 0 && fd !in w.kernel.sockets
    ensures LegalRun(cfg, w, GreetSteps(fd), oses)
    ensures Run(cfg, w, GreetSteps(fd), oses) == AfterGreeting(cfg, w, fd)
  {
    hide Run, LegalRun, Feed;
    var hello := HelloMessage(0);
    var w1 := Next(cfg, w, Accept(fd), oses);
    assert w1.waiting[0] == Waiting(fd, []) && [] + hello == hello;
    var w2 := Next(cfg, w1, WaitBytes(0, hello, true), oses);
    assert w2.waiting == w.waiting;
    RunOne(cfg, w1, WaitBytes(0, hello, true), oses);
    RunFirst(cfg, w, Accept(fd), [WaitBytes(0, hello, true)], oses);
    assert GreetSteps(fd) == [Accept(fd)] + [WaitBytes(0, hello, true)];
  }

  // ---------- passwords ----------

  /** The empty payload is accepted, whatever the password is. */
  lemma EmptyPayloadAccepted(cfg: Config, index: nat, s: Slot, os: Os)
    requires index < 0xFF && Live(s) && s.status == PASSWORD_REQUIRED
    ensures IsFrame([PASSWORD, 0])
    ensures Dispatch(cfg, index, s, [PASSWORD, 0], os).slot.status == if s.evFd < 0 then SETUP_REQUIRED else SUCCESS
  {
    assert [PASSWORD, 0][PASSWORD_SIZE..] == [];
  }

  function LoginSteps(cfg: Config): seq<Step> {
    GreetSteps(7) + if cfg.password != [] then [SlotBytes(0, [PASSWORD, 0])] else []
  }

  /** Two bytes get a client of a fresh server past any password: nobody has ever
      sent it, and yet the client is asked to set up its device. */
  lemma EmptyPasswordRun(cfg: Config, oses: Oses)
    requires Willing(oses(0))
    ensures var w := Run(cfg, Start(), LoginSteps(cfg), oses); var calls := if cfg.password != [] then 1 else 0;
            && LegalRun(cfg, Start(), LoginSteps(cfg), oses)
            && w.ports == Start().ports[0 := Port(FreeSlot().(fd := 7, status := SETUP_REQUIRED, calls := calls), [])]
            && w.waiting == Start().waiting && w.kernel == Kernel({7}, map[])
            && (forall e | e in w.history[0] && e.Judged? :: e.payload == [])
  {
    hide Run, LegalRun, Next, Legal;
    var w0 := Start();
    Greet(cfg, w0, 7, oses);
    var w1 := AfterGreeting(cfg, w0, 7);
    if cfg.password != [] {
      var s := w1.ports[0].slot;
      EmptyPayloadAccepted(cfg, 0, s, oses(0));
      var msg: Bytes := [PASSWORD, 0];
      var o := Dispatch(cfg, 0, s, msg, oses(0));
      assert msg[PASSWORD_SIZE..] == [];
      assert o.effects == [Judged([], SETUP_REQUIRED), Sent([SETUP_REQUIRED], true)];
      AbsorbFew(w1.kernel, o.effects[0], o.effects[1]);
      ServeOne(cfg, w1, 0, s, msg, oses);
      RunOne(cfg, w1, SlotBytes(0, msg), oses);
      RunAppend(cfg, w0, GreetSteps(7), [SlotBytes(0, msg)], oses);
    } else {
      assert GreetSteps(7) + [] == GreetSteps(7);
    }
  }

  // ---------- axes ----------

  function StaleAxisSteps(cfg: Config, axis: Byte, info: AbsInfo): seq<Step> {
    LoginSteps(cfg) + [SlotBytes(0, EncodeAbsInfo(axis, info)), SlotDrop(0)] + GreetSteps(8)
  }

  /** A client that describes an axis and hangs up leaves it to the next client of
      the slot, which starts with no device and no requested event. */
  lemma StaleAxisRun(cfg: Config, axis: Byte, info: AbsInfo, oses: Oses)
    requires Willing(oses(0)) && axis < ABS_CNT && Told(info, cfg.uinput)
    ensures var w := Run(cfg, Start(), StaleAxisSteps(cfg, axis, info), oses); var s := w.ports[0].slot;
            && LegalRun(cfg, Start(), StaleAxisSteps(cfg, axis, info), oses)
            && w.ports[0].pending == []
            && Fresh(cfg, 0, s, oses(0))
            && s.evFd == -1 && s.meta.enabled == [] && s.meta.name == None
            && s.meta.absinfo[axis] == info
            && forall src | WellFormed(src) && !Sends(src, axis) :: !NoStaleAxis(cfg, s.meta, src)
  {
    hide Run, LegalRun, Next, Legal, Told, Sends, LoginSteps, GreetSteps;
    var msg := EncodeAbsInfo(axis, info);
    assert msg[2..] == info;
    EmptyPasswordRun(cfg, oses);
    var w1 := Run(cfg, Start(), LoginSteps(cfg), oses);
    var s1 := w1.ports[0].slot;
    var o := Dispatch(cfg, 0, s1, msg, oses(0));
    assert o == Outcome(s1.(meta := s1.meta.(absinfo := s1.meta.absinfo[axis := info])), []);
    AbsorbFew(w1.kernel, Closed(0), Closed(0));
    ServeOne(cfg, w1, 0, s1, msg, oses);
    var w2 := Put(w1, 0, Port(o.slot, []), []);
    var w3 := Dropped(cfg, w2, oses);
    AbsorbFew(w2.kernel, Closed(7), Closed(7));
    assert [] + [Closed(7)] == [Closed(7)];
    assert w3.waiting[0] == Start().waiting[0] == Waiting(-1, []);
    Greet(cfg, w3, 8, oses);
    ThenDrop(cfg, w1, SlotBytes(0, msg), oses);
    RunAppend(cfg, w1, [SlotBytes(0, msg), SlotDrop(0)], GreetSteps(8), oses);
    RunAppend(cfg, Start(), LoginSteps(cfg), [SlotBytes(0, msg), SlotDrop(0)] + GreetSteps(8), oses);
    Assoc(LoginSteps(cfg), [SlotBytes(0, msg), SlotDrop(0)], GreetSteps(8));
  }

  function Dropped(cfg: Config, w: World, oses: Oses): World
    requires Shaped(w)
  {
    CloseSlot(w, 0, false, oses(0))
  }

  lemma ThenDrop(cfg: Config, w: World, step: Step, oses: Oses)
    requires Shaped(w) && Legal(cfg, w, step, oses) && Next(cfg, w, step, oses).ports[0].slot.fd >= 0
    ensures LegalRun(cfg, w, [step, SlotDrop(0)], oses)
    ensures Run(cfg, w, [step, SlotDrop(0)], oses) == Dropped(cfg, Next(cfg, w, step, oses), oses)
  {
    hide Run, LegalRun, Feed, CloseSlot;
    var w1 := Next(cfg, w, step, oses);
    RunOne(cfg, w1, SlotDrop(0), oses);
    RunFirst(cfg, w, step, [SlotDrop(0)], oses);
    assert [step] + [SlotDrop(0)] == [step, SlotDrop(0)];
  }

  // ---------- axes and the whitelist ----------

  /** A DEVICE message with an empty name. */
  function UnnamedDevice(): Bytes {
    [DEVICE, UINPUT_MAX_NAME_SIZE] + seq(8, _ => 0) + NameField([])
  }

  function ForbiddenAxisSteps(cfg: Config, axis: Byte, info: AbsInfo): seq<Step> {
    LoginSteps(cfg)
    + [SlotBytes(0, UnnamedDevice()), SlotBytes(0, EncodeAbsInfo(axis, info)), SlotBytes(0, [SETUP_END])]
  }

  /** The three messages of that client, after the login. */
  lemma DescribeForbidden(cfg: Config, axis: Byte, info: AbsInfo, s: Slot, os: Os)
    requires Willing(os) && axis < ABS_CNT && Told(info, cfg.uinput) && !AxisPermitted(cfg, axis)
    requires Live(s) && s.status == SETUP_REQUIRED && s.meta == EmptyMeta()
    ensures var dev := UnnamedDevice(); var abs := EncodeAbsInfo(axis, info);
            && IsFrame(dev) && IsFrame(abs) && IsFrame([SETUP_END])
            && var s1 := Dispatch(cfg, 0, s, dev, os);
               var s2 := Dispatch(cfg, 0, s1.slot, abs, os);
               var s3 := Dispatch(cfg, 0, s2.slot, [SETUP_END], os);
               && Live(s1.slot) && s1.effects == [] && Live(s2.slot) && s2.effects == [] && Live(s3.slot)
               && s3.effects == [Created(s3.slot.evFd, SpecWanted(cfg, s2.slot.meta)), Sent([SUCCESS, 1], true)]
               && axis as int in SpecWanted(cfg, s2.slot.meta).axes
  {
    hide Creation, SpecNow, WholePlan, NameReadable, Told, NameField, FieldOf;
    var dev, abs := UnnamedDevice(), EncodeAbsInfo(axis, info);
    assert dev[DEVICE_SIZE..] == NameField([]) && abs[2..] == info;
    FieldOfField([]);
    var s1 := Dispatch(cfg, 0, s, dev, os);
    var s2 := Dispatch(cfg, 0, s1.slot, abs, os);
    assert s2.slot.meta.absinfo[axis] == info;
    WillingCreates(cfg, s2.slot, os);
  }

  /** A client of a fresh server gets a device with an axis the whitelist forbids. */
  lemma ForbiddenAxisRun(cfg: Config, axis: Byte, info: AbsInfo, oses: Oses)
    requires Willing(oses(0)) && axis < ABS_CNT && Told(info, cfg.uinput) && !AxisPermitted(cfg, axis)
    ensures var w := Run(cfg, Start(), ForbiddenAxisSteps(cfg, axis, info), oses);
            && LegalRun(cfg, Start(), ForbiddenAxisSteps(cfg, axis, info), oses)
            && w.ports[0].slot.evFd in w.kernel.devices
            && axis as int in w.kernel.devices[w.ports[0].slot.evFd].spec.axes
  {
    hide Run, LegalRun, Next, Legal, Dispatch, Told, AxisPermitted, LoginSteps, UnnamedDevice, SpecWanted;
    var dev, abs := UnnamedDevice(), EncodeAbsInfo(axis, info);
    EmptyPasswordRun(cfg, oses);
    var w0 := Run(cfg, Start(), LoginSteps(cfg), oses);
    var s := w0.ports[0].slot;
    DescribeForbidden(cfg, axis, info, s, oses(0));
    DeviceSize();
    var s1 := Dispatch(cfg, 0, s, dev, oses(0));
    var s2 := Dispatch(cfg, 0, s1.slot, abs, oses(0));
    var s3 := Dispatch(cfg, 0, s2.slot, [SETUP_END], oses(0));
    AbsorbFew(w0.kernel, s3.effects[0], s3.effects[1]);
    ServeOne(cfg, w0, 0, s, dev, oses);
    var w1 := Put(w0, 0, Port(s1.slot, []), []);
    ServeOne(cfg, w1, 0, s1.slot, abs, oses);
    var w2 := Put(w1, 0, Port(s2.slot, []), []);
    ServeOne(cfg, w2, 0, s2.slot, [SETUP_END], oses);
    var last := [SlotBytes(0, [SETUP_END])];
    RunOne(cfg, w2, SlotBytes(0, [SETUP_END]), oses);
    RunFirst(cfg, w1, SlotBytes(0, abs), last, oses);
    RunFirst(cfg, w0, SlotBytes(0, dev), [SlotBytes(0, abs)] + last, oses);
    assert [SlotBytes(0, dev)] + ([SlotBytes(0, abs)] + last)
        == [SlotBytes(0, dev), SlotBytes(0, abs), SlotBytes(0, [SETUP_END])];
    RunAppend(cfg, Start(), LoginSteps(cfg), [SlotBytes(0, dev), SlotBytes(0, abs), SlotBytes(0, [SETUP_END])], oses);
  }

  lemma DeviceSize()
    ensures |UnnamedDevice()| <= INPUT_BUFFER_SIZE
  {}

  // ---------- bytes that are no message ----------

  function StuckSteps(t: Byte): seq<Step> {
    GreetSteps(7) + [SlotBytes(0, [t])]
  }

  /** One byte that is no message type leaves a client connected and unheard. */
  lemma StuckRun(cfg: Config, t: Byte, oses: Oses)
    requires MessageLength(t) < 0
    ensures var w := Run(cfg, Start(), StuckSteps(t), oses);
            && LegalRun(cfg, Start(), StuckSteps(t), oses)
            && w.ports[0].slot.fd == 7 && Live(w.ports[0].slot) && w.ports[0].pending == [t] && Stuck([t])
  {
    hide Run, LegalRun, Put;
    Greet(cfg, Start(), 7, oses);
    var w := AfterGreeting(cfg, Start(), 7);
    assert [] + [t] == [t];
    AbsorbFew(w.kernel, Closed(0), Closed(0));
    StuckOnce(cfg, w.ports[0].slot, t, oses(0));
    PutNothing(w, 0, Port(w.ports[0].slot, [t]));
    RunOne(cfg, w, SlotBytes(0, [t]), oses);
    RunAppend(cfg, Start(), GreetSteps(7), [SlotBytes(0, [t])], oses);
  }

  /** The same client goes on until its buffer is full. From then on whatever it sends
      reads as the end of the stream, and the server hangs up. */
  lemma FullBufferRun(cfg: Config, t: Byte, more: Bytes, oses: Oses)
    requires MessageLength(t) < 0 && |more| == INPUT_BUFFER_SIZE - 1
    ensures var steps := StuckSteps(t) + [SlotBytes(0, more)]; var w := Run(cfg, Start(), steps, oses);
            && LegalRun(cfg, Start(), steps, oses)
            && w.ports[0].slot.fd == 7 && |w.ports[0].pending| == INPUT_BUFFER_SIZE
            && (forall input: Bytes :: SlotTurn(w, 0, input) == SlotDrop(0))
            && LegalRun(cfg, Start(), steps + [SlotDrop(0)], oses)
            && Run(cfg, Start(), steps + [SlotDrop(0)], oses).ports[0].slot.fd == -1
  {
    hide Run, LegalRun, Put;
    var steps := StuckSteps(t) + [SlotBytes(0, more)];
    StuckRun(cfg, t, oses);
    var w := Run(cfg, Start(), StuckSteps(t), oses);
    var s := w.ports[0].slot;
    StuckMore(cfg, s, t, more, oses(0));
    AbsorbFew(w.kernel, Closed(0), Closed(0));
    PutNothing(w, 0, Port(s, [t] + more));
    RunOne(cfg, w, SlotBytes(0, more), oses);
    RunAppend(cfg, Start(), StuckSteps(t), [SlotBytes(0, more)], oses);
    var full := Run(cfg, Start(), steps, oses);
    RunOne(cfg, full, SlotDrop(0), oses);
    RunAppend(cfg, Start(), steps, [SlotDrop(0)], oses);
    ClosedSlot(full, oses(0));
  }

  lemma StuckMore(cfg: Config, s: Slot, t: Byte, more: Bytes, os: Os)
    requires Live(s) && MessageLength(t) < 0
    ensures Drain(cfg.loop, cfg, 0, s, [t] + more, os) == Served(Port(s, [t] + more), [])
  {}

  lemma ClosedSlot(w: World, os: Os)
    requires Shaped(w)
    ensures CloseSlot(w, 0, false, os).ports[0].slot.fd == -1
  {}

  lemma StuckOnce(cfg: Config, s: Slot, t: Byte, os: Os)
    requires Live(s) && MessageLength(t) < 0
    ensures Drain(cfg.loop, cfg, 0, s, [t], os) == Served(Port(s, [t]), [])
  {}

  lemma PutNothing(w: World, u: nat, p: Port)
    requires Shaped(w) && u < MAX_CLIENTS
    ensures Put(w, u, p, []).ports[u] == p
  {}
}
