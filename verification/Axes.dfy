/** Axes and the whitelist. Requested events are checked against the whitelist, the
    axes a client describes are not: what that means for the devices of a server,
    and exactly when a device only has axes the whitelist permits. */
module Axes {
  import opened Protocol
  import opened Uinput
  import opened DeviceCreation
  import opened Slots
  import opened Kernel
  import opened World

  predicate AxisPermitted(cfg: Config, axis: int) {
    0 <= axis < ABS_CNT && EventId(EV_ABS, axis) in cfg.whitelist
  }

  predicate AxesPermitted(cfg: Config, spec: DeviceSpec) {
    forall axis | axis in spec.axes :: AxisPermitted(cfg, axis)
  }

  /** Every axis the kernel would be told about is permitted. */
  predicate MetaPermitted(cfg: Config, meta: Meta) {
    forall c: nat | c < ABS_CNT && Told(meta.absinfo[c], cfg.uinput) :: AxisPermitted(cfg, c)
  }

  /** Every device that is created has permitted axes only. */
  predicate AllPermitted(cfg: Config, effects: seq<Effect>) {
    forall e | e in effects && e.Created? :: AxesPermitted(cfg, e.spec)
  }

  lemma AllPermittedAppend(cfg: Config, a: seq<Effect>, b: seq<Effect>)
    ensures AllPermitted(cfg, a + b) <==> AllPermitted(cfg, a) && AllPermitted(cfg, b)
  {
    assert forall e :: e in a + b <==> e in a || e in b;
  }

  // ---------- one message ----------

  /** An ABSINFO in its turn that stores, for an axis the whitelist forbids, an info
      the kernel is told about. */
  predicate TakesForbidden(cfg: Config, s: Slot, msg: Bytes)
    requires IsFrame(msg)
  {
    && msg[0] == ABSINFO
    && s.status == SETUP_REQUIRED
    && msg[1] < ABS_CNT
    && Told(msg[2..], cfg.uinput)
    && !AxisPermitted(cfg, msg[1])
  }

  /** A SETUP_END that creates and describes a device while such an info is stored. */
  predicate SetsUpForbidden(cfg: Config, s: Slot, msg: Bytes, os: Os) {
    && msg == [SETUP_END]
    && s.status == SETUP_REQUIRED
    && Creation(cfg, s, os).fd >= 0
    && Described(cfg.uinput, SetupOk(s.meta, cfg.uinput, Answers(os, s.calls)))
    && !MetaPermitted(cfg, s.meta)
  }

  lemma SpecPermitted(cfg: Config, meta: Meta, setupOk: bool)
    ensures AxesPermitted(cfg, SpecOf(meta, cfg.uinput, setupOk))
       <==> Described(cfg.uinput, setupOk) ==> MetaPermitted(cfg, meta)
  {
    hide Told, AxisPermitted, PassedOn, FieldOf, NameField, Requested;
    var spec := SpecOf(meta, cfg.uinput, setupOk);
    assert forall c: nat | c < ABS_CNT ::
        c in spec.axes <==> Described(cfg.uinput, setupOk) && Told(meta.absinfo[c], cfg.uinput);
  }

  lemma DispatchAxes(cfg: Config, index: nat, s: Slot, msg: Bytes, os: Os)
    requires index < 0xFF && IsFrame(msg)
    ensures var o := Dispatch(cfg, index, s, msg, os);
            && (AllPermitted(cfg, o.effects) <==> !SetsUpForbidden(cfg, s, msg, os))
            && (MetaPermitted(cfg, s.meta) && !TakesForbidden(cfg, s, msg) ==> MetaPermitted(cfg, o.slot.meta))
  {
    hide Creation, SpecOf, SetupOk, AxesPermitted, MetaPermitted, TakesForbidden, Described, StrncmpEqual;
    DispatchMeta(cfg, index, s, msg, os);
    if msg[0] == SETUP_END {
      assert msg == [SETUP_END];
      SpecPermitted(cfg, s.meta, SetupOk(s.meta, cfg.uinput, Answers(os, s.calls)));
      CreatedIsDefined(cfg, s, os);
      var h := HandleSetupEnd(cfg, s, index, os);
      if |h.effects| == 2 {
        assert h.effects[0] in h.effects;
      }
      AllPermittedAppend(cfg, h.effects, [Closed(s.fd)]);
    }
  }

  lemma DispatchMeta(cfg: Config, index: nat, s: Slot, msg: Bytes, os: Os)
    requires index < 0xFF && IsFrame(msg)
    ensures var o := Dispatch(cfg, index, s, msg, os);
            MetaPermitted(cfg, s.meta) && !TakesForbidden(cfg, s, msg) ==> MetaPermitted(cfg, o.slot.meta)
  {
    hide Creation, SpecNow, StrncmpEqual, MetaPermitted, TakesForbidden;
    var o := Dispatch(cfg, index, s, msg, os);
    if msg[0] == ABSINFO {
      AbsInfoMeta(cfg, s, msg);
    } else {
      assert o.slot.meta.absinfo == s.meta.absinfo || o.slot.meta == EmptyMeta();
      SameAxes(cfg, s.meta, o.slot.meta);
    }
  }

  lemma AbsInfoMeta(cfg: Config, s: Slot, msg: Bytes)
    requires IsFrame(msg) && msg[0] == ABSINFO
    ensures MetaPermitted(cfg, s.meta) && !TakesForbidden(cfg, s, msg) ==>
              MetaPermitted(cfg, HandleAbsInfo(s, msg).slot.meta)
  {
    hide AxisPermitted, Told;
  }

  lemma SameAxes(cfg: Config, meta: Meta, meta': Meta)
    requires meta'.absinfo == meta.absinfo || meta' == EmptyMeta()
    ensures MetaPermitted(cfg, meta) ==> MetaPermitted(cfg, meta')
  {
    hide AxisPermitted, Told;
    NoAxisUnset(cfg.uinput);
  }

  lemma NoAxisUnset(version: int)
    ensures !Told(NoInfo(), version)
  {}

  /** Whether serving a buffer comes to such an ABSINFO. */
  predicate BufferTakes(cfg: Config, index: nat, s: Slot, buf: Bytes, os: Os)
    requires index < 0xFF
    decreases |buf|
  {
    var n := HeadFrame(buf);
    && Live(s) && 0 < n <= |buf|
    && (|| TakesForbidden(cfg, s, buf[..n])
        || BufferTakes(cfg, index, Dispatch(cfg, index, s, buf[..n], os).slot, buf[n..], os))
  }

  /** Whether serving a buffer comes to such a SETUP_END. */
  predicate BufferSetsUp(cfg: Config, index: nat, s: Slot, buf: Bytes, os: Os)
    requires index < 0xFF
    decreases |buf|
  {
    var n := HeadFrame(buf);
    && Live(s) && 0 < n <= |buf|
    && (|| SetsUpForbidden(cfg, s, buf[..n], os)
        || BufferSetsUp(cfg, index, Dispatch(cfg, index, s, buf[..n], os).slot, buf[n..], os))
  }

  lemma {:induction false} DrainAxes(rule: Rule, cfg: Config, index: nat, s: Slot, buf: Bytes, os: Os)
    requires index < 0xFF
    ensures var r := Drain(rule, cfg, index, s, buf, os);
            && (AllPermitted(cfg, r.effects) <==> !BufferSetsUp(cfg, index, s, buf, os))
            && (MetaPermitted(cfg, s.meta) && !BufferTakes(cfg, index, s, buf, os) ==>
                  MetaPermitted(cfg, r.port.slot.meta) && AllPermitted(cfg, r.effects))
    decreases |buf|
  {
    hide Dispatch, SetsUpForbidden, TakesForbidden, MetaPermitted, AxesPermitted;
    var n := HeadFrame(buf);
    if Live(s) && n > 0 && !LoneHeader(buf) {
      var first := Dispatch(cfg, index, s, buf[..n], os);
      var rest := Drain(rule, cfg, index, first.slot, buf[n..], os);
      DispatchAxes(cfg, index, s, buf[..n], os);
      PermittedIsEnough(cfg, s, buf[..n], os);
      DrainAxes(rule, cfg, index, first.slot, buf[n..], os);
      AllPermittedAppend(cfg, first.effects, rest.effects);
    }
  }

  lemma PermittedIsEnough(cfg: Config, s: Slot, msg: Bytes, os: Os)
    ensures MetaPermitted(cfg, s.meta) ==> !SetsUpForbidden(cfg, s, msg, os)
  {}

  /** The guard that is missing: a slot with permitted axes that is told about one
      more and then to finish makes a device with permitted axes if and only if that
      axis is permitted or the kernel is not told about its info. */
  lemma MissingGuard(cfg: Config, index: nat, s: Slot, msg: Bytes, os: Os)
    requires index < 0xFF && Live(s) && s.status == SETUP_REQUIRED && NameReadable(s.meta.name) && Willing(os)
    requires IsFrame(msg) && msg[0] == ABSINFO && msg[1] < ABS_CNT && MetaPermitted(cfg, s.meta)
    ensures var told := Dispatch(cfg, index, s, msg, os);
            var done := Dispatch(cfg, index, told.slot, [SETUP_END], os);
            && IsFrame([SETUP_END]) && Live(told.slot) && done.slot.status == SUCCESS
            && (exists e :: e in done.effects && e.Created?)
            && (AllPermitted(cfg, done.effects) <==> AxisPermitted(cfg, msg[1]) || !Told(msg[2..], cfg.uinput))
  {
    hide Creation, SpecNow, SpecWanted, WholePlan, NameReadable, AxisPermitted, Told, AxesPermitted, SpecOf;
    var told := Dispatch(cfg, index, s, msg, os);
    WillingCreates(cfg, told.slot, os);
    var done := Dispatch(cfg, index, told.slot, [SETUP_END], os);
    assert done.effects[0] == Created(os(told.slot.calls), SpecWanted(cfg, told.slot.meta));
    assert done.effects[0] in done.effects;
    WantedPermitted(cfg, told.slot.meta);
    assert told.slot.meta.absinfo[msg[1]] == msg[2..];
    assert forall c: nat | c < ABS_CNT && c != msg[1] :: told.slot.meta.absinfo[c] == s.meta.absinfo[c];
  }

  /** A forbidden axis can be taken back: the same axis with an info the kernel is not
      told about leaves the slot as permitted as it was, so the ABSINFO alone does not decide. */
  lemma TakenBack(cfg: Config, index: nat, s: Slot, msg: Bytes, back: Bytes, os: Os)
    requires index < 0xFF && Live(s) && MetaPermitted(cfg, s.meta) && IsFrame(msg) && IsFrame(back)
    requires TakesForbidden(cfg, s, msg) && back[0] == ABSINFO && back[1] == msg[1] && !Told(back[2..], cfg.uinput)
    ensures var told := Dispatch(cfg, index, s, msg, os).slot;
            && !MetaPermitted(cfg, told.meta)
            && MetaPermitted(cfg, Dispatch(cfg, index, told, back, os).slot.meta)
  {
    hide AxisPermitted, Told;
    var told := Dispatch(cfg, index, s, msg, os).slot;
    assert told.meta.absinfo[msg[1]] == msg[2..];
    var after := Dispatch(cfg, index, told, back, os).slot;
    assert forall c: nat | c < ABS_CNT :: after.meta.absinfo[c] == if c == msg[1] then back[2..] else s.meta.absinfo[c];
  }

  lemma WantedPermitted(cfg: Config, meta: Meta)
    ensures AxesPermitted(cfg, SpecWanted(cfg, meta)) <==> MetaPermitted(cfg, meta)
  {
    hide AxesPermitted, MetaPermitted, SpecOf;
    SpecPermitted(cfg, meta, true);
  }

  /** What a server could test before it takes a SETUP_END: whatever the operating
      system answers, the message makes no device with a forbidden axis, if and only
      if the slot has no readable name or holds permitted axes only. */
  lemma GuardedSetup(cfg: Config, index: nat, s: Slot)
    requires index < 0xFF && Live(s) && s.status == SETUP_REQUIRED
    ensures IsFrame([SETUP_END])
    ensures (forall os: Os :: AllPermitted(cfg, Dispatch(cfg, index, s, [SETUP_END], os).effects))
       <==> !NameReadable(s.meta.name) || MetaPermitted(cfg, s.meta)
  {
    hide Dispatch, AllPermitted, MetaPermitted, NameReadable, Creation, Described, SetupOk;
    forall os: Os
      ensures AllPermitted(cfg, Dispatch(cfg, index, s, [SETUP_END], os).effects)
         <==> !SetsUpForbidden(cfg, s, [SETUP_END], os)
      ensures SetsUpForbidden(cfg, s, [SETUP_END], os) ==> NameReadable(s.meta.name)
    {
      DispatchAxes(cfg, index, s, [SETUP_END], os);
      CreatedIsDefined(cfg, s, os);
    }
    if NameReadable(s.meta.name) && !MetaPermitted(cfg, s.meta) {
      var os: Os := (n: nat) => 0;
      WillingDescribes(cfg, s, os);
      assert SetsUpForbidden(cfg, s, [SETUP_END], os);
    }
  }

  lemma WillingDescribes(cfg: Config, s: Slot, os: Os)
    requires NameReadable(s.meta.name) && Willing(os)
    ensures Creation(cfg, s, os).fd >= 0
    ensures Described(cfg.uinput, SetupOk(s.meta, cfg.uinput, Answers(os, s.calls)))
  {
    hide Creation, NameReadable;
    WillingCreates(cfg, s, os);
  }

  // ---------- every run ----------

  /** What serving slots does in a step: no other step creates a device. */
  function ServingEffects(cfg: Config, w: World, step: Step, oses: Oses): seq<Effect>
    requires Shaped(w)
  {
    match step
    case SlotBytes(u, chunk) =>
      if u < MAX_CLIENTS then Feed(cfg.loop, cfg, u, w.ports[u], chunk, oses(u)).effects else []
    case _ => []
  }

  predicate StepTakes(cfg: Config, w: World, step: Step, oses: Oses)
    requires Shaped(w)
  {
    match step
    case SlotBytes(u, chunk) =>
      u < MAX_CLIENTS && BufferTakes(cfg, u, w.ports[u].slot, w.ports[u].pending + chunk, oses(u))
    case _ => false
  }

  predicate StepSetsUp(cfg: Config, w: World, step: Step, oses: Oses)
    requires Shaped(w)
  {
    match step
    case SlotBytes(u, chunk) =>
      u < MAX_CLIENTS && BufferSetsUp(cfg, u, w.ports[u].slot, w.ports[u].pending + chunk, oses(u))
    case _ => false
  }

  function AllServing(cfg: Config, w: World, steps: seq<Step>, oses: Oses): seq<Effect>
    requires Shaped(w)
    decreases |steps|
  {
    if steps == [] then []
    else ServingEffects(cfg, w, steps[0], oses) + AllServing(cfg, Next(cfg, w, steps[0], oses), steps[1..], oses)
  }

  /** Some ABSINFO of the run has the kernel told about a forbidden axis. */
  predicate RunTakes(cfg: Config, w: World, steps: seq<Step>, oses: Oses)
    requires Shaped(w)
    decreases |steps|
  {
    steps != [] &&
      (StepTakes(cfg, w, steps[0], oses) || RunTakes(cfg, Next(cfg, w, steps[0], oses), steps[1..], oses))
  }

  /** Some SETUP_END of the run tells the kernel about a forbidden axis. */
  predicate RunSetsUp(cfg: Config, w: World, steps: seq<Step>, oses: Oses)
    requires Shaped(w)
    decreases |steps|
  {
    steps != [] &&
      (StepSetsUp(cfg, w, steps[0], oses) || RunSetsUp(cfg, Next(cfg, w, steps[0], oses), steps[1..], oses))
  }

  lemma StepAxes(cfg: Config, w: World, step: Step, oses: Oses)
    requires Shaped(w)
    ensures AllPermitted(cfg, ServingEffects(cfg, w, step, oses)) <==> !StepSetsUp(cfg, w, step, oses)
  {
    hide Drain, BufferSetsUp, AxesPermitted;
    if step.SlotBytes? && step.u < MAX_CLIENTS {
      var p := w.ports[step.u];
      DrainAxes(cfg.loop, cfg, step.u, p.slot, p.pending + step.chunk, oses(step.u));
      DeadSetsNothingUp(cfg, step.u, p.slot, p.pending + step.chunk, oses(step.u));
    }
  }

  lemma DeadSetsNothingUp(cfg: Config, index: nat, s: Slot, buf: Bytes, os: Os)
    requires index < 0xFF
    ensures !Live(s) ==> !BufferSetsUp(cfg, index, s, buf, os)
  {}

  /** For every run: the devices it creates all have permitted axes only, if and only
      if no SETUP_END creates one while the kernel is told about a forbidden axis. */
  lemma {:induction false} AxesExactly(cfg: Config, w: World, steps: seq<Step>, oses: Oses)
    requires Shaped(w)
    ensures AllPermitted(cfg, AllServing(cfg, w, steps, oses)) <==> !RunSetsUp(cfg, w, steps, oses)
    decreases |steps|
  {
    hide Next, ServingEffects, StepSetsUp, AxesPermitted;
    if steps != [] {
      var w1 := Next(cfg, w, steps[0], oses);
      StepAxes(cfg, w, steps[0], oses);
      AxesExactly(cfg, w1, steps[1..], oses);
      AllPermittedAppend(cfg, ServingEffects(cfg, w, steps[0], oses), AllServing(cfg, w1, steps[1..], oses));
    }
  }

  /** Every device of k' is one of k or was created by one of the effects. */
  predicate ComeFrom(k: Kernel, k': Kernel, effects: seq<Effect>) {
    forall d | d in k'.devices ::
      (d in k.devices && k'.devices[d].spec == k.devices[d].spec) || Created(d, k'.devices[d].spec) in effects
  }

  lemma {:induction false} AbsorbComesFrom(k: Kernel, effects: seq<Effect>)
    ensures ComeFrom(k, Absorb(k, effects), effects)
    decreases |effects|
  {
    if effects != [] {
      AbsorbComesFrom(AbsorbOne(k, effects[0]), effects[1..]);
      assert forall e | e in effects[1..] :: e in effects;
      assert effects[0] in effects;
    }
  }

  lemma ComeFromThen(k: Kernel, k1: Kernel, k2: Kernel, a: seq<Effect>, b: seq<Effect>)
    requires ComeFrom(k, k1, a) && ComeFrom(k1, k2, b)
    ensures ComeFrom(k, k2, a + b)
  {
    assert forall e | e in a || e in b :: e in a + b;
  }

  lemma NoneCreated(k: Kernel, effects: seq<Effect>)
    requires forall e | e in effects :: !e.Created?
    ensures ComeFrom(k, Absorb(k, effects), [])
  {
    AbsorbComesFrom(k, effects);
  }

  lemma NextCreates(cfg: Config, w: World, step: Step, oses: Oses)
    requires Shaped(w)
    ensures ComeFrom(w.kernel, Next(cfg, w, step, oses).kernel, ServingEffects(cfg, w, step, oses))
  {
    hide Absorb, Choose, Drain;
    match step
    case Accept(_) =>
    case SlotBytes(u, chunk) =>
      if u < MAX_CLIENTS {
        AbsorbComesFrom(w.kernel, Feed(cfg.loop, cfg, u, w.ports[u], chunk, oses(u)).effects);
      }
    case SlotDrop(u) => if u < MAX_CLIENTS { NoneCreated(w.kernel, Close(w.ports[u].slot, false, oses(u)).effects); }
    case WaitBytes(i, chunk, _) =>
      if i < MAX_WAITING_CLIENTS {
        forall u: nat | u < MAX_CLIENTS
          ensures ComeFrom(w.kernel, Absorb(w.kernel, Cleanup(w.ports[u].slot, oses(u)).effects), [])
        {
          NoneCreated(w.kernel, Cleanup(w.ports[u].slot, oses(u)).effects);
        }
        WaitCreates(cfg, w, i, chunk, step.sent, oses);
      }
    case WaitDrop(_) =>
    case Shutdown => CloseCreates(cfg, w, |w.ports|, oses);
  }

  lemma WaitCreates(cfg: Config, w: World, i: nat, chunk: Bytes, sent: bool, oses: Oses)
    requires Shaped(w) && i < MAX_WAITING_CLIENTS
    requires forall u: nat | u < MAX_CLIENTS ::
               ComeFrom(w.kernel, Absorb(w.kernel, Cleanup(w.ports[u].slot, oses(u)).effects), [])
    ensures ComeFrom(w.kernel, WaitStep(cfg, w, i, chunk, sent, oses).kernel, [])
  {
    hide Absorb, Cleanup;
  }

  lemma {:induction false} CloseCreates(cfg: Config, w: World, n: nat, oses: Oses)
    requires Shaped(w) && n <= MAX_CLIENTS
    ensures ComeFrom(w.kernel, CloseFirst(w, n, oses).kernel, [])
  {
    hide Absorb;
    if n > 0 {
      CloseCreates(cfg, w, n - 1, oses);
      var w1 := CloseFirst(w, n - 1, oses);
      NoneCreated(w1.kernel, Close(w1.ports[n - 1].slot, true, oses(n - 1)).effects);
    }
  }

  /** Every device of a run was created by serving a slot. */
  lemma {:induction false} RunCreates(cfg: Config, w: World, steps: seq<Step>, oses: Oses)
    requires Shaped(w)
    ensures ComeFrom(w.kernel, Run(cfg, w, steps, oses).kernel, AllServing(cfg, w, steps, oses))
    decreases |steps|
  {
    hide Next, ServingEffects, ComeFrom;
    if steps == [] {
      NoneCreated(w.kernel, []);
    } else {
      var w1 := Next(cfg, w, steps[0], oses);
      NextCreates(cfg, w, steps[0], oses);
      RunCreates(cfg, w1, steps[1..], oses);
      ComeFromThen(w.kernel, w1.kernel, Run(cfg, w1, steps[1..], oses).kernel,
                   ServingEffects(cfg, w, steps[0], oses), AllServing(cfg, w1, steps[1..], oses));
    }
  }

  /** No axis the kernel would be told about and no axis of a device is forbidden. */
  predicate AxesOk(cfg: Config, w: World)
    requires Shaped(w)
  {
    && (forall u | 0 <= u < MAX_CLIENTS :: MetaPermitted(cfg, w.ports[u].slot.meta))
    && (forall d | d in w.kernel.devices :: AxesPermitted(cfg, w.kernel.devices[d].spec))
  }

  lemma {:induction false} AbsorbAxes(cfg: Config, k: Kernel, effects: seq<Effect>)
    requires AllPermitted(cfg, effects)
    requires forall d | d in k.devices :: AxesPermitted(cfg, k.devices[d].spec)
    ensures forall d | d in Absorb(k, effects).devices :: AxesPermitted(cfg, Absorb(k, effects).devices[d].spec)
    decreases |effects|
  {
    hide AxesPermitted;
    if effects != [] {
      assert effects[0] in effects;
      assert forall e | e in effects[1..] :: e in effects;
      AbsorbAxes(cfg, AbsorbOne(k, effects[0]), effects[1..]);
    }
  }

  lemma PutAxes(cfg: Config, w: World, u: nat, p: Port, effects: seq<Effect>)
    requires Shaped(w) && AxesOk(cfg, w) && u < MAX_CLIENTS
    requires MetaPermitted(cfg, p.slot.meta) && AllPermitted(cfg, effects)
    ensures AxesOk(cfg, Put(w, u, p, effects))
  {
    hide MetaPermitted, AxesPermitted, AllPermitted, Absorb;
    AbsorbAxes(cfg, w.kernel, effects);
  }

  /** Closing forgets axes or keeps them, and creates no device. */
  lemma CloseAxes(cfg: Config, s: Slot, cleanup: bool, os: Os)
    requires MetaPermitted(cfg, s.meta)
    ensures MetaPermitted(cfg, Close(s, cleanup, os).slot.meta) && AllPermitted(cfg, Close(s, cleanup, os).effects)
    ensures MetaPermitted(cfg, Cleanup(s, os).slot.meta) && AllPermitted(cfg, Cleanup(s, os).effects)
  {
    hide AxisPermitted, Told;
    NoAxisUnset(cfg.uinput);
  }

  lemma {:induction false} CloseFirstAxes(cfg: Config, w: World, n: nat, oses: Oses)
    requires Shaped(w) && AxesOk(cfg, w) && n <= MAX_CLIENTS
    ensures AxesOk(cfg, CloseFirst(w, n, oses))
  {
    hide MetaPermitted, AxesPermitted, AllPermitted, Close, Put;
    if n > 0 {
      CloseFirstAxes(cfg, w, n - 1, oses);
      var w1 := CloseFirst(w, n - 1, oses);
      var o := Close(w1.ports[n - 1].slot, true, oses(n - 1));
      CloseAxes(cfg, w1.ports[n - 1].slot, true, oses(n - 1));
      PutAxes(cfg, w1, n - 1, Port(o.slot, []), o.effects);
    }
  }

  lemma PromoteAxes(cfg: Config, w: World, i: nat, u: nat, sent: bool)
    requires Shaped(w) && AxesOk(cfg, w) && i < MAX_WAITING_CLIENTS && u < MAX_CLIENTS
    ensures AxesOk(cfg, Promote(cfg, w, i, u, sent).world)
  {
    hide MetaPermitted, AxesPermitted;
    var w' := Promote(cfg, w, i, u, sent).world;
    assert forall v | 0 <= v < MAX_CLIENTS :: w'.ports[v].slot.meta == w.ports[v].slot.meta;
  }

  lemma WaitAxes(cfg: Config, w: World, i: nat, chunk: Bytes, sent: bool, oses: Oses)
    requires Shaped(w) && AxesOk(cfg, w) && i < MAX_WAITING_CLIENTS
    ensures AxesOk(cfg, WaitStep(cfg, w, i, chunk, sent, oses))
  {
    hide MetaPermitted, AxesPermitted, AllPermitted, Put, Cleanup;
    var buf := w.waiting[i].pending + chunk;
    if |buf| >= HELLO_SIZE && buf[0] == HELLO && buf[1] == PROTOCOL_VERSION {
      match Choose(w.ports, buf[2])
      case Refuse(_) =>
      case Take(u) => PromoteAxes(cfg, w, i, u, sent);
      case Evict(u) =>
        var o := Cleanup(w.ports[u].slot, oses(u));
        CloseAxes(cfg, w.ports[u].slot, false, oses(u));
        PutAxes(cfg, w, u, Port(o.slot, []), o.effects);
        PromoteAxes(cfg, Put(w, u, Port(o.slot, []), o.effects), i, u, sent);
    }
  }

  lemma NextAxes(cfg: Config, w: World, step: Step, oses: Oses)
    requires Shaped(w) && AxesOk(cfg, w) && !StepTakes(cfg, w, step, oses)
    ensures AxesOk(cfg, Next(cfg, w, step, oses))
  {
    hide MetaPermitted, AxesPermitted, AllPermitted, Close, Put, WaitStep, CloseFirst, Drain, BufferTakes;
    match step
    case Accept(_) =>
    case SlotBytes(u, chunk) =>
      if u < MAX_CLIENTS {
        var p := w.ports[u];
        var r := Feed(cfg.loop, cfg, u, p, chunk, oses(u));
        DrainAxes(cfg.loop, cfg, u, p.slot, p.pending + chunk, oses(u));
        NothingPermitted(cfg);
        PutAxes(cfg, w, u, r.port, r.effects);
      }
    case SlotDrop(u) =>
      if u < MAX_CLIENTS {
        var o := Close(w.ports[u].slot, false, oses(u));
        CloseAxes(cfg, w.ports[u].slot, false, oses(u));
        PutAxes(cfg, w, u, Port(o.slot, []), o.effects);
      }
    case WaitBytes(i, chunk, sent) => if i < MAX_WAITING_CLIENTS { WaitAxes(cfg, w, i, chunk, sent, oses); }
    case WaitDrop(_) =>
    case Shutdown => CloseFirstAxes(cfg, w, |w.ports|, oses);
  }

  lemma NothingPermitted(cfg: Config)
    ensures AllPermitted(cfg, [])
  {}

  lemma {:induction false} RunAxes(cfg: Config, w: World, steps: seq<Step>, oses: Oses)
    requires Shaped(w) && AxesOk(cfg, w) && !RunTakes(cfg, w, steps, oses)
    ensures AxesOk(cfg, Run(cfg, w, steps, oses))
    decreases |steps|
  {
    hide AxesOk, Next, StepTakes;
    if steps != [] {
      NextAxes(cfg, w, steps[0], oses);
      RunAxes(cfg, Next(cfg, w, steps[0], oses), steps[1..], oses);
    }
  }

  /** The whitelist covers the axes of every device of a run in which no ABSINFO
      has the kernel told about a forbidden one. */
  lemma AxesOnWhitelist(cfg: Config, steps: seq<Step>, oses: Oses)
    requires !RunTakes(cfg, Start(), steps, oses)
    ensures var w := Run(cfg, Start(), steps, oses);
            forall d, axis :: d in w.kernel.devices && axis in w.kernel.devices[d].spec.axes ==>
              AxisPermitted(cfg, axis)
  {
    hide Run, RunTakes, AxisPermitted, Told;
    NoAxisUnset(cfg.uinput);
    RunAxes(cfg, Start(), steps, oses);
  }
}
