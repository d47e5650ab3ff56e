/** Slots do not interfere: what a connected client experiences is what it would
    experience alone on the server. */
module Isolation {
  import opened Protocol
  import opened Slots
  import opened Kernel
  import opened World
  import opened Runs

  /** A slot alone: its buffer, its own devices, its history. */
  datatype Solo = Solo(port: Port, kernel: Kernel, history: seq<Effect>)

  predicate Own(step: Step, u: nat) {
    (step.SlotBytes? && step.u == u) || (step.SlotDrop? && step.u == u)
  }

  function SoloStep(cfg: Config, u: nat, x: Solo, step: Step, os: Os): Solo
    requires u < MAX_CLIENTS
  {
    if step.SlotBytes? then
      var r := Feed(cfg.loop, cfg, u, x.port, step.chunk, os);
      Solo(r.port, Absorb(x.kernel, r.effects), x.history + r.effects)
    else
      var o := Close(x.port.slot, false, os);
      Solo(Port(o.slot, []), Absorb(x.kernel, o.effects), x.history + o.effects)
  }

  /** Runs the steps of slot u and skips all others. */
  function SoloRun(cfg: Config, u: nat, x: Solo, steps: seq<Step>, os: Os): Solo
    requires u < MAX_CLIENTS
    decreases |steps|
  {
    if steps == [] then x
    else SoloRun(cfg, u, if Own(steps[0], u) then SoloStep(cfg, u, x, steps[0], os) else x, steps[1..], os)
  }

  /** The slot's own bytes keep it connected throughout, and the server stays up. */
  predicate StaysConnected(cfg: Config, u: nat, x: Solo, steps: seq<Step>, os: Os)
    requires u < MAX_CLIENTS
    decreases |steps|
  {
    && x.port.slot.fd >= 0
    && (steps != [] ==>
          && steps[0] != Shutdown
          && StaysConnected(cfg, u, if Own(steps[0], u) then SoloStep(cfg, u, x, steps[0], os) else x, steps[1..], os))
  }

  /** All devices of j exist in k, in the same state. */
  predicate Within(j: Kernel, k: Kernel) {
    forall d | d in j.devices :: d in k.devices && k.devices[d] == j.devices[d]
  }

  /** The slot in the full server is the slot alone. Its devices, including those
      it left behind by setting up anew, belong to no other slot. */
  predicate Matches(cfg: Config, w: World, u: nat, x: Solo)
    requires Shaped(w) && u < MAX_CLIENTS
  {
    && w.ports[u] == x.port
    && w.history[u] == x.history
    && SlotOk(cfg, x.port.slot, x.kernel, x.history)
    && DevicesOk(cfg, x.kernel)
    && Within(x.kernel, w.kernel)
    && (forall d | d in x.kernel.devices :: d >= 0)
    && (forall v | 0 <= v < MAX_CLIENTS && v != u :: w.ports[v].slot.evFd !in x.kernel.devices)
  }

  /** The same effects keep a part of the kernel within the whole. */
  lemma {:induction false} AbsorbWithin(j: Kernel, k: Kernel, effects: seq<Effect>)
    requires Within(j, k) && Feasible(k, effects)
    ensures Feasible(j, effects) && Within(Absorb(j, effects), Absorb(k, effects))
    decreases |effects|
  {
    if effects != [] {
      AbsorbWithin(AbsorbOne(j, effects[0]), AbsorbOne(k, effects[0]), effects[1..]);
    }
  }

  /** What effects on its own devices add to the part was not in the whole before. */
  lemma {:induction false} AbsorbAddsNew(j: Kernel, k: Kernel, effects: seq<Effect>)
    requires Within(j, k) && Feasible(k, effects) && Sound(j, effects)
    ensures forall d | d in Absorb(j, effects).devices :: d in j.devices || d !in k.devices
    decreases |effects|
  {
    if effects != [] {
      AbsorbAddsNew(AbsorbOne(j, effects[0]), AbsorbOne(k, effects[0]), effects[1..]);
    }
  }

  lemma {:induction false} NonNegativeDevices(k: Kernel, effects: seq<Effect>)
    requires forall d | d in k.devices :: d >= 0
    requires forall e | e in effects :: e.Created? ==> e.dev >= 0
    ensures forall d | d in Absorb(k, effects).devices :: d >= 0
    decreases |effects|
  {
    if effects != [] {
      assert effects[0] in effects;
      assert forall e | e in effects[1..] :: e in effects;
      NonNegativeDevices(AbsorbOne(k, effects[0]), effects[1..]);
    }
  }

  lemma {:induction false} DrainCreates(rule: Rule, cfg: Config, index: nat, s: Slot, buf: Bytes, os: Os)
    requires index < 0xFF
    ensures forall e | e in Drain(rule, cfg, index, s, buf, os).effects :: e.Created? ==> e.dev >= 0
    decreases |buf|
  {
    var n := HeadFrame(buf);
    if Live(s) && n > 0 && !(LoneHeader(buf) && rule == AsWritten) {
      var first := Dispatch(cfg, index, s, buf[..n], os);
      DispatchCreates(cfg, index, s, buf[..n], os);
      DrainCreates(rule, cfg, index, first.slot, buf[n..], os);
    }
  }

  lemma DispatchCreates(cfg: Config, index: nat, s: Slot, msg: Bytes, os: Os)
    requires index < 0xFF && IsFrame(msg)
    ensures forall e | e in Dispatch(cfg, index, s, msg, os).effects :: e.Created? ==> e.dev >= 0
  {}

  // ---------- steps of others ----------

  /** A step of anyone else leaves a connected slot and its devices alone. */
  lemma OthersKeepMatch(cfg: Config, w: World, u: nat, x: Solo, step: Step, oses: Oses)
    requires Inv(cfg, w) && u < MAX_CLIENTS && Legal(cfg, w, step, oses)
    requires Matches(cfg, w, u, x) && x.port.slot.fd >= 0
    requires !Own(step, u) && step != Shutdown
    ensures Matches(cfg, Next(cfg, w, step, oses), u, x)
  {
    hide SlotOk, DevicesOk, Exclusive, Accounted, SlotsOk, BuffersOk, DevicesExclusive, Feasible, Drain, Close;
    match step
    case Accept(result) =>
    case SlotBytes(v, chunk) =>
      var r := Feed(cfg.loop, cfg, v, w.ports[v], chunk, oses(v));
      ServeIsLocal(cfg, w, v, chunk, oses(v));
      PutMatches(cfg, w, u, x, v, r.port, r.effects);
    case SlotDrop(v) =>
      var o := Close(w.ports[v].slot, false, oses(v));
      CloseIsLocal(cfg, w, v, oses(v));
      PutMatches(cfg, w, u, x, v, Port(o.slot, []), o.effects);
    case WaitBytes(i, chunk, sent) =>
      WaitKeepsMatch(cfg, w, u, x, i, chunk, sent, oses);
    case WaitDrop(i) =>
  }

  lemma ServeIsLocal(cfg: Config, w: World, v: nat, chunk: Bytes, os: Os)
    requires Inv(cfg, w) && v < MAX_CLIENTS && w.ports[v].slot.fd >= 0
    requires var r := Feed(cfg.loop, cfg, v, w.ports[v], chunk, os);
             !r.port.slot.wrecked && Feasible(w.kernel, r.effects)
    ensures var r := Feed(cfg.loop, cfg, v, w.ports[v], chunk, os);
            Local(w.ports[v].slot, w.kernel, r.port.slot, Absorb(w.kernel, r.effects))
  {
    hide Drain, Absorb, Sound, Feasible;
    var p := w.ports[v];
    assert SlotOk(cfg, p.slot, w.kernel, w.history[v]);
    DrainKeeps(cfg.loop, cfg, v, p.slot, p.pending + chunk, os, w.kernel, w.history[v]);
  }

  lemma CloseIsLocal(cfg: Config, w: World, v: nat, os: Os)
    requires Inv(cfg, w) && v < MAX_CLIENTS
    ensures var o := Close(w.ports[v].slot, false, os);
            Local(w.ports[v].slot, w.kernel, o.slot, Absorb(w.kernel, o.effects))
  {
    hide Absorb, Sound, Close;
    assert SlotOk(cfg, w.ports[v].slot, w.kernel, w.history[v]);
    CloseKeeps(cfg, w.ports[v].slot, false, os, w.kernel, w.history[v]);
  }

  lemma PutMatches(cfg: Config, w: World, u: nat, x: Solo, v: nat, p: Port, effects: seq<Effect>)
    requires Shaped(w) && u < MAX_CLIENTS && v < MAX_CLIENTS && v != u && Matches(cfg, w, u, x)
    requires Local(w.ports[v].slot, w.kernel, p.slot, Absorb(w.kernel, effects))
    ensures Matches(cfg, Put(w, v, p, effects), u, x)
  {
    hide SlotOk, DevicesOk, Absorb;
    assert p.slot.evFd !in x.kernel.devices;
  }

  lemma WaitKeepsMatch(cfg: Config, w: World, u: nat, x: Solo, i: nat, chunk: Bytes, sent: bool, oses: Oses)
    requires Inv(cfg, w) && u < MAX_CLIENTS && i < MAX_WAITING_CLIENTS
    requires Matches(cfg, w, u, x) && x.port.slot.fd >= 0
    ensures Matches(cfg, WaitStep(cfg, w, i, chunk, sent, oses), u, x)
  {
    hide SlotOk, DevicesOk, Exclusive, Accounted, SlotsOk, BuffersOk, DevicesExclusive, Choose, Put, Absorb;
    var buf := w.waiting[i].pending + chunk;
    if |buf| >= HELLO_SIZE && buf[0] == HELLO && buf[1] == PROTOCOL_VERSION {
      ChosenIsFree(cfg, w, buf[2]);
      match Choose(w.ports, buf[2])
      case Refuse(_) =>
      case Take(v) => PromoteMatches(cfg, w, u, x, i, v, sent);
      case Evict(v) =>
        var o := Cleanup(w.ports[v].slot, oses(v));
        CleanupIsLocal(cfg, w, v, oses(v));
        PutMatches(cfg, w, u, x, v, Port(o.slot, []), o.effects);
        PromoteMatches(cfg, Put(w, v, Port(o.slot, []), o.effects), u, x, i, v, sent);
    }
  }

  lemma CleanupIsLocal(cfg: Config, w: World, v: nat, os: Os)
    requires Inv(cfg, w) && v < MAX_CLIENTS && w.ports[v].slot.fd < 0
    ensures var o := Cleanup(w.ports[v].slot, os);
            Local(w.ports[v].slot, w.kernel, o.slot, Absorb(w.kernel, o.effects))
  {
    hide Absorb, Sound, Cleanup;
    assert SlotOk(cfg, w.ports[v].slot, w.kernel, w.history[v]);
    CleanupKeeps(cfg, w.ports[v].slot, os, w.kernel, w.history[v]);
  }

  lemma PromoteMatches(cfg: Config, w: World, u: nat, x: Solo, i: nat, v: nat, sent: bool)
    requires Shaped(w) && u < MAX_CLIENTS && v < MAX_CLIENTS && v != u && i < MAX_WAITING_CLIENTS
    requires Matches(cfg, w, u, x)
    ensures Matches(cfg, Promote(cfg, w, i, v, sent).world, u, x)
  {
    hide SlotOk, DevicesOk;
  }

  // ---------- own steps ----------

  /** A step of the slot itself does to the full server what it does to the slot alone. */
  lemma OwnKeepsMatch(cfg: Config, w: World, u: nat, x: Solo, step: Step, oses: Oses)
    requires Inv(cfg, w) && u < MAX_CLIENTS && Legal(cfg, w, step, oses)
    requires Matches(cfg, w, u, x) && x.port.slot.fd >= 0 && Own(step, u)
    ensures Matches(cfg, Next(cfg, w, step, oses), u, SoloStep(cfg, u, x, step, oses(u)))
  {
    hide SlotOk, DevicesOk, Exclusive, Accounted, SlotsOk, BuffersOk, DevicesExclusive, Feasible, Drain, Close,
      Absorb, Sound, Within;
    if step.SlotBytes? {
      var r := Feed(cfg.loop, cfg, u, x.port, step.chunk, oses(u));
      AbsorbWithin(x.kernel, w.kernel, r.effects);
      OkIsDefined(cfg, x.port.slot, x.kernel, x.history);
      DrainKeeps(cfg.loop, cfg, u, x.port.slot, x.port.pending + step.chunk, oses(u), x.kernel, x.history);
      DrainCreates(cfg.loop, cfg, u, x.port.slot, x.port.pending + step.chunk, oses(u));
      PutOwn(cfg, w, u, x, r.port, r.effects);
    } else {
      var o := Close(x.port.slot, false, oses(u));
      CloseIsFeasible(x.port.slot, oses(u), w.kernel);
      CloseKeeps(cfg, x.port.slot, false, oses(u), x.kernel, x.history);
      PutOwn(cfg, w, u, x, Port(o.slot, []), o.effects);
    }
  }

  lemma OkIsDefined(cfg: Config, s: Slot, k: Kernel, history: seq<Effect>)
    requires SlotOk(cfg, s, k, history)
    ensures !s.wrecked
  {}

  lemma CloseIsFeasible(s: Slot, os: Os, k: Kernel)
    ensures Feasible(k, Close(s, false, os).effects)
    ensures forall e | e in Close(s, false, os).effects :: !e.Created?
  {}

  lemma PutOwn(cfg: Config, w: World, u: nat, x: Solo, p: Port, effects: seq<Effect>)
    requires Inv(cfg, w) && u < MAX_CLIENTS && Matches(cfg, w, u, x)
    requires Feasible(w.kernel, effects) && Serves(cfg, x.port.slot, p.slot, effects, x.kernel, x.history)
    requires forall e | e in effects :: e.Created? ==> e.dev >= 0
    ensures Matches(cfg, Put(w, u, p, effects), u, Solo(p, Absorb(x.kernel, effects), x.history + effects))
  {
    hide DevicesOk, Exclusive, Accounted, BuffersOk, DevicesExclusive, Feasible, Absorb, Sound, Authenticated;
    AbsorbWithin(x.kernel, w.kernel, effects);
    AbsorbAddsNew(x.kernel, w.kernel, effects);
    NonNegativeDevices(x.kernel, effects);
    forall v | 0 <= v < MAX_CLIENTS && v != u
      ensures w.ports[v].slot.evFd !in Absorb(x.kernel, effects).devices
    {
      assert SlotOk(cfg, w.ports[v].slot, w.kernel, w.history[v]);
    }
  }

  // ---------- non-interference ----------

  /** However the steps of all clients interleave, a slot whose own bytes keep it
      connected ends up with the buffer, status, setup, device and history it
      would have on its own; and its device has received the same events. */
  lemma {:induction false} NonInterference(cfg: Config, w: World, u: nat, x: Solo, steps: seq<Step>, oses: Oses)
    requires Inv(cfg, w) && u < MAX_CLIENTS && LegalRun(cfg, w, steps, oses)
    requires Matches(cfg, w, u, x) && StaysConnected(cfg, u, x, steps, oses(u))
    ensures Matches(cfg, Run(cfg, w, steps, oses), u, SoloRun(cfg, u, x, steps, oses(u)))
    decreases |steps|
  {
    hide SlotOk, DevicesOk, Exclusive, Accounted, SlotsOk, BuffersOk, DevicesExclusive, Matches, Next, SoloStep, Legal;
    if steps != [] {
      var step := steps[0];
      StepKeeps(cfg, w, step, oses);
      if Own(step, u) {
        OwnKeepsMatch(cfg, w, u, x, step, oses);
        NonInterference(cfg, Next(cfg, w, step, oses), u, SoloStep(cfg, u, x, step, oses(u)), steps[1..], oses);
      } else {
        OthersKeepMatch(cfg, w, u, x, step, oses);
        NonInterference(cfg, Next(cfg, w, step, oses), u, x, steps[1..], oses);
      }
    }
  }

  /** Every connected slot of a reachable server can be cut out to run alone. */
  function CutOut(w: World, u: nat): Solo
    requires Shaped(w) && u < MAX_CLIENTS
  {
    var s := w.ports[u].slot;
    Solo(w.ports[u],
         Kernel({s.fd},
                if s.evFd >= 0 && s.evFd in w.kernel.devices then map[s.evFd := w.kernel.devices[s.evFd]] else map[]),
         w.history[u])
  }

  lemma CutOutMatches(cfg: Config, w: World, u: nat)
    requires Inv(cfg, w) && u < MAX_CLIENTS && w.ports[u].slot.fd >= 0
    ensures Matches(cfg, w, u, CutOut(w, u))
  {
    hide Exclusive, Accounted, BuffersOk, Authenticated;
    assert SlotOk(cfg, w.ports[u].slot, w.kernel, w.history[u]);
    var x := CutOut(w, u);
    assert forall d | d in x.kernel.devices :: d == w.ports[u].slot.evFd && x.kernel.devices[d] == w.kernel.devices[d];
  }

  /** The statement from any reachable state: what slot u holds and what its
      device has received depend on its own steps only. */
  lemma OwnBytesOnly(cfg: Config, before: seq<Step>, steps: seq<Step>, oses: Oses, u: nat)
    requires LegalRun(cfg, Start(), before, oses) && u < MAX_CLIENTS
    requires LegalRun(cfg, Run(cfg, Start(), before, oses), steps, oses)
    requires StaysConnected(cfg, u, CutOut(Run(cfg, Start(), before, oses), u), steps, oses(u))
    ensures var w := Run(cfg, Start(), before, oses);
            var w' := Run(cfg, w, steps, oses);
            var alone := SoloRun(cfg, u, CutOut(w, u), steps, oses(u));
            && w'.ports[u] == alone.port
            && w'.history[u] == alone.history
            && (alone.port.slot.evFd >= 0 ==>
                  && alone.port.slot.evFd in alone.kernel.devices
                  && alone.port.slot.evFd in w'.kernel.devices
                  && w'.kernel.devices[alone.port.slot.evFd] == alone.kernel.devices[alone.port.slot.evFd])
  {
    hide LegalRun, Run, SoloRun, CutOut, Exclusive, Accounted, SlotsOk, BuffersOk, DevicesExclusive, Authenticated;
    var w := Run(cfg, Start(), before, oses);
    StartOk(cfg);
    RunKeeps(cfg, Start(), before, oses);
    CutOutFd(cfg, w, u, steps, oses(u));
    CutOutMatches(cfg, w, u);
    NonInterference(cfg, w, u, CutOut(w, u), steps, oses);
  }

  lemma CutOutFd(cfg: Config, w: World, u: nat, steps: seq<Step>, os: Os)
    requires Shaped(w) && u < MAX_CLIENTS && StaysConnected(cfg, u, CutOut(w, u), steps, os)
    ensures w.ports[u].slot.fd >= 0
  {}
}
