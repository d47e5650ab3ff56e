/** Where the behaviour of the server stays defined. Two things end it: a SETUP_END
    that makes the server read a name which is not there, and, with the loop as
    written, a chunk that ends behind the type byte of a variable-length message. */
module Definedness {
  import opened Protocol
  import opened DeviceCreation
  import opened Slots
  import opened Kernel
  import opened World
  import opened Rounds

  // ---------- one message ----------

  /** A SETUP_END in its turn while no readable name is stored. */
  predicate Nameless(s: Slot, msg: Bytes) {
    msg == [SETUP_END] && s.status == SETUP_REQUIRED && !NameReadable(s.meta.name)
  }

  /** The same, and the kernel accepts everything up to the point where the name is read. */
  predicate ReadsNoName(s: Slot, msg: Bytes, os: Os) {
    Nameless(s, msg) && forall n | s.calls <= n <= s.calls + |Opening(s.meta)| :: os(n) >= 0
  }

  lemma CreationWrecks(cfg: Config, s: Slot, os: Os)
    ensures Creation(cfg, s, os).wrecked <==>
              !NameReadable(s.meta.name) && forall n | s.calls <= n <= s.calls + |Opening(s.meta)| :: os(n) >= 0
  {
    hide Attempted, NameReadable, FullPlan;
    var calls, answers := Opening(s.meta), Answers(os, s.calls);
    HandedOut(s.meta, cfg.uinput, answers);
    OpeningAccepted(calls, os, s.calls);
  }

  lemma OpeningAccepted(calls: seq<Call>, os: Os, start: nat)
    requires forall c | c in calls :: c.GetVersion? || c.Enable?
    ensures Answers(os, start)(0) >= 0 && AllAccepted(calls, Answers(os, start), 1)
       <==> forall n | start <= n <= start + |calls| :: os(n) >= 0
  {
    var answers := Answers(os, start);
    forall i: nat | i < |calls|
      ensures Accepted(calls[i], answers(1 + i)) <==> os(start + 1 + i) >= 0
    {
      assert calls[i] in calls;
    }
    if answers(0) >= 0 && AllAccepted(calls, answers, 1) {
      forall n | start <= n <= start + |calls|
        ensures os(n) >= 0
      {
        if n > start {
          assert Accepted(calls[n - start - 1], answers(1 + (n - start - 1)));
        }
      }
    }
  }

  lemma DispatchWrecks(cfg: Config, index: nat, s: Slot, msg: Bytes, os: Os)
    requires index < 0xFF && IsFrame(msg) && Live(s)
    ensures Dispatch(cfg, index, s, msg, os).slot.wrecked <==> ReadsNoName(s, msg, os)
  {
    hide Creation, SpecNow, NameReadable, Opening, StrncmpEqual;
    CreationWrecks(cfg, s, os);
    assert msg[0] == SETUP_END ==> msg == [SETUP_END];
  }

  // ---------- one buffer ----------

  /** The written loop calls a handler on the type byte alone, and the handler does
      not refuse the message for its status first. */
  predicate LoneHeaderServed(rule: Rule, s: Slot, buf: Bytes) {
    rule == AsWritten && LoneHeader(buf) && !(buf[0] == DEVICE && s.status != SETUP_REQUIRED)
  }

  /** Whether serving a buffer comes to one of the two. */
  predicate BufferWrecks(rule: Rule, cfg: Config, index: nat, s: Slot, buf: Bytes, os: Os)
    requires index < 0xFF
    decreases |buf|
  {
    var n := HeadFrame(buf);
    && Live(s)
    && (|| LoneHeaderServed(rule, s, buf)
        || (&& 0 < n <= |buf|
            && (|| ReadsNoName(s, buf[..n], os)
                || BufferWrecks(rule, cfg, index, Dispatch(cfg, index, s, buf[..n], os).slot, buf[n..], os))))
  }

  /** Serving a buffer leaves defined behaviour exactly there. */
  lemma {:induction false} DrainWrecks(rule: Rule, cfg: Config, index: nat, s: Slot, buf: Bytes, os: Os)
    requires index < 0xFF
    ensures Drain(rule, cfg, index, s, buf, os).port.slot.wrecked <==>
              s.wrecked || BufferWrecks(rule, cfg, index, s, buf, os)
    decreases |buf|
  {
    hide Dispatch, ReadsNoName;
    var n := HeadFrame(buf);
    if Live(s) && n > 0 && !LoneHeader(buf) {
      var first := Dispatch(cfg, index, s, buf[..n], os);
      DispatchWrecks(cfg, index, s, buf[..n], os);
      DrainWrecks(rule, cfg, index, first.slot, buf[n..], os);
    }
  }

  // ---------- every run ----------

  predicate StepWrecks(cfg: Config, w: World, step: Step, oses: Oses)
    requires Shaped(w)
  {
    match step
    case SlotBytes(u, chunk) =>
      u < MAX_CLIENTS && BufferWrecks(cfg.loop, cfg, u, w.ports[u].slot, w.ports[u].pending + chunk, oses(u))
    case _ => false
  }

  predicate RunWrecks(cfg: Config, w: World, steps: seq<Step>, oses: Oses)
    requires Shaped(w)
    decreases |steps|
  {
    steps != [] &&
      (StepWrecks(cfg, w, steps[0], oses) || RunWrecks(cfg, Next(cfg, w, steps[0], oses), steps[1..], oses))
  }

  lemma {:induction false} CloseFirstDefined(w: World, n: nat, oses: Oses)
    requires Shaped(w) && n <= MAX_CLIENTS
    ensures forall u | 0 <= u < MAX_CLIENTS ::
              CloseFirst(w, n, oses).ports[u].slot.wrecked == w.ports[u].slot.wrecked
  {
    hide Absorb;
    if n > 0 {
      CloseFirstDefined(w, n - 1, oses);
    }
  }

  /** No other step changes whether a slot is defined. */
  lemma OthersDefined(cfg: Config, w: World, step: Step, oses: Oses)
    requires Shaped(w) && !step.SlotBytes?
    ensures forall u | 0 <= u < MAX_CLIENTS ::
              Next(cfg, w, step, oses).ports[u].slot.wrecked == w.ports[u].slot.wrecked
  {
    hide Absorb, Choose, CloseFirst;
    CloseFirstDefined(w, |w.ports|, oses);
  }

  lemma DefinedMeans(w: World)
    requires Shaped(w)
    ensures Defined(w) <==> forall u | 0 <= u < MAX_CLIENTS :: !w.ports[u].slot.wrecked
  {}

  lemma StepDefined(cfg: Config, w: World, step: Step, oses: Oses)
    requires Shaped(w)
    ensures Defined(Next(cfg, w, step, oses)) <==> Defined(w) && !StepWrecks(cfg, w, step, oses)
  {
    hide Drain, Absorb, BufferWrecks, Defined, CloseFirst, Choose;
    var w' := Next(cfg, w, step, oses);
    DefinedMeans(w);
    DefinedMeans(w');
    match step
    case SlotBytes(u, chunk) =>
      if u < MAX_CLIENTS {
        var p := w.ports[u];
        DrainWrecks(cfg.loop, cfg, u, p.slot, p.pending + chunk, oses(u));
        DeadWrecksNothing(cfg, u, p.slot, p.pending + chunk, oses(u));
        assert w'.ports[u].slot.wrecked <==> p.slot.wrecked || StepWrecks(cfg, w, step, oses);
        assert forall v | 0 <= v < MAX_CLIENTS && v != u :: w'.ports[v] == w.ports[v];
      }
    case _ => OthersDefined(cfg, w, step, oses);
  }

  lemma DeadWrecksNothing(cfg: Config, index: nat, s: Slot, buf: Bytes, os: Os)
    requires index < 0xFF
    ensures !Live(s) ==> !BufferWrecks(cfg.loop, cfg, index, s, buf, os)
  {}

  /** For every run of a server in a defined state: it stays defined if and only if no
      chunk of the run makes it read a name that is not there and, with the written
      loop, none ends behind the type byte of a PASSWORD or DEVICE that is served. */
  lemma {:induction false} DefinedExactly(cfg: Config, w: World, steps: seq<Step>, oses: Oses)
    requires Shaped(w)
    ensures Defined(Run(cfg, w, steps, oses)) <==> Defined(w) && !RunWrecks(cfg, w, steps, oses)
    decreases |steps|
  {
    hide Next, Defined, StepWrecks;
    if steps != [] {
      StepDefined(cfg, w, steps[0], oses);
      DefinedExactly(cfg, Next(cfg, w, steps[0], oses), steps[1..], oses);
    }
  }

  // ---------- what the rules of a run ask for ----------

  /** The server's side of a step, definedness aside: it serves connected entries and
      offers recv the room there is. */
  predicate Orderly(w: World, step: Step)
    requires Shaped(w)
  {
    match step
    case SlotBytes(u, chunk) =>
      u < MAX_CLIENTS && w.ports[u].slot.fd >= 0 && 1 <= |chunk| <= INPUT_BUFFER_SIZE - |w.ports[u].pending|
    case SlotDrop(u) => u < MAX_CLIENTS && w.ports[u].slot.fd >= 0
    case WaitBytes(i, chunk, _) =>
      i < MAX_WAITING_CLIENTS && w.waiting[i].fd >= 0 && 1 <= |chunk| <= INPUT_BUFFER_SIZE - |w.waiting[i].pending|
    case WaitDrop(i) => i < MAX_WAITING_CLIENTS && w.waiting[i].fd >= 0
    case _ => true
  }

  predicate OrderlyRun(cfg: Config, w: World, steps: seq<Step>, oses: Oses)
    requires Shaped(w)
    decreases |steps|
  {
    steps != [] ==> Orderly(w, steps[0]) && OrderlyRun(cfg, Next(cfg, w, steps[0], oses), steps[1..], oses)
  }

  lemma StepProper(cfg: Config, w: World, step: Step, oses: Oses)
    requires Shaped(w) && Defined(w)
    ensures Proper(cfg, w, step, oses) <==> Orderly(w, step) && !StepWrecks(cfg, w, step, oses)
  {
    hide Drain, BufferWrecks;
    if step.SlotBytes? && step.u < MAX_CLIENTS {
      var p := w.ports[step.u];
      assert p in w.ports;
      DrainWrecks(cfg.loop, cfg, step.u, p.slot, p.pending + step.chunk, oses(step.u));
      DeadWrecksNothing(cfg, step.u, p.slot, p.pending + step.chunk, oses(step.u));
    }
  }

  /** What the statements about legal runs ask of the server's side, in terms a client
      or a maintainer can check: the loop's order of service, and none of the messages
      and cuts above. */
  lemma {:induction false} ProperExactly(cfg: Config, w: World, steps: seq<Step>, oses: Oses)
    requires Shaped(w) && Defined(w)
    ensures ProperRun(cfg, w, steps, oses) <==>
              OrderlyRun(cfg, w, steps, oses) && !RunWrecks(cfg, w, steps, oses)
    decreases |steps|
  {
    hide Next, Defined, StepWrecks, Proper, Orderly;
    if steps != [] {
      StepProper(cfg, w, steps[0], oses);
      StepDefined(cfg, w, steps[0], oses);
      if !StepWrecks(cfg, w, steps[0], oses) {
        ProperExactly(cfg, Next(cfg, w, steps[0], oses), steps[1..], oses);
      }
    }
  }

  // ---------- names ----------

  /** Whether serving a buffer comes to a SETUP_END in its turn without a readable name. */
  predicate BufferNameless(cfg: Config, index: nat, s: Slot, buf: Bytes, os: Os)
    requires index < 0xFF
    decreases |buf|
  {
    var n := HeadFrame(buf);
    && Live(s) && 0 < n <= |buf|
    && (|| Nameless(s, buf[..n])
        || BufferNameless(cfg, index, Dispatch(cfg, index, s, buf[..n], os).slot, buf[n..], os))
  }

  predicate StepNameless(cfg: Config, w: World, step: Step, oses: Oses)
    requires Shaped(w)
  {
    match step
    case SlotBytes(u, chunk) =>
      u < MAX_CLIENTS && BufferNameless(cfg, u, w.ports[u].slot, w.ports[u].pending + chunk, oses(u))
    case _ => false
  }

  predicate RunNameless(cfg: Config, w: World, steps: seq<Step>, oses: Oses)
    requires Shaped(w)
    decreases |steps|
  {
    steps != [] &&
      (StepNameless(cfg, w, steps[0], oses) || RunNameless(cfg, Next(cfg, w, steps[0], oses), steps[1..], oses))
  }

  /** With the intended loop only names matter: without a nameless SETUP_END nothing
      is wrecked, and if nothing is refused such a message is what wrecks. */
  lemma {:induction false} BufferNames(cfg: Config, index: nat, s: Slot, buf: Bytes, os: Os)
    requires index < 0xFF
    ensures BufferWrecks(Intended, cfg, index, s, buf, os) ==> BufferNameless(cfg, index, s, buf, os)
    ensures Willing(os) && BufferNameless(cfg, index, s, buf, os) ==> BufferWrecks(Intended, cfg, index, s, buf, os)
    decreases |buf|
  {
    hide Dispatch, Nameless;
    var n := HeadFrame(buf);
    if Live(s) && n > 0 {
      BufferNames(cfg, index, Dispatch(cfg, index, s, buf[..n], os).slot, buf[n..], os);
    }
  }

  lemma {:induction false} RunNames(cfg: Config, w: World, steps: seq<Step>, oses: Oses)
    requires Shaped(w) && cfg.loop == Intended
    ensures RunWrecks(cfg, w, steps, oses) ==> RunNameless(cfg, w, steps, oses)
    ensures (forall u: nat :: Willing(oses(u))) && RunNameless(cfg, w, steps, oses) ==> RunWrecks(cfg, w, steps, oses)
    decreases |steps|
  {
    hide Next, BufferWrecks, BufferNameless, Willing;
    if steps != [] {
      if steps[0].SlotBytes? && steps[0].u < MAX_CLIENTS {
        var p := w.ports[steps[0].u];
        BufferNames(cfg, steps[0].u, p.slot, p.pending + steps[0].chunk, oses(steps[0].u));
      }
      RunNames(cfg, Next(cfg, w, steps[0], oses), steps[1..], oses);
    }
  }

  /** With the intended loop, a run in which every SETUP_END taken in its turn follows
      a readable name is defined; if the operating system refuses nothing, no other is. */
  lemma NamesKeepDefined(cfg: Config, w: World, steps: seq<Step>, oses: Oses)
    requires Shaped(w) && Defined(w) && cfg.loop == Intended
    ensures !RunNameless(cfg, w, steps, oses) ==> Defined(Run(cfg, w, steps, oses))
    ensures (forall u: nat :: Willing(oses(u))) && Defined(Run(cfg, w, steps, oses)) ==>
              !RunNameless(cfg, w, steps, oses)
  {
    hide Run, RunNameless, RunWrecks, Willing;
    DefinedExactly(cfg, w, steps, oses);
    RunNames(cfg, w, steps, oses);
  }
}
