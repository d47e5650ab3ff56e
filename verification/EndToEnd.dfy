/** A whole session on a shared server: a client connects, greets, authenticates and
    sets up its device, while the steps of all other clients interleave with its own. */
module EndToEnd {
  import opened Protocol
  import opened DeviceCreation
  import opened Slots
  import opened Fragmentation
  import opened Kernel
  import opened World
  import opened Runs
  import opened Isolation
  import opened InputClient
  import opened Handshake
  import opened Leftovers
  import opened Composition

  // ---------- a waiting connection ----------

  predicate OfEntry(step: Step, i: nat) {
    (step.WaitBytes? && step.i == i) || (step.WaitDrop? && step.i == i)
  }

  /** The bytes that arrive at entry i. */
  function Arriving(steps: seq<Step>, i: nat): Bytes {
    if steps == [] then []
    else (if steps[0].WaitBytes? && steps[0].i == i then steps[0].chunk else []) + Arriving(steps[1..], i)
  }

  lemma {:induction false} CloseFirstWaits(w: World, n: nat, oses: Oses)
    requires Shaped(w) && n <= MAX_CLIENTS
    ensures CloseFirst(w, n, oses).waiting == w.waiting
  {
    if n > 0 {
      CloseFirstWaits(w, n - 1, oses);
    }
  }

  /** No step of anyone else touches a waiting connection. */
  lemma EntryUntouched(cfg: Config, w: World, i: nat, step: Step, oses: Oses)
    requires Shaped(w) && i < MAX_WAITING_CLIENTS && w.waiting[i].fd >= 0 && !OfEntry(step, i)
    ensures Next(cfg, w, step, oses).waiting[i] == w.waiting[i]
  {
    hide Feed, Close, Cleanup, Choose, CloseFirst;
    CloseFirstWaits(w, |w.ports|, oses);
  }

  /** Whatever the others do, an entry gathers the bytes of its own client. */
  lemma {:induction false} EntryGathers(cfg: Config, w: World, i: nat, steps: seq<Step>, oses: Oses)
    requires Shaped(w) && i < MAX_WAITING_CLIENTS && w.waiting[i].fd >= 0
    requires WaitDrop(i) !in steps && |w.waiting[i].pending + Arriving(steps, i)| < HELLO_SIZE
    ensures Run(cfg, w, steps, oses).waiting[i] == Waiting(w.waiting[i].fd, w.waiting[i].pending + Arriving(steps, i))
    decreases |steps|
  {
    hide Feed, Close, Cleanup, Choose, CloseFirst, Next;
    if steps == [] {
      assert w.waiting[i].pending + [] == w.waiting[i].pending;
    } else {
      var w1 := Next(cfg, w, steps[0], oses);
      var more := Arriving(steps[1..], i);
      assert steps[0] in steps && forall t | t in steps[1..] :: t in steps;
      if OfEntry(steps[0], i) {
        OwnGathers(cfg, w, i, steps[0].chunk, steps[0].sent, oses);
        Assoc(w.waiting[i].pending, steps[0].chunk, more);
      } else {
        EntryUntouched(cfg, w, i, steps[0], oses);
        assert [] + more == more;
      }
      EntryGathers(cfg, w1, i, steps[1..], oses);
    }
  }

  lemma OwnGathers(cfg: Config, w: World, i: nat, chunk: Bytes, sent: bool, oses: Oses)
    requires Shaped(w) && i < MAX_WAITING_CLIENTS && |w.waiting[i].pending + chunk| < HELLO_SIZE
    ensures Next(cfg, w, WaitBytes(i, chunk, sent), oses).waiting[i]
         == w.waiting[i].(pending := w.waiting[i].pending + chunk)
  {}

  // ---------- promotion ----------

  /** The slot of a promoted client. */
  lemma Promoted(cfg: Config, w: World, i: nat, slot: Byte, oses: Oses)
    requires Inv(cfg, w) && i < MAX_WAITING_CLIENTS && w.waiting[i].fd >= 0 && !Choose(w.ports, slot).Refuse?
    requires Willing(oses(Choose(w.ports, slot).u))
    ensures var u := Choose(w.ports, slot).u;
            var g := Hello(cfg, w, i, HelloMessage(slot), true, oses);
            && u < MAX_CLIENTS
            && Fresh(cfg, u, g.world.ports[u].slot, oses(u))
            && g.world.ports[u] == Port(g.world.ports[u].slot, [])
            && g.world.history[u] == [Sent([g.world.ports[u].slot.status], true)]
            && Inv(cfg, g.world)
  {
    hide Exclusive, Accounted, BuffersOk, DevicesExclusive, DevicesOk, Authenticated;
    var u := Choose(w.ports, slot).u;
    ChosenIsFree(cfg, w, slot);
    assert SlotOk(cfg, w.ports[u].slot, w.kernel, w.history[u]);
    HelloKeeps(cfg, w, i, HelloMessage(slot), true, oses);
  }

  // ---------- a connected slot ----------

  /** The chunks that arrive at slot u. */
  function Chunks(steps: seq<Step>, u: nat): seq<Bytes> {
    if steps == [] then []
    else (if steps[0].SlotBytes? && steps[0].u == u then [steps[0].chunk] else []) + Chunks(steps[1..], u)
  }

  lemma {:induction false} FeedAllAppend(rule: Rule, cfg: Config, index: nat, p: Port, a: seq<Bytes>, b: seq<Bytes>,
                                         os: Os)
    requires index < 0xFF
    ensures var x := FeedAll(rule, cfg, index, p, a, os);
            var y := FeedAll(rule, cfg, index, x.port, b, os);
            FeedAll(rule, cfg, index, p, a + b, os) == Served(y.port, x.effects + y.effects)
    decreases |b|
  {
    hide Feed;
    var x := FeedAll(rule, cfg, index, p, a, os);
    if b == [] {
      assert a + b == a && x.effects + [] == x.effects;
    } else {
      var k := |b| - 1;
      assert (a + b)[..|a + b| - 1] == a + b[..k];
      FeedAllAppend(rule, cfg, index, p, a, b[..k], os);
      var y := FeedAll(rule, cfg, index, x.port, b[..k], os);
      var z := Feed(rule, cfg, index, y.port, b[k], os);
      Assoc(x.effects, y.effects, z.effects);
    }
  }

  lemma FeedOne(rule: Rule, cfg: Config, index: nat, p: Port, chunk: Bytes, os: Os)
    requires index < 0xFF
    ensures FeedAll(rule, cfg, index, p, [chunk], os) == Feed(rule, cfg, index, p, chunk, os)
  {
    hide Feed;
    assert [chunk][..0] == [];
    var f := Feed(rule, cfg, index, p, chunk, os);
    assert FeedAll(rule, cfg, index, p, [], os) == Served(p, []);
    assert [] + f.effects == f.effects;
  }

  /** A closed slot stays closed, whatever it is fed. */
  lemma {:induction false} ClosedStays(rule: Rule, cfg: Config, index: nat, p: Port, chunks: seq<Bytes>, os: Os)
    requires index < 0xFF && p.slot.fd < 0
    ensures FeedAll(rule, cfg, index, p, chunks, os) == Served(p, [])
    decreases |chunks|
  {
    if chunks != [] {
      ClosedStays(rule, cfg, index, p, chunks[..|chunks| - 1], os);
    }
  }

  /** Nobody drops slot u, and the server stays up. */
  predicate Uninterrupted(steps: seq<Step>, u: nat) {
    SlotDrop(u) !in steps && Shutdown !in steps
  }

  /** Alone, a slot does with its chunks what the loop does with them; if they leave
      it connected, it was connected throughout. */
  lemma {:induction false} SoloFeeds(cfg: Config, u: nat, x: Solo, steps: seq<Step>, os: Os)
    requires u < MAX_CLIENTS && Uninterrupted(steps, u)
    requires FeedAll(cfg.loop, cfg, u, x.port, Chunks(steps, u), os).port.slot.fd >= 0
    ensures var r := FeedAll(cfg.loop, cfg, u, x.port, Chunks(steps, u), os);
            SoloRun(cfg, u, x, steps, os) == Solo(r.port, Absorb(x.kernel, r.effects), x.history + r.effects)
    ensures StaysConnected(cfg, u, x, steps, os)
    decreases |steps|
  {
    hide Feed, FeedAll;
    FeedNone(cfg.loop, cfg, u, x.port, os);
    if x.port.slot.fd < 0 {
      ClosedStays(cfg.loop, cfg, u, x.port, Chunks(steps, u), os);
    }
    if steps == [] {
      assert x.history + [] == x.history;
    } else {
      var step, more := steps[0], Chunks(steps[1..], u);
      assert step in steps && forall t | t in steps[1..] :: t in steps;
      if Own(step, u) {
        var f := Feed(cfg.loop, cfg, u, x.port, step.chunk, os);
        FeedOne(cfg.loop, cfg, u, x.port, step.chunk, os);
        FeedAllAppend(cfg.loop, cfg, u, x.port, [step.chunk], more, os);
        SoloFeeds(cfg, u, SoloStep(cfg, u, x, step, os), steps[1..], os);
        var y := FeedAll(cfg.loop, cfg, u, f.port, more, os);
        AbsorbAppend(x.kernel, f.effects, y.effects);
        Assoc(x.history, f.effects, y.effects);
      } else {
        assert [] + more == more;
        SoloFeeds(cfg, u, x, steps[1..], os);
      }
    }
  }

  lemma FeedNone(rule: Rule, cfg: Config, index: nat, p: Port, os: Os)
    requires index < 0xFF
    ensures FeedAll(rule, cfg, index, p, [], os) == Served(p, [])
    ensures forall k: Kernel :: Absorb(k, []) == k
  {}

  /** The same on the shared server. */
  lemma SharedFeeds(cfg: Config, w: World, u: nat, steps: seq<Step>, oses: Oses)
    requires Inv(cfg, w) && u < MAX_CLIENTS && LegalRun(cfg, w, steps, oses) && Uninterrupted(steps, u)
    requires FeedAll(cfg.loop, cfg, u, w.ports[u], Chunks(steps, u), oses(u)).port.slot.fd >= 0
    requires w.ports[u].slot.fd >= 0
    ensures var r := FeedAll(cfg.loop, cfg, u, w.ports[u], Chunks(steps, u), oses(u));
            var w' := Run(cfg, w, steps, oses);
            && w'.ports[u] == r.port
            && w'.history[u] == w.history[u] + r.effects
            && Within(Absorb(CutOut(w, u).kernel, r.effects), w'.kernel)
  {
    hide Exclusive, Accounted, SlotsOk, DevicesExclusive, BuffersOk, LegalRun, Run, FeedAll, SoloRun, StaysConnected,
      SlotOk, DevicesOk, Absorb, Within;
    CutOutMatches(cfg, w, u);
    SoloFeeds(cfg, u, CutOut(w, u), steps, oses(u));
    NonInterference(cfg, w, u, CutOut(w, u), steps, oses);
  }

  // ---------- the session ----------

  /** However it goes, the handshake leaves the slot connected and its buffer empty. */
  lemma StaysOpen(rule: Rule, cfg: Config, index: nat, s: Slot, src: Source, passwordCut: seq<Bytes>,
                  setupCut: seq<Bytes>, os: Os)
    requires Fresh(cfg, index, s, os) && GoodClient(src) && |cfg.password| + 1 <= 254
    requires Fed(rule, cfg, index, s, cfg.password, src, passwordCut, setupCut, os)
    ensures var m := Meet(rule, cfg, index, s, cfg.password, src, passwordCut, setupCut, os);
            m.second.port.slot.fd == s.fd && m.second.port.pending == []
  {
    hide NoLoneHeader, SetupMessages, PasswordMessage, Play, FeedAll, FinalMeta, Replies, Delivered, Conversation,
      Readable, InRange, SpecWanted, WholePlan, Permitted, AllRequests;
    NothingFed(rule, cfg, index, Port(s, []), os);
    var first := FeedAll(rule, cfg, index, Port(s, []), passwordCut, os);
    if cfg.password != [] {
      PasswordExchange(rule, cfg, index, s, cfg.password, passwordCut, os);
    }
    NothingFed(rule, cfg, index, first.port, os);
    if first.port.slot.status == SETUP_REQUIRED {
      SetupExchange(rule, cfg, index, first.port.slot, src, setupCut, os);
    }
  }

  /** What a client of entry i asks of the run: `before` holds all of its HELLO but
      the last chunk, which is the next step; afterwards nobody interrupts it. */
  predicate Greets(before: seq<Step>, i: nat, last: Bytes, slot: Byte) {
    && WaitDrop(i) !in before
    && |Arriving(before, i)| < HELLO_SIZE
    && Arriving(before, i) + last == HelloMessage(slot)
  }

  /** The world in which the HELLO is answered. */
  function Answered(cfg: Config, w: World, before: seq<Step>, i: nat, slot: Byte, oses: Oses): (r: World)
    requires Shaped(w) && i < MAX_WAITING_CLIENTS
    ensures Shaped(r)
  {
    Hello(cfg, Run(cfg, w, before, oses), i, HelloMessage(slot), true, oses).world
  }

  /** The slot it gets. */
  function Given(cfg: Config, w: World, before: seq<Step>, slot: Byte, oses: Oses): Choice
    requires Shaped(w)
  {
    Choose(Run(cfg, w, before, oses).ports, slot)
  }

  /** The run of a session, as far as the description of the device: a waiting client
      greets, is given slot u, and nobody interrupts it. What it sends afterwards are
      its password and its setup, each cut in a digestible way. */
  ghost predicate Session(cfg: Config, w: World, before: seq<Step>, i: nat, last: Bytes, slot: Byte, after: seq<Step>,
                          src: Source, passwordCut: seq<Bytes>, setupCut: seq<Bytes>, oses: Oses)
  {
    && Inv(cfg, w) && i < MAX_WAITING_CLIENTS && w.waiting[i].fd >= 0 && w.waiting[i].pending == []
    && Greets(before, i, last, slot) && LegalRun(cfg, w, before + [WaitBytes(i, last, true)] + after, oses)
    && !Given(cfg, w, before, slot, oses).Refuse?
    && GoodClient(src) && |cfg.password| + 1 <= 254
    && var u := Given(cfg, w, before, slot, oses).u;
       && u < MAX_CLIENTS && Willing(oses(u)) && Uninterrupted(after, u)
       && Chunks(after, u) == passwordCut + setupCut
       && Fed(cfg.loop, cfg, u, Answered(cfg, w, before, i, slot, oses).ports[u].slot, cfg.password, src,
              passwordCut, setupCut, oses(u))
  }

  /** The HELLO of a client, in pieces and between the steps of all others. */
  lemma GreetingAmongOthers(cfg: Config, w: World, before: seq<Step>, i: nat, last: Bytes, slot: Byte, oses: Oses)
    requires Inv(cfg, w) && i < MAX_WAITING_CLIENTS && w.waiting[i].fd >= 0 && w.waiting[i].pending == []
    requires Greets(before, i, last, slot) && LegalRun(cfg, w, before + [WaitBytes(i, last, true)], oses)
    ensures Run(cfg, w, before + [WaitBytes(i, last, true)], oses) == Answered(cfg, w, before, i, slot, oses)
    ensures Inv(cfg, Run(cfg, w, before, oses))
    ensures Run(cfg, w, before, oses).waiting[i].fd == w.waiting[i].fd
  {
    hide Exclusive, Accounted, SlotsOk, DevicesExclusive, BuffersOk, LegalRun, Run, Hello;
    RunAppend(cfg, w, before, [WaitBytes(i, last, true)], oses);
    RunKeeps(cfg, w, before, oses);
    EntryGathers(cfg, w, i, before, oses);
    assert [] + Arriving(before, i) == Arriving(before, i);
    RunOne(cfg, Run(cfg, w, before, oses), WaitBytes(i, last, true), oses);
  }

  /** The whole session. From any reachable server and under any interleaving with
      all other clients, a client that greets, knows the password and can describe
      its device is connected if and only if the slot it was given had no device.
      Then both sides agree on the slot and the setup; the slot's device is alive,
      has received nothing yet and is the described one exactly if nothing was left
      over; and the server has recorded the replies the client acted on. */
  lemma WholeSession(cfg: Config, w: World, before: seq<Step>, i: nat, last: Bytes, slot: Byte, after: seq<Step>,
                     src: Source, passwordCut: seq<Bytes>, setupCut: seq<Bytes>, oses: Oses)
    requires Session(cfg, w, before, i, last, slot, after, src, passwordCut, setupCut, oses)
    ensures var u := Given(cfg, w, before, slot, oses).u;
            var s := Answered(cfg, w, before, i, slot, oses).ports[u].slot;
            var m := Meet(cfg.loop, cfg, u, s, cfg.password, src, passwordCut, setupCut, oses(u));
            var end := Run(cfg, w, before + [WaitBytes(i, last, true)] + after, oses);
            var final := end.ports[u].slot;
            && end.ports[u] == m.second.port == Port(final, []) && final.fd == w.waiting[i].fd
            && end.history[u] == [Sent([s.status], true)] + m.first.effects + m.second.effects
            && (m.client.client.Connected? <==> s.evFd == -1)
            && (s.evFd == -1 ==>
                  && Agreed(cfg, u, src, s.meta.enabled, m.client.client, final)
                  && final.evFd in end.kernel.devices
                  && end.kernel.devices[final.evFd] == Device(SpecWanted(cfg, final.meta), [])
                  && (SpecWanted(cfg, final.meta) == OwnDevice(cfg, src)
                      <==> NoStaleEvent(cfg, s.meta, src) && NoStaleAxis(cfg, s.meta, src)))
  {
    hide Exclusive, Accounted, SlotsOk, DevicesExclusive, BuffersOk, LegalRun, Run, FeedAll, Play, Fed, Greets, Fresh,
      Meet, Readable, InRange, AllRequests, NoStaleEvent, NoStaleAxis, OwnDevice, SpecWanted, Absorb, Agreed, Hello,
      Choose, SetupMessages;
    var u := Given(cfg, w, before, slot, oses).u;
    var w1 := Answered(cfg, w, before, i, slot, oses);
    SessionStart(cfg, w, before, i, last, slot, after, oses);
    var s := w1.ports[u].slot;
    var m := Meet(cfg.loop, cfg, u, s, cfg.password, src, passwordCut, setupCut, oses(u));
    MeetingIsFed(cfg, u, s, src, passwordCut, setupCut, oses(u));
    StaysOpen(cfg.loop, cfg, u, s, src, passwordCut, setupCut, oses(u));
    SharedFeeds(cfg, w1, u, after, oses);
    ConnectsExactly(cfg.loop, cfg, u, s, cfg.password, src, passwordCut, setupCut, oses(u));
    Assoc([Sent([s.status], true)], m.first.effects, m.second.effects);
    if s.evFd == -1 {
      ComposedHandshake(cfg.loop, cfg, u, s, src, passwordCut, setupCut, oses(u));
      DeviceMade(cfg, u, s, src, passwordCut, setupCut, oses(u), CutOut(w1, u).kernel);
    }
  }

  /** The beginning of a session: what the answered HELLO leaves. */
  lemma SessionStart(cfg: Config, w: World, before: seq<Step>, i: nat, last: Bytes, slot: Byte, after: seq<Step>,
                     oses: Oses)
    requires Inv(cfg, w) && i < MAX_WAITING_CLIENTS && w.waiting[i].fd >= 0 && w.waiting[i].pending == []
    requires Greets(before, i, last, slot) && LegalRun(cfg, w, before + [WaitBytes(i, last, true)] + after, oses)
    requires !Given(cfg, w, before, slot, oses).Refuse? && Willing(oses(Given(cfg, w, before, slot, oses).u))
    ensures var u := Given(cfg, w, before, slot, oses).u;
            var w1 := Answered(cfg, w, before, i, slot, oses);
            && u < MAX_CLIENTS && Inv(cfg, w1) && LegalRun(cfg, w1, after, oses)
            && Run(cfg, w, before + [WaitBytes(i, last, true)] + after, oses) == Run(cfg, w1, after, oses)
            && Fresh(cfg, u, w1.ports[u].slot, oses(u))
            && w1.ports[u] == Port(w1.ports[u].slot, [])
            && w1.ports[u].slot.fd == w.waiting[i].fd
            && w1.history[u] == [Sent([w1.ports[u].slot.status], true)]
            && (w1.ports[u].slot.evFd == -1 ==> CutOut(w1, u).kernel.devices == map[])
  {
    hide Exclusive, Accounted, SlotsOk, DevicesExclusive, BuffersOk, LegalRun, Run, Fresh, Choose;
    RunAppend(cfg, w, before + [WaitBytes(i, last, true)], after, oses);
    GreetingAmongOthers(cfg, w, before, i, last, slot, oses);
    Promoted(cfg, Run(cfg, w, before, oses), i, slot, oses);
  }

  /** What the slot is fed are the two parts of the meeting. */
  lemma MeetingIsFed(cfg: Config, u: nat, s: Slot, src: Source, passwordCut: seq<Bytes>, setupCut: seq<Bytes>, os: Os)
    requires u < 0xFF && WellFormed(src) && |cfg.password| + 1 <= 254
    ensures var m := Meet(cfg.loop, cfg, u, s, cfg.password, src, passwordCut, setupCut, os);
            FeedAll(cfg.loop, cfg, u, Port(s, []), passwordCut + setupCut, os)
            == Served(m.second.port, m.first.effects + m.second.effects)
  {
    hide FeedAll, Play, Delivered, Conversation, Replies;
    FeedAllAppend(cfg.loop, cfg, u, Port(s, []), passwordCut, setupCut, os);
  }

  /** The device of the meeting. */
  lemma DeviceMade(cfg: Config, u: nat, s: Slot, src: Source, passwordCut: seq<Bytes>, setupCut: seq<Bytes>, os: Os,
                   k: Kernel)
    requires Fresh(cfg, u, s, os) && s.evFd == -1 && GoodClient(src) && |cfg.password| + 1 <= 254
    requires Fed(cfg.loop, cfg, u, s, cfg.password, src, passwordCut, setupCut, os) && k.devices == map[]
    ensures var m := Meet(cfg.loop, cfg, u, s, cfg.password, src, passwordCut, setupCut, os);
            var final := m.second.port.slot;
            var devices := Absorb(k, m.first.effects + m.second.effects).devices;
            final.evFd in devices && devices[final.evFd] == Device(SpecWanted(cfg, final.meta), [])
  {
    hide NoLoneHeader, SetupMessages, Permitted, Axes, AllRequests, PasswordMessage, Readable, Play, FeedAll,
      SpecWanted, OwnDevice, NoStaleEvent, NoStaleAxis, NameField, Replies, Delivered, Conversation, InRange, Agreed;
    var m := Meet(cfg.loop, cfg, u, s, cfg.password, src, passwordCut, setupCut, os);
    ServerSide(cfg.loop, cfg, u, s, src, passwordCut, setupCut, os);
    NothingFed(cfg.loop, cfg, u, Port(s, []), os);
    if cfg.password != [] {
      PasswordExchange(cfg.loop, cfg, u, s, cfg.password, passwordCut, os);
      AbsorbFew(k, m.first.effects[0], m.first.effects[1]);
    } else {
      AbsorbFew(k, Closed(0), Closed(0));
    }
    AbsorbAppend(k, m.first.effects, m.second.effects);
    AbsorbFew(Absorb(k, m.first.effects), m.second.effects[0], m.second.effects[1]);
  }
}
