/** What becomes of a client's events on a shared server: from every reachable state
    and under any interleaving with all other clients, its device receives them. */
module EventDelivery {
  import opened Protocol
  import opened Slots
  import opened Fragmentation
  import opened Kernel
  import opened World
  import opened Runs
  import opened Isolation
  import opened InputClient
  import opened Leftovers
  import opened Composition
  import opened EndToEnd

  // ---------- buffers between steps ----------

  /** No slot keeps a whole message between two steps. */
  predicate NothingWhole(w: World)
    requires Shaped(w)
  {
    forall u | 0 <= u < MAX_CLIENTS :: HeadFrame(w.ports[u].pending) == 0
  }

  lemma {:induction false} DrainUses(rule: Rule, cfg: Config, index: nat, s: Slot, buf: Bytes, os: Os)
    requires index < 0xFF
    ensures HeadFrame(Drain(rule, cfg, index, s, buf, os).port.pending) == 0
    decreases |buf|
  {
    hide Dispatch;
    var n := HeadFrame(buf);
    if Live(s) && n > 0 && !LoneHeader(buf) {
      DrainUses(rule, cfg, index, Dispatch(cfg, index, s, buf[..n], os).slot, buf[n..], os);
    }
  }

  lemma {:induction false} CloseFirstUses(w: World, n: nat, oses: Oses)
    requires Shaped(w) && NothingWhole(w) && n <= MAX_CLIENTS
    ensures NothingWhole(CloseFirst(w, n, oses))
  {
    hide Absorb, Close;
    if n > 0 {
      CloseFirstUses(w, n - 1, oses);
    }
  }

  lemma StepUses(cfg: Config, w: World, step: Step, oses: Oses)
    requires Shaped(w) && NothingWhole(w)
    ensures NothingWhole(Next(cfg, w, step, oses))
  {
    hide Absorb, Close, Cleanup, Choose, CloseFirst, Drain;
    match step
    case SlotBytes(u, chunk) =>
      if u < MAX_CLIENTS {
        DrainUses(cfg.loop, cfg, u, w.ports[u].slot, w.ports[u].pending + chunk, oses(u));
      }
    case Shutdown => CloseFirstUses(w, |w.ports|, oses);
    case _ =>
  }

  lemma {:induction false} RunUses(cfg: Config, w: World, steps: seq<Step>, oses: Oses)
    requires Shaped(w) && NothingWhole(w)
    ensures NothingWhole(Run(cfg, w, steps, oses))
    decreases |steps|
  {
    hide Next, NothingWhole;
    if steps != [] {
      StepUses(cfg, w, steps[0], oses);
      RunUses(cfg, Next(cfg, w, steps[0], oses), steps[1..], oses);
    }
  }

  // ---------- a slot alone ----------

  /** Both loops turn the bytes of an event list into the events. */
  lemma EventsFed(rule: Rule, cfg: Config, index: nat, s: Slot, events: seq<InputEvent>, chunks: seq<Bytes>, os: Os)
    requires index < 0xFF && Live(s) && s.status == SUCCESS
    requires forall i | s.calls <= i < s.calls + |events| :: os(i) >= 0
    requires Concat(chunks) <= EncodeAll(events)
    ensures |Concat(chunks)| <= DATA_SIZE * |events|
    ensures var cut := |Concat(chunks)|; var q := cut / DATA_SIZE;
            FeedAll(rule, cfg, index, Port(s, []), chunks, os)
            == Served(Port(s.(calls := s.calls + q), EventTail(events, cut)), Writes(s.evFd, events[..q]))
  {
    hide FeedAll, WholeStream;
    EncodeAllSize(events);
    if rule == AsWritten {
      EventFidelity(cfg, index, s, events, chunks, os);
    } else {
      FragmentationIndependence(cfg, index, s, chunks, os);
      WholeEventStream(cfg, index, s, events, Concat(chunks), os);
    }
  }

  /** What a slot holds of an event list between two steps is less than one event. */
  lemma BeginningIsShort(events: seq<InputEvent>, pending: Bytes)
    requires pending <= EncodeAll(events) && HeadFrame(pending) == 0
    ensures |pending| < DATA_SIZE && |pending| <= DATA_SIZE * |events|
    ensures EventTail(events, |pending|) == pending
  {
    hide EncodeData, EncodeAll, HeadFrame, EventTail;
    EncodeAllSize(events);
    NothingBegun(events);
    if pending != [] {
      var first, more := EncodeData(events[0]), EncodeAll(events[1..]);
      StartsWithData(events[0]);
      FirstOfAll(events);
      assert pending[0] == (first + more)[0] == first[0];
      DataHead(pending);
      BeginningOf(first, more, pending);
      TailOfFirst(events, |pending|);
    }
  }

  lemma NothingBegun(events: seq<InputEvent>)
    ensures EventTail(events, 0) == []
  {}

  lemma BeginningOf(first: Bytes, more: Bytes, pending: Bytes)
    requires pending <= first + more && |pending| <= |first|
    ensures pending == first[..|pending|]
  {
    assert pending == (first + more)[..|pending|];
  }

  lemma TailOfFirst(events: seq<InputEvent>, n: nat)
    requires events != [] && 0 < n < DATA_SIZE
    ensures EventTail(events, n) == EncodeData(events[0])[..n]
  {
    hide EncodeData;
  }

  lemma FirstOfAll(events: seq<InputEvent>)
    requires events != []
    ensures EncodeAll(events) == EncodeData(events[0]) + EncodeAll(events[1..])
  {
    hide EncodeData;
  }

  lemma StartsWithData(e: InputEvent)
    ensures |EncodeData(e)| == DATA_SIZE && EncodeData(e)[0] == DATA
  {}

  lemma BeginningKept(rule: Rule, cfg: Config, index: nat, p: Port, events: seq<InputEvent>, os: Os)
    requires index < 0xFF && Live(p.slot) && p.slot.status == SUCCESS && HeadFrame(p.pending) == 0
    requires forall i | p.slot.calls <= i < p.slot.calls + |events| :: os(i) >= 0
    requires p.pending <= EncodeAll(events)
    ensures FeedAll(rule, cfg, index, Port(p.slot, []), [p.pending], os) == Served(p, [])
  {
    hide FeedAll, HeadFrame, EncodeAll, EventTail;
    ConcatCons(p.pending, []);
    assert [p.pending] + [] == [p.pending] && p.pending + [] == p.pending == Concat([p.pending]);
    BeginningIsShort(events, p.pending);
    EventsFed(rule, cfg, index, p.slot, events, [p.pending], os);
    assert Writes(p.slot.evFd, events[..0]) == [];
  }

  /** The same for a slot that already holds the beginning of an event. */
  lemma EventsResumed(rule: Rule, cfg: Config, index: nat, p: Port, events: seq<InputEvent>, chunks: seq<Bytes>, os: Os)
    requires index < 0xFF && Live(p.slot) && p.slot.status == SUCCESS && HeadFrame(p.pending) == 0
    requires forall i | p.slot.calls <= i < p.slot.calls + |events| :: os(i) >= 0
    requires p.pending + Concat(chunks) <= EncodeAll(events)
    ensures |p.pending + Concat(chunks)| <= DATA_SIZE * |events|
    ensures var cut := |p.pending + Concat(chunks)|; var q := cut / DATA_SIZE;
            FeedAll(rule, cfg, index, p, chunks, os)
            == Served(Port(p.slot.(calls := p.slot.calls + q), EventTail(events, cut)),
                      Writes(p.slot.evFd, events[..q]))
  {
    hide FeedAll, HeadFrame, Feed, EncodeAll, EventTail, Writes;
    ConcatCons(p.pending, chunks);
    assert p.pending <= p.pending + Concat(chunks);
    BeginningKept(rule, cfg, index, p, events, os);
    EventsFed(rule, cfg, index, p.slot, events, [p.pending] + chunks, os);
    FeedAllAppend(rule, cfg, index, Port(p.slot, []), [p.pending], chunks, os);
    var y := FeedAll(rule, cfg, index, p, chunks, os);
    assert [] + y.effects == y.effects;
  }

  // ---------- the device ----------

  lemma {:induction false} WritesReach(d: int, events: seq<InputEvent>)
    ensures WrittenTo(d, Writes(d, events)) == events
    ensures forall k: Kernel :: Feasible(k, Writes(d, events))
    ensures forall e | e in Writes(d, events) :: e.Wrote?
  {
    if events != [] {
      WritesReach(d, events[1..]);
      assert Writes(d, events)[1..] == Writes(d, events[1..]);
    }
  }

  /** Of the events a connected client sends, however their bytes are cut, wherever
      they end so far and whatever all other clients do meanwhile, its device on the
      shared server has received exactly the ones that arrived completely, in order,
      behind what it had received before; the rest is kept for the next chunk. */
  lemma EventsDelivered(cfg: Config, w: World, u: nat, events: seq<InputEvent>, steps: seq<Step>, oses: Oses)
    requires Inv(cfg, w) && NothingWhole(w) && u < MAX_CLIENTS
    requires w.ports[u].slot.fd >= 0 && w.ports[u].slot.status == SUCCESS
    requires LegalRun(cfg, w, steps, oses) && Uninterrupted(steps, u)
    requires w.ports[u].pending + Concat(Chunks(steps, u)) <= EncodeAll(events)
    requires var n := w.ports[u].slot.calls; forall i | n <= i < n + |events| :: oses(u)(i) >= 0
    ensures |w.ports[u].pending + Concat(Chunks(steps, u))| <= DATA_SIZE * |events|
    ensures var cut := |w.ports[u].pending + Concat(Chunks(steps, u))|; var arrived := events[..cut / DATA_SIZE];
            var s := w.ports[u].slot; var w' := Run(cfg, w, steps, oses);
            && s.evFd in w.kernel.devices && s.evFd in w'.kernel.devices
            && w'.kernel.devices[s.evFd].spec == w.kernel.devices[s.evFd].spec
            && w'.kernel.devices[s.evFd].events == w.kernel.devices[s.evFd].events + arrived
            && w'.ports[u] == Port(s.(calls := s.calls + |arrived|), EventTail(events, cut))
            && w'.history[u] == w.history[u] + Writes(s.evFd, arrived)
  {
    hide Exclusive, Accounted, DevicesExclusive, BuffersOk, LegalRun, Run, FeedAll, DevicesOk, Absorb, Authenticated,
      EventTail, EncodeAll;
    var p := w.ports[u];
    assert SlotOk(cfg, p.slot, w.kernel, w.history[u]);
    EventsResumed(cfg.loop, cfg, u, p, events, Chunks(steps, u), oses(u));
    SharedFeeds(cfg, w, u, steps, oses);
    var arrived := events[..|p.pending + Concat(Chunks(steps, u))| / DATA_SIZE];
    WritesReach(p.slot.evFd, arrived);
    DeviceFate(CutOut(w, u).kernel, Writes(p.slot.evFd, arrived), p.slot.evFd);
  }
  /** Every reachable server is one to which this applies. */
  lemma Reachable(cfg: Config, before: seq<Step>, oses: Oses)
    requires LegalRun(cfg, Start(), before, oses)
    ensures var w := Run(cfg, Start(), before, oses); Inv(cfg, w) && NothingWhole(w)
  {
    hide *;
    StartOk(cfg);
    NothingAtStart();
    RunKeeps(cfg, Start(), before, oses);
    RunUses(cfg, Start(), before, oses);
  }

  lemma NothingAtStart()
    ensures NothingWhole(Start())
  {}

  // ---------- from the first byte to the last event ----------

  /** A session and the events after it: from any reachable server and under any
      interleaving with all other clients, a client that greets, authenticates, sets up
      its device on a slot that had none and then streams events has in the end, on one
      device that is the described one exactly if nothing was left over, all events that
      arrived completely and nothing else. */
  lemma SessionDelivers(cfg: Config, w: World, before: seq<Step>, i: nat, last: Bytes, slot: Byte, after: seq<Step>,
                        src: Source, passwordCut: seq<Bytes>, setupCut: seq<Bytes>, events: seq<InputEvent>,
                        later: seq<Step>, oses: Oses)
    requires Session(cfg, w, before, i, last, slot, after, src, passwordCut, setupCut, oses) && NothingWhole(w)
    requires var u := Given(cfg, w, before, slot, oses).u;
             var end := Run(cfg, w, before + [WaitBytes(i, last, true)] + after, oses);
             && Answered(cfg, w, before, i, slot, oses).ports[u].slot.evFd == -1
             && LegalRun(cfg, end, later, oses) && Uninterrupted(later, u)
             && Concat(Chunks(later, u)) <= EncodeAll(events)
    ensures |Concat(Chunks(later, Given(cfg, w, before, slot, oses).u))| <= DATA_SIZE * |events|
    ensures var u := Given(cfg, w, before, slot, oses).u;
            var s := Answered(cfg, w, before, i, slot, oses).ports[u].slot;
            var end := Run(cfg, w, before + [WaitBytes(i, last, true)] + after + later, oses);
            var final := end.ports[u].slot;
            && final.fd == w.waiting[i].fd && final.status == SUCCESS
            && final.evFd in end.kernel.devices
            && end.kernel.devices[final.evFd]
               == Device(SpecWanted(cfg, final.meta), events[..|Concat(Chunks(later, u))| / DATA_SIZE])
            && (SpecWanted(cfg, final.meta) == OwnDevice(cfg, src)
                <==> NoStaleEvent(cfg, s.meta, src) && NoStaleAxis(cfg, s.meta, src))
  {
    hide Exclusive, Accounted, SlotsOk, DevicesExclusive, BuffersOk, LegalRun, Run, NothingWhole, EncodeAll, EventTail,
      Writes, SpecWanted, OwnDevice, NoStaleEvent, NoStaleAxis, Answered, Given, Meet, Fed, Greets, GoodClient;
    var steps := before + [WaitBytes(i, last, true)] + after;
    var u := Given(cfg, w, before, slot, oses).u;
    WholeSession(cfg, w, before, i, last, slot, after, src, passwordCut, setupCut, oses);
    RunAppend(cfg, w, steps, later, oses);
    RunKeeps(cfg, w, steps, oses);
    RunUses(cfg, w, steps, oses);
    var end := Run(cfg, w, steps, oses);
    assert [] + Concat(Chunks(later, u)) == Concat(Chunks(later, u));
    EventsDelivered(cfg, end, u, events, later, oses);
  }
}
