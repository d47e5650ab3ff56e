/** The server must not care how TCP cuts the byte stream of a connection: the
    incremental loop over the input buffer against a parser of the whole stream. */
module Fragmentation {
  import opened Protocol
  import opened Slots

  lemma {:induction false} InterpretAppend(cfg: Config, index: nat, s: Slot, a: seq<Bytes>, b: seq<Bytes>, os: Os)
    decreases |a|
    requires index < 0xFF && AllFrames(a) && AllFrames(b)
    ensures var o := Interpret(cfg, index, s, a, os);
            var p := Interpret(cfg, index, o.slot, b, os);
            Interpret(cfg, index, s, a + b, os) == Outcome(p.slot, o.effects + p.effects)
  {
    hide Dispatch;
    var o := Interpret(cfg, index, s, a, os);
    var p := Interpret(cfg, index, o.slot, b, os);
    if a == [] {
      assert a + b == b;
    } else if !Live(s) {
    } else {
      var first := Dispatch(cfg, index, s, a[0], os);
      assert (a + b)[1..] == a[1..] + b;
      InterpretAppend(cfg, index, first.slot, a[1..], b, os);
      var q := Interpret(cfg, index, first.slot, a[1..], os);
      Assoc(first.effects, q.effects, p.effects);
    }
  }

  /** The incremental loop computes the whole-stream reference on its buffer. */
  lemma {:induction false} DrainIsWholeStream(cfg: Config, index: nat, s: Slot, buf: Bytes, os: Os)
    requires index < 0xFF
    ensures Drain(Intended, cfg, index, s, buf, os) == WholeStream(cfg, index, s, buf, os)
    decreases |buf|
  {
    var n := HeadFrame(buf);
    if Live(s) && n > 0 {
      var first := Dispatch(cfg, index, s, buf[..n], os);
      DrainIsWholeStream(cfg, index, first.slot, buf[n..], os);
      assert Frames(buf).frames[0] == buf[..n] && Frames(buf).frames[1..] == Frames(buf[n..]).frames;
    }
  }

  /** What arrives later can be parsed from the tail that was left. */
  lemma WholeStreamAppend(cfg: Config, index: nat, s: Slot, a: Bytes, b: Bytes, os: Os)
    requires index < 0xFF
    ensures var w := WholeStream(cfg, index, s, a, os);
            var x := Feed(Intended, cfg, index, w.port, b, os);
            WholeStream(cfg, index, s, a + b, os) == Served(x.port, w.effects + x.effects)
  {
    var t := Frames(a);
    var w := WholeStream(cfg, index, s, a, os);
    FramesPartition(a);
    FramesPartition(t.rest + b);
    FramesAppend(a, b);
    var u := Frames(t.rest + b);
    InterpretAppend(cfg, index, s, t.frames, u.frames, os);
    if Live(w.port.slot) {
      DrainIsWholeStream(cfg, index, w.port.slot, t.rest + b, os);
    } else {
      assert Interpret(cfg, index, w.port.slot, u.frames, os) == Outcome(w.port.slot, []);
    }
  }

  /** Fragmentation independence: with the intended rule, every way of cutting a
      stream into chunks has the effects and the result of the whole stream. */
  lemma {:induction false} FragmentationIndependence(cfg: Config, index: nat, s: Slot, chunks: seq<Bytes>, os: Os)
    requires index < 0xFF && Live(s)
    decreases |chunks|
    ensures FeedAll(Intended, cfg, index, Port(s, []), chunks, os) == WholeStream(cfg, index, s, Concat(chunks), os)
  {
    if chunks == [] {
      assert Frames([]) == Tokens([], []);
    } else {
      var k := |chunks| - 1;
      FragmentationIndependence(cfg, index, s, chunks[..k], os);
      WholeStreamAppend(cfg, index, s, Concat(chunks[..k]), chunks[k], os);
    }
  }

  // ---------- the loop as it is written ----------

  /** An open slot that has received the type byte of a PASSWORD or DEVICE
      message and nothing else. */
  predicate AtLoneHeader(p: Port) {
    Live(p.slot) && LoneHeader(p.pending)
  }

  /** On one buffer the written loop and the intended one part exactly when the
      buffer runs out right behind the type byte of a variable-length message:
      then the written one leaves the slot closed or wrecked, the intended one open. */
  lemma {:induction false} RulesAgreeExactly(cfg: Config, index: nat, s: Slot, buf: Bytes, os: Os)
    requires index < 0xFF
    ensures var a, i := Drain(AsWritten, cfg, index, s, buf, os), Drain(Intended, cfg, index, s, buf, os);
            && (AtLoneHeader(i.port) ==> !Live(a.port.slot))
            && (!AtLoneHeader(i.port) ==> a == i)
    decreases |buf|
  {
    hide Dispatch;
    var n := HeadFrame(buf);
    if Live(s) && n > 0 {
      var first := Dispatch(cfg, index, s, buf[..n], os);
      RulesAgreeExactly(cfg, index, first.slot, buf[n..], os);
    }
  }

  /** After every chunk, the written loop is where the whole-stream parser is. */
  predicate FollowsStream(cfg: Config, index: nat, s: Slot, chunks: seq<Bytes>, os: Os)
    requires index < 0xFF
  {
    forall k | 0 <= k <= |chunks| ::
      FeedAll(AsWritten, cfg, index, Port(s, []), chunks[..k], os)
      == WholeStream(cfg, index, s, Concat(chunks[..k]), os)
  }

  /** No chunk ends right behind the type byte of a PASSWORD or DEVICE message
      that the slot would still serve. */
  predicate NoLoneHeader(cfg: Config, index: nat, s: Slot, chunks: seq<Bytes>, os: Os)
    requires index < 0xFF
  {
    forall k | 0 <= k <= |chunks| :: !AtLoneHeader(WholeStream(cfg, index, s, Concat(chunks[..k]), os).port)
  }

  /** The step from one chunk boundary to the next. */
  lemma AsWrittenStep(cfg: Config, index: nat, s: Slot, chunks: seq<Bytes>, k: nat, os: Os)
    requires index < 0xFF && Live(s) && k < |chunks|
    requires FeedAll(AsWritten, cfg, index, Port(s, []), chunks[..k], os)
          == WholeStream(cfg, index, s, Concat(chunks[..k]), os)
    ensures FeedAll(AsWritten, cfg, index, Port(s, []), chunks[..k + 1], os)
         == WholeStream(cfg, index, s, Concat(chunks[..k + 1]), os)
       <==> !AtLoneHeader(WholeStream(cfg, index, s, Concat(chunks[..k + 1]), os).port)
  {
    hide Drain, WholeStream;
    var w := WholeStream(cfg, index, s, Concat(chunks[..k]), os);
    assert chunks[..k + 1][..k] == chunks[..k];
    WholeStreamAppend(cfg, index, s, Concat(chunks[..k]), chunks[k], os);
    if Live(w.port.slot) {
      RulesAgreeExactly(cfg, index, w.port.slot, w.port.pending + chunks[k], os);
    }
  }

  lemma EmptyStream(cfg: Config, index: nat, s: Slot, chunks: seq<Bytes>, os: Os)
    requires index < 0xFF && Live(s)
    ensures Concat(chunks[..0]) == []
    ensures WholeStream(cfg, index, s, [], os) == Served(Port(s, []), [])
    ensures FeedAll(AsWritten, cfg, index, Port(s, []), chunks[..0], os) == Served(Port(s, []), [])
  {}

  /** The code meets fragmentation independence exactly on the chunk sequences
      that never cut a PASSWORD or DEVICE message behind its first byte. */
  lemma AsWrittenExactly(cfg: Config, index: nat, s: Slot, chunks: seq<Bytes>, os: Os)
    requires index < 0xFF && Live(s)
    ensures FollowsStream(cfg, index, s, chunks, os) <==> NoLoneHeader(cfg, index, s, chunks, os)
  {
    hide FeedAll, WholeStream;
    EmptyStream(cfg, index, s, chunks, os);
    if NoLoneHeader(cfg, index, s, chunks, os) {
      forall k | 0 <= k <= |chunks|
        ensures FeedAll(AsWritten, cfg, index, Port(s, []), chunks[..k], os)
             == WholeStream(cfg, index, s, Concat(chunks[..k]), os)
      {
        AsWrittenFollows(cfg, index, s, chunks, k, os);
      }
    }
    if FollowsStream(cfg, index, s, chunks, os) {
      forall k | 0 < k <= |chunks|
        ensures !AtLoneHeader(WholeStream(cfg, index, s, Concat(chunks[..k]), os).port)
      {
        AsWrittenStep(cfg, index, s, chunks, k - 1, os);
      }
    }
  }

  lemma {:induction false} AsWrittenFollows(cfg: Config, index: nat, s: Slot, chunks: seq<Bytes>, n: nat, os: Os)
    requires index < 0xFF && Live(s) && n <= |chunks|
    requires NoLoneHeader(cfg, index, s, chunks, os)
    ensures FeedAll(AsWritten, cfg, index, Port(s, []), chunks[..n], os)
         == WholeStream(cfg, index, s, Concat(chunks[..n]), os)
  {
    hide FeedAll, WholeStream;
    if n == 0 {
      EmptyStream(cfg, index, s, chunks, os);
    } else {
      AsWrittenFollows(cfg, index, s, chunks, n - 1, os);
      AsWrittenStep(cfg, index, s, chunks, n - 1, os);
    }
  }

  /** The condition on the bytes alone, which a sender can see to: no chunk ends
      right behind the type byte of a PASSWORD or DEVICE message. */
  predicate CutsBehindLength(chunks: seq<Bytes>) {
    forall k | 0 <= k <= |chunks| :: !LoneHeader(Frames(Concat(chunks[..k])).rest)
  }

  lemma SenderCanAvoidIt(cfg: Config, index: nat, s: Slot, chunks: seq<Bytes>, os: Os)
    requires index < 0xFF && Live(s) && CutsBehindLength(chunks)
    ensures FollowsStream(cfg, index, s, chunks, os)
  {
    hide Interpret, FeedAll, Frames;
    forall k | 0 <= k <= |chunks|
      ensures !AtLoneHeader(WholeStream(cfg, index, s, Concat(chunks[..k]), os).port)
    {
      assert !LoneHeader(Frames(Concat(chunks[..k])).rest);
    }
    AsWrittenExactly(cfg, index, s, chunks, os);
  }

  /** The smallest cut that the written loop gets wrong. */
  lemma CutBehindFirstByte(cfg: Config, index: nat, s: Slot, os: Os)
    requires index < 0xFF && Live(s) && s.status == PASSWORD_REQUIRED
    ensures FeedAll(AsWritten, cfg, index, Port(s, []), [[PASSWORD]], os).port.slot.wrecked
    ensures WholeStream(cfg, index, s, [PASSWORD], os) == Served(Port(s, [PASSWORD]), [])
  {}

  // ---------- the input buffer ----------

  /** An open slot never keeps a whole message: what it keeps leaves recv room
      for at least 760 bytes, unless its head is no message type at all. */
  lemma {:induction false} PendingBound(rule: Rule, cfg: Config, index: nat, s: Slot, buf: Bytes, os: Os)
    requires index < 0xFF
    ensures var p := Drain(rule, cfg, index, s, buf, os).port;
            && |p.pending| <= |buf|
            && (|p.pending| < MAX_FRAME || Stuck(p.pending))
            && (Live(p.slot) && !Stuck(p.pending) ==> INPUT_BUFFER_SIZE - |p.pending| >= 760)
    decreases |buf|
  {
    hide Dispatch;
    var n := HeadFrame(buf);
    if Live(s) && n > 0 {
      var first := Dispatch(cfg, index, s, buf[..n], os);
      PendingBound(rule, cfg, index, first.slot, buf[n..], os);
    }
  }

  /** A head that is no message type is never dropped: from then on the slot only
      collects bytes, whatever they are and however they are cut. */
  lemma {:induction false} StuckForever(rule: Rule, cfg: Config, index: nat, p: Port, chunks: seq<Bytes>, os: Os)
    requires index < 0xFF && Live(p.slot) && Stuck(p.pending)
    ensures FeedAll(rule, cfg, index, p, chunks, os) == Served(Port(p.slot, p.pending + Concat(chunks)), [])
    decreases |chunks|
  {
    if chunks == [] {
      assert p.pending + [] == p.pending;
    } else {
      var k := |chunks| - 1;
      StuckForever(rule, cfg, index, p, chunks[..k], os);
      Assoc(p.pending, Concat(chunks[..k]), chunks[k]);
    }
  }

  // ---------- the event stream ----------

  function Encodings(events: seq<InputEvent>): seq<Bytes> {
    seq(|events|, i requires 0 <= i < |events| => EncodeData(events[i]))
  }

  function Writes(dev: int, events: seq<InputEvent>): seq<Effect> {
    seq(|events|, i requires 0 <= i < |events| => Wrote(dev, events[i]))
  }

  /** The bytes a client sends for its events. */
  function EncodeAll(events: seq<InputEvent>): Bytes {
    if events == [] then [] else EncodeData(events[0]) + EncodeAll(events[1..])
  }

  lemma {:induction false} EncodeAllSize(events: seq<InputEvent>)
    ensures |EncodeAll(events)| == DATA_SIZE * |events|
  {
    if events != [] {
      EncodeAllSize(events[1..]);
    }
  }

  /** Where a prefix of the event stream is cut: its complete messages are the
      first events, its tail is a strict prefix of the next one. */
  function EventTail(events: seq<InputEvent>, cut: nat): Bytes
    requires cut <= DATA_SIZE * |events|
  {
    var q := cut / DATA_SIZE;
    if cut % DATA_SIZE == 0 then [] else EncodeData(events[q])[..cut % DATA_SIZE]
  }

  lemma {:induction false} DataFrames(events: seq<InputEvent>, cut: nat)
    requires cut <= DATA_SIZE * |events| == |EncodeAll(events)|
    ensures Frames(EncodeAll(events)[..cut])
         == Tokens(Encodings(events[..cut / DATA_SIZE]), EventTail(events, cut))
    decreases |events|
  {
    hide HeadFrame;
    var stream := EncodeAll(events)[..cut];
    DataHead(stream);
    if cut < DATA_SIZE {
      assert events[..0] == [] && Encodings([]) == [];
      if cut > 0 {
        assert stream == EncodeData(events[0])[..cut];
      }
    } else {
      EncodeAllSize(events[1..]);
      StreamStep(events, cut);
      DataFrames(events[1..], cut - DATA_SIZE);
      TailStep(events, cut);
    }
  }

  lemma StreamStep(events: seq<InputEvent>, cut: nat)
    requires DATA_SIZE <= cut <= |EncodeAll(events)|
    ensures EncodeAll(events)[..cut][..DATA_SIZE] == EncodeData(events[0])
    ensures EncodeAll(events)[..cut][DATA_SIZE..] == EncodeAll(events[1..])[..cut - DATA_SIZE]
  {}

  lemma DataHead(stream: Bytes)
    ensures stream != [] && stream[0] == DATA ==> HeadFrame(stream) == if |stream| < DATA_SIZE then 0 else DATA_SIZE
    ensures stream == [] ==> HeadFrame(stream) == 0
  {}

  lemma TailStep(events: seq<InputEvent>, cut: nat)
    requires DATA_SIZE <= cut <= DATA_SIZE * |events|
    ensures EventTail(events, cut) == EventTail(events[1..], cut - DATA_SIZE)
    ensures Encodings(events[..cut / DATA_SIZE])
         == [EncodeData(events[0])] + Encodings(events[1..][..(cut - DATA_SIZE) / DATA_SIZE])
  {
    var q := cut / DATA_SIZE;
    assert (cut - DATA_SIZE) / DATA_SIZE == q - 1 && (cut - DATA_SIZE) % DATA_SIZE == cut % DATA_SIZE;
    assert events[..q] == [events[0]] + events[1..][..q - 1];
  }

  /** Interpreting encoded events in SUCCESS writes exactly these events. */
  lemma {:induction false} InterpretData(cfg: Config, index: nat, s: Slot, events: seq<InputEvent>, os: Os)
    requires index < 0xFF && Live(s) && s.status == SUCCESS
    requires forall i | s.calls <= i < s.calls + |events| :: os(i) >= 0
    requires AllFrames(Encodings(events))
    ensures Interpret(cfg, index, s, Encodings(events), os)
         == Outcome(s.(calls := s.calls + |events|), Writes(s.evFd, events))
    decreases |events|
  {
    hide Dispatch;
    if events != [] {
      var e, more := events[0], events[1..];
      DispatchData(cfg, index, s, e, os);
      assert Encodings(events)[0] == EncodeData(e) && Encodings(events)[1..] == Encodings(more);
      InterpretData(cfg, index, s.(calls := s.calls + 1), more, os);
      assert Writes(s.evFd, events) == [Wrote(s.evFd, e)] + Writes(s.evFd, more);
    }
  }

  lemma DispatchData(cfg: Config, index: nat, s: Slot, e: InputEvent, os: Os)
    requires index < 0xFF && Live(s) && s.status == SUCCESS && os(s.calls) >= 0
    ensures IsFrame(EncodeData(e))
    ensures Dispatch(cfg, index, s, EncodeData(e), os) == Outcome(s.(calls := s.calls + 1), [Wrote(s.evFd, e)])
  {}

  lemma EncodingsAreFrames(events: seq<InputEvent>)
    ensures AllFrames(Encodings(events))
  {}

  /** Event stream fidelity, of the loop as written: however the bytes of an
      event list are cut and wherever they end so far, exactly the events that
      have arrived completely are written, in order, and the bytes left over are
      a strict prefix of the next event. */
  lemma EventFidelity(cfg: Config, index: nat, s: Slot, events: seq<InputEvent>, chunks: seq<Bytes>, os: Os)
    requires index < 0xFF && Live(s) && s.status == SUCCESS
    requires forall i | s.calls <= i < s.calls + |events| :: os(i) >= 0
    requires Concat(chunks) <= EncodeAll(events)
    ensures |Concat(chunks)| <= DATA_SIZE * |events|
    ensures var cut := |Concat(chunks)|; var q := cut / DATA_SIZE;
            FeedAll(AsWritten, cfg, index, Port(s, []), chunks, os)
            == Served(Port(s.(calls := s.calls + q), EventTail(events, cut)), Writes(s.evFd, events[..q]))
  {
    EncodeAllSize(events);
    forall k | 0 <= k <= |chunks|
      ensures !AtLoneHeader(WholeStream(cfg, index, s, Concat(chunks[..k]), os).port)
    {
      ConcatPrefix(chunks, k);
      WholeEventStream(cfg, index, s, events, Concat(chunks[..k]), os);
    }
    AsWrittenExactly(cfg, index, s, chunks, os);
    assert chunks[..|chunks|] == chunks;
    WholeEventStream(cfg, index, s, events, Concat(chunks), os);
  }

  lemma {:induction false} ConcatPrefix(chunks: seq<Bytes>, k: nat)
    requires k <= |chunks|
    ensures Concat(chunks[..k]) <= Concat(chunks)
    decreases |chunks|
  {
    if k < |chunks| {
      var n := |chunks| - 1;
      ConcatPrefix(chunks[..n], k);
      assert chunks[..n][..k] == chunks[..k];
    } else {
      assert chunks[..k] == chunks;
    }
  }

  lemma WholeEventStream(cfg: Config, index: nat, s: Slot, events: seq<InputEvent>, stream: Bytes, os: Os)
    requires index < 0xFF && Live(s) && s.status == SUCCESS
    requires forall i | s.calls <= i < s.calls + |events| :: os(i) >= 0
    requires stream <= EncodeAll(events) && |EncodeAll(events)| == DATA_SIZE * |events|
    ensures var q := |stream| / DATA_SIZE;
            WholeStream(cfg, index, s, stream, os)
            == Served(Port(s.(calls := s.calls + q), EventTail(events, |stream|)), Writes(s.evFd, events[..q]))
    ensures !LoneHeader(EventTail(events, |stream|))
  {
    var q := |stream| / DATA_SIZE;
    assert stream == EncodeAll(events)[..|stream|];
    DataFrames(events, |stream|);
    EncodingsAreFrames(events[..q]);
    InterpretData(cfg, index, s, events[..q], os);
    if |stream| % DATA_SIZE != 0 {
      assert EventTail(events, |stream|)[0] == DATA;
    }
  }
}
