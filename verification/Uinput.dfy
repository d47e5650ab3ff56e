/** What a client asked for, and the ioctls that enable its events (enable_events of
    server/uinput.c, struct device_meta of server/input-server.h). */
module Uinput {
  import opened Wrappers
  import opened Protocol

  /** A struct input_absinfo as it travels: value, minimum, maximum, fuzz, flat
      and resolution, four bytes each. */
  type AbsInfo = a: Bytes | |a| == 24 witness seq(24, _ => 0)

  function NoInfo(): AbsInfo {
    seq(24, _ => 0)
  }

  datatype RawMeta = RawMeta(name: Option<Bytes>, enabled: seq<EventId>, absinfo: seq<AbsInfo>)

  type Meta = m: RawMeta | |m.absinfo| == ABS_CNT witness RawMeta(None, [], seq(ABS_CNT, _ => NoInfo()))

  function EmptyMeta(): Meta {
    RawMeta(None, [], seq(ABS_CNT, _ => NoInfo()))
  }

  /** Whether the minimum or the maximum of an axis is set. */
  predicate AxisInUse(info: AbsInfo) {
    info[4..8] != [0, 0, 0, 0] || info[8..12] != [0, 0, 0, 0]
  }

  /** The fields of an axis, as numbers. */
  datatype AxisFields = AxisFields(value: Int32, minimum: Int32, maximum: Int32, fuzz: Int32, flat: Int32,
                                   resolution: Int32)

  function Fields(info: AbsInfo): AxisFields {
    AxisFields(FromLe32(info[0..4]), FromLe32(info[4..8]), FromLe32(info[8..12]), FromLe32(info[12..16]),
               FromLe32(info[16..20]), FromLe32(info[20..24]))
  }

  lemma ZeroBytes(b: Bytes)
    requires |b| == 4
    ensures b == [0, 0, 0, 0] <==> FromLe32(b) == 0
  {}

  /** The bytes that are looked at are those of the minimum and the maximum. */
  lemma InUseMeaning(info: AbsInfo)
    ensures AxisInUse(info) <==> Fields(info).minimum != 0 || Fields(info).maximum != 0
  {
    hide FromLe32;
    ZeroBytes(info[4..8]);
    ZeroBytes(info[8..12]);
  }

  // ---------- capabilities ----------

  datatype Capabilities = Capabilities(kinds: set<int>, codes: set<EventId>)

  // The event types with an ioctl of their own, terminated by 0.
  const ENABLE_MAP: seq<int> := [EV_KEY, EV_REL, EV_ABS, EV_MSC, 0]

  predicate Mapped(kind: int) {
    kind == EV_KEY || kind == EV_REL || kind == EV_ABS || kind == EV_MSC
  }

  /** What a list of requested events means: every mapped code with its type;
      an unmapped one only turns on EV_SYN. */
  function Requested(events: seq<EventId>): Capabilities {
    Capabilities(
      set e | e in events :: if Mapped(e.kind) then e.kind else EV_SYN,
      set e | e in events && Mapped(e.kind))
  }

  datatype Ioctl = SetType(kind: int) | SetCode(id: EventId)

  /** The naive call sequence: the type bit is set again for every entry. */
  function Naive(events: seq<EventId>): seq<Ioctl> {
    if events == [] then []
    else if Mapped(events[0].kind) then
      [SetType(events[0].kind), SetCode(events[0])] + Naive(events[1..])
    else
      [SetType(EV_SYN)] + Naive(events[1..])
  }

  /** The calls actually made: a type bit is skipped when the last mapped entry
      already had that type. */
  function Skipping(events: seq<EventId>, lastType: int): seq<Ioctl> {
    if events == [] then []
    else
      var e := events[0];
      if !Mapped(e.kind) then
        [SetType(EV_SYN)] + Skipping(events[1..], lastType)
      else if e.kind == lastType then
        [SetCode(e)] + Skipping(events[1..], lastType)
      else
        [SetType(e.kind), SetCode(e)] + Skipping(events[1..], e.kind)
  }

  function LastType(events: seq<EventId>, lastType: int): int {
    if events == [] then lastType
    else LastType(events[1..], if Mapped(events[0].kind) then events[0].kind else lastType)
  }

  /** What a call sequence enables on the device. */
  function Enabled(calls: seq<Ioctl>): Capabilities {
    Capabilities(
      set c | c in calls && c.SetType? :: c.kind,
      set c | c in calls && c.SetCode? :: c.id)
  }

  lemma {:induction false} NaiveMembers(events: seq<EventId>, c: Ioctl)
    ensures c in Naive(events) <==>
            exists e :: e in events &&
              if Mapped(e.kind) then c == SetType(e.kind) || c == SetCode(e) else c == SetType(EV_SYN)
  {
    if events != [] {
      NaiveMembers(events[1..], c);
      assert events == [events[0]] + events[1..];
    }
  }

  lemma {:induction false} SkippingMembers(events: seq<EventId>, lastType: int, c: Ioctl)
    ensures c in Skipping(events, lastType) ==> c in Naive(events)
    ensures c in Naive(events) ==>
              c in Skipping(events, lastType) || (Mapped(lastType) && c == SetType(lastType))
  {
    if events != [] {
      var e := events[0];
      var next := if Mapped(e.kind) then e.kind else lastType;
      SkippingMembers(events[1..], next, c);
    }
  }

  /** The skip loses nothing: with the initial "no type yet" the optimised call
      sequence enables exactly what the naive one does, which is what was requested. */
  lemma CapabilityRefinement(events: seq<EventId>)
    ensures Enabled(Skipping(events, EV_MAX)) == Enabled(Naive(events)) == Requested(events)
  {
    var skip, naive := Skipping(events, EV_MAX), Naive(events);
    forall c: Ioctl
      ensures c in skip <==> c in naive
      ensures c in naive <==>
              exists e :: e in events &&
                if Mapped(e.kind) then c == SetType(e.kind) || c == SetCode(e) else c == SetType(EV_SYN)
    {
      SkippingMembers(events, EV_MAX, c);
      NaiveMembers(events, c);
    }
    var want := Requested(events);
    forall k: int
      ensures k in Enabled(skip).kinds <==> k in want.kinds
      ensures k in Enabled(naive).kinds <==> k in want.kinds
    {
      assert k in Enabled(skip).kinds <==> SetType(k) in skip;
      assert k in Enabled(naive).kinds <==> SetType(k) in naive;
      assert k in want.kinds <==> exists e :: e in events && k == (if Mapped(e.kind) then e.kind else EV_SYN);
    }
    forall e: EventId
      ensures e in Enabled(skip).codes <==> e in want.codes
      ensures e in Enabled(naive).codes <==> e in want.codes
    {
      assert e in Enabled(skip).codes <==> SetCode(e) in skip;
      assert e in Enabled(naive).codes <==> SetCode(e) in naive;
    }
    assert Enabled(skip).kinds == want.kinds == Enabled(naive).kinds;
    assert Enabled(skip).codes == want.codes == Enabled(naive).codes;
  }

  /** Every code is enabled only after its event type. */
  lemma {:induction false} TypeBeforeCode(events: seq<EventId>, lastType: int, i: nat)
    requires i < |Skipping(events, lastType)|
    requires Skipping(events, lastType)[i].SetCode?
    ensures var calls := Skipping(events, lastType);
            calls[i].id.kind == lastType || SetType(calls[i].id.kind) in calls[..i]
  {
    var e := events[0];
    var calls := Skipping(events, lastType);
    var head := if !Mapped(e.kind) then [SetType(EV_SYN)]
                else if e.kind == lastType then [SetCode(e)]
                else [SetType(e.kind), SetCode(e)];
    var next := if Mapped(e.kind) then e.kind else lastType;
    var tail := Skipping(events[1..], next);
    assert calls == head + tail;
    if Mapped(e.kind) && e.kind != lastType && i > 0 {
      assert calls[..i][0] == SetType(e.kind);
    }
    if |head| <= i {
      TypeBeforeCode(events[1..], next, i - |head|);
      assert calls[..i] == head + tail[..i - |head|];
    }
  }

  lemma {:induction false} SkippingAppend(a: seq<EventId>, b: seq<EventId>, lastType: int)
    ensures Skipping(a + b, lastType) == Skipping(a, lastType) + Skipping(b, LastType(a, lastType))
    ensures LastType(a + b, lastType) == LastType(b, LastType(a, lastType))
  {
    if a == [] {
      assert a + b == b;
    } else {
      var next := if Mapped(a[0].kind) then a[0].kind else lastType;
      assert (a + b)[1..] == a[1..] + b;
      SkippingAppend(a[1..], b, next);
    }
  }

  // ---------- the loop ----------

  /** Enables the requested events on an open uinput descriptor. `answers` holds
      the results of the kernel calls on this descriptor in order (0 is success);
      `start` of them were made before. */
  method EnableEvents(events: seq<EventId>, answers: nat -> int, start: nat) returns (ok: bool, calls: seq<Ioctl>)
    ensures ok ==> calls == Skipping(events, EV_MAX)
    ensures ok ==> forall i | start <= i < start + |calls| :: answers(i) == 0
    ensures !ok ==> 0 < |calls| && calls <= Skipping(events, EV_MAX)
    ensures !ok ==> answers(start + |calls| - 1) != 0
    ensures !ok ==> forall i | start <= i < start + |calls| - 1 :: answers(i) == 0
  {
    hide Skipping, LastType, Mapped;
    SkippingNone();
    var lastType := EV_MAX;
    calls := [];
    assert events[..0] == [];
    for u := 0 to |events|
      invariant lastType == LastType(events[..u], EV_MAX)
      invariant calls == Skipping(events[..u], EV_MAX)
      invariant forall i | start <= i < start + |calls| :: answers(i) == 0
    {
      var e := events[u];
      SkippingNext(events, u);
      SkippingPrefix(events, u + 1);

      // find the matching type
      var p := 0;
      while ENABLE_MAP[p] != 0 && ENABLE_MAP[p] != e.kind
        invariant 0 <= p < 5
        invariant forall q | 0 <= q < p :: ENABLE_MAP[q] != e.kind
        decreases 5 - p
      {
        p := p + 1;
      }
      MapLookup(e.kind, p);

      if ENABLE_MAP[p] == 0 {
        calls := calls + [SetType(EV_SYN)];
        if answers(start + |calls| - 1) != 0 {
          return false, calls;
        }
        continue;
      }

      if lastType != e.kind {
        calls := calls + [SetType(ENABLE_MAP[p])];
        if answers(start + |calls| - 1) != 0 {
          return false, calls;
        }
        lastType := e.kind;
      }

      calls := calls + [SetCode(e)];
      if answers(start + |calls| - 1) != 0 {
        return false, calls;
      }
    }
    assert events[..|events|] == events;
    ok := true;
  }

  lemma MapLookup(kind: int, p: nat)
    requires p < 5
    requires ENABLE_MAP[p] == 0 || ENABLE_MAP[p] == kind
    requires forall q | 0 <= q < p :: ENABLE_MAP[q] != kind
    ensures ENABLE_MAP[p] == if Mapped(kind) then kind else 0
    ensures Mapped(kind) <==> ENABLE_MAP[p] != 0
  {
    assert ENABLE_MAP[0] == EV_KEY && ENABLE_MAP[1] == EV_REL && ENABLE_MAP[2] == EV_ABS && ENABLE_MAP[3] == EV_MSC;
  }

  /** The calls for one more entry. */
  function NextCalls(e: EventId, lastType: int): seq<Ioctl> {
    if !Mapped(e.kind) then [SetType(EV_SYN)]
    else if e.kind == lastType then [SetCode(e)]
    else [SetType(e.kind), SetCode(e)]
  }

  lemma SkippingNone()
    ensures Skipping([], EV_MAX) == [] && LastType([], EV_MAX) == EV_MAX
  {}

  lemma SkippingOne(e: EventId, lastType: int)
    ensures Skipping([e], lastType) == NextCalls(e, lastType)
    ensures LastType([e], lastType) == if Mapped(e.kind) then e.kind else lastType
  {}

  lemma SkippingNext(events: seq<EventId>, u: nat)
    requires u < |events|
    ensures var e, last := events[u], LastType(events[..u], EV_MAX);
            && LastType(events[..u + 1], EV_MAX) == (if Mapped(e.kind) then e.kind else last)
            && Skipping(events[..u + 1], EV_MAX) == Skipping(events[..u], EV_MAX) + NextCalls(e, last)
  {
    assert events[..u + 1] == events[..u] + [events[u]];
    SkippingAppend(events[..u], [events[u]], EV_MAX);
    SkippingOne(events[u], LastType(events[..u], EV_MAX));
  }

  lemma SkippingPrefix(events: seq<EventId>, n: nat)
    requires n <= |events|
    ensures Skipping(events[..n], EV_MAX) <= Skipping(events, EV_MAX)
  {
    assert events == events[..n] + events[n..];
    SkippingAppend(events[..n], events[n..], EV_MAX);
  }
}
