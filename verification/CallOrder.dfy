/** The order of the kernel calls with which a device is created, and what the
    kernel answered to each, read off the calls themselves. */
module CallOrder {
  import opened Protocol
  import opened Uinput
  import opened DeviceCreation

  /** The kernel call that names the device: one of the two setup calls. */
  predicate Names(call: Call) {
    call.Setup? || call.WriteSetup?
  }

  /** The version query first, then ioctls that enable events, the setup call, axes,
      and the creation itself last. */
  predicate InOrder(calls: seq<Call>, m: nat) {
    && 0 < m < |calls| - 1
    && calls[0] == GetVersion
    && (forall i | 0 < i < m :: calls[i].Enable?)
    && Names(calls[m])
    && (forall i | m < i < |calls| - 1 :: calls[i].AbsSetup?)
    && calls[|calls| - 1] == Create
  }

  /** The kernel did not refuse the call: the setup call of the new kind may fail. */
  predicate Granted(call: Call, answer: int) {
    match call
    case GetVersion => answer == 0
    case Enable(_) => answer == 0
    case Setup(_) => true
    case WriteSetup(_, _) => answer >= 0
    case AbsSetup(_, _) => answer == 0
    case Create => answer == 0
  }

  lemma {:induction false} AxisCallsOnly(absinfo: seq<AbsInfo>, n: nat)
    requires n <= |absinfo|
    ensures forall c | c in AxisCalls(absinfo, n) :: c.AbsSetup?
  {
    hide AxisInUse;
    if n > 0 {
      AxisCallsOnly(absinfo, n - 1);
    }
  }

  /** Where the setup call is. */
  function SetupAt(meta: Meta): nat {
    |Opening(meta)|
  }

  lemma PlanInOrder(meta: Meta, version: int, setupOk: bool)
    ensures var plan := Plan(meta, version, setupOk); var m := SetupAt(meta);
            && InOrder(plan, m)
            && plan[..m] == Opening(meta)
            && (plan[m].Setup? <==> version >= 5)
            && (if version >= 5 then plan[m] == Setup(FieldOf(meta.name))
                else plan[m] == WriteSetup(FieldOf(meta.name), Ranges(meta.absinfo)))
            && (version < 5 || !setupOk ==> |plan| == m + 2)
  {
    hide AxisCalls, FieldOf, Ranges, Skipping;
    AxisCallsOnly(meta.absinfo, |meta.absinfo|);
    var plan, m := Plan(meta, version, setupOk), |Opening(meta)|;
    var setup := SetupCalls(meta, version, setupOk);
    assert plan == Opening(meta) + setup + [Create];
    forall i | m < i < |plan| - 1
      ensures plan[i].AbsSetup?
    {
      assert plan[i] == setup[i - m] == AxisCalls(meta.absinfo, |meta.absinfo|)[i - m - 1];
    }
  }

  /** A creation that hands out a descriptor has made the version query first, then
      enabled events, then made the one setup call, then set up axes, and last, once,
      created the device; the kernel granted all of these calls. Axes are set up only
      behind a new setup call that succeeded. */
  lemma CreatedInOrder(meta: Meta, version: int, answers: nat -> int)
    requires Attempted(meta, version, answers).fd >= 0
    ensures var calls := Attempted(meta, version, answers).calls;
            && (exists m: nat :: InOrder(calls, m)
                  && (calls[m].Setup? <==> version >= 5)
                  && (|calls| > m + 2 ==> version >= 5 && answers(1 + m) == 0))
            && (forall i: nat | i < |calls| :: Granted(calls[i], answers(1 + i)))
  {
    hide FullPlan, NameReadable, Opening, FirstRejected, Attempted, InOrder;
    HandedOut(meta, version, answers);
    var plan := FullPlan(meta, version, answers);
    CallsOfPlan(meta, version, answers);
    assert InOrder(plan, SetupAt(meta));
    forall i: nat | i < |plan|
      ensures Granted(plan[i], answers(1 + i))
    {
      assert Accepted(plan[i], answers(1 + i));
    }
  }

  lemma CallsOfPlan(meta: Meta, version: int, answers: nat -> int)
    ensures var plan := FullPlan(meta, version, answers); var m := SetupAt(meta);
            && InOrder(plan, m)
            && (plan[m].Setup? <==> version >= 5)
            && (|plan| > m + 2 ==> version >= 5 && answers(1 + m) == 0)
  {
    hide Plan, Opening, FieldOf, Ranges, InOrder;
    PlanInOrder(meta, version, SetupOk(meta, version, answers));
  }

  /** A creation that was opened, stays defined and hands out nothing has made the
      calls of such an order up to the first one the kernel did not grant. */
  lemma FailedInOrder(meta: Meta, version: int, answers: nat -> int)
    requires var a := Attempted(meta, version, answers); a.fd < 0 && !a.wrecked && answers(0) >= 0
    ensures var calls := Attempted(meta, version, answers).calls; var last := |calls| - 1;
            && |calls| > 0
            && (exists whole: seq<Call>, m: nat :: InOrder(whole, m) && calls <= whole)
            && (forall i: nat | i < last :: Granted(calls[i], answers(1 + i)))
            && !Granted(calls[last], answers(1 + last))
  {
    hide FullPlan, NameReadable, Opening, FirstRejected, InOrder;
    var plan := FullPlan(meta, version, answers);
    var n := FirstRejected(plan, answers, 1);
    CallsOfPlan(meta, version, answers);
    OpeningFirst(meta, version, answers);
    var calls := Attempted(meta, version, answers).calls;
    assert n < |plan| && calls == plan[..n + 1];
    assert calls <= plan;
    forall i: nat | i < n
      ensures Granted(calls[i], answers(1 + i))
    {
      assert Accepted(plan[..n][i], answers(1 + i));
    }
  }
  // ---------- the device the kernel makes of the calls ----------

  /** A device nothing has been said about. */
  function Untold(): DeviceSpec {
    DeviceSpec(NameField([]), Capabilities({}, {}), map[])
  }

  /** What the kernel takes over from a call, given its answer. */
  function Take(d: DeviceSpec, call: Call, answer: int): DeviceSpec {
    match call
    case Enable(SetType(kind)) => d.(capabilities := d.capabilities.(kinds := d.capabilities.kinds + {kind}))
    case Enable(SetCode(id)) => d.(capabilities := d.capabilities.(codes := d.capabilities.codes + {id}))
    case Setup(name) => if answer == 0 then d.(name := name) else d
    case AbsSetup(axis, info) => d.(axes := d.axes[axis := info])
    case WriteSetup(name, ranges) => d.(name := name, axes := RangeAxes(ranges))
    case _ => d
  }

  /** The axes of a deprecated setup: those with a range that is not all zero. */
  function RangeAxes(ranges: seq<Bytes>): map<int, AbsInfo> {
    map c | 0 <= c < |ranges| && |ranges[c]| == 16 && ranges[c] != seq(16, _ => 0) ::
      [0, 0, 0, 0] + ranges[c] + [0, 0, 0, 0]
  }

  /** The device after some calls, the first of which is call `start`. */
  function Built(d: DeviceSpec, calls: seq<Call>, answers: nat -> int, start: nat): DeviceSpec {
    if calls == [] then d
    else
      var k := |calls| - 1;
      Take(Built(d, calls[..k], answers, start), calls[k], answers(start + k))
  }

  lemma {:induction false} BuiltAppend(d: DeviceSpec, a: seq<Call>, b: seq<Call>, answers: nat -> int, start: nat)
    ensures Built(d, a + b, answers, start) == Built(Built(d, a, answers, start), b, answers, start + |a|)
    decreases |b|
  {
    hide Take;
    if b == [] {
      assert a + b == a;
    } else {
      var k := |b| - 1;
      assert (a + b)[..|a + b| - 1] == a + b[..k];
      BuiltAppend(d, a, b[..k], answers, start);
    }
  }

  lemma BuiltOne(d: DeviceSpec, call: Call, answers: nat -> int, start: nat)
    ensures Built(d, [call], answers, start) == Take(d, call, answers(start))
  {
    hide Take;
    assert [call][..0] == [];
  }

  lemma {:induction false} BuiltEnabled(d: DeviceSpec, ioctls: seq<Ioctl>, answers: nat -> int, start: nat)
    ensures var e := Enabled(ioctls);
            Built(d, Wrap(ioctls), answers, start)
            == d.(capabilities := Capabilities(d.capabilities.kinds + e.kinds, d.capabilities.codes + e.codes))
  {
    if ioctls == [] {
      assert Wrap(ioctls) == [];
    } else {
      var k := |ioctls| - 1;
      BuiltEnabled(d, ioctls[..k], answers, start);
      assert Wrap(ioctls)[..k] == Wrap(ioctls[..k]);
      EnabledOneMore(ioctls[..k], ioctls[k]);
      assert ioctls == ioctls[..k] + [ioctls[k]];
    }
  }

  lemma EnabledOneMore(ioctls: seq<Ioctl>, c: Ioctl)
    ensures var e, e' := Enabled(ioctls), Enabled(ioctls + [c]);
            && e'.kinds == e.kinds + (if c.SetType? then {c.kind} else {})
            && e'.codes == e.codes + (if c.SetCode? then {c.id} else {})
  {
    assert forall x :: x in ioctls + [c] <==> x in ioctls || x == c;
    var e, e' := Enabled(ioctls), Enabled(ioctls + [c]);
    assert forall kind :: kind in e'.kinds <==> SetType(kind) in ioctls + [c];
    assert forall kind :: kind in e.kinds <==> SetType(kind) in ioctls;
    assert forall id :: id in e'.codes <==> SetCode(id) in ioctls + [c];
    assert forall id :: id in e.codes <==> SetCode(id) in ioctls;
  }

  function InUse(absinfo: seq<AbsInfo>, n: nat): map<int, AbsInfo>
    requires n <= |absinfo|
  {
    map c | 0 <= c < n && AxisInUse(absinfo[c]) :: absinfo[c]
  }

  lemma InUseNext(absinfo: seq<AbsInfo>, n: nat, axes: map<int, AbsInfo>)
    requires n < |absinfo|
    ensures axes + InUse(absinfo, 0) == axes
    ensures axes + InUse(absinfo, n + 1)
         == if AxisInUse(absinfo[n]) then (axes + InUse(absinfo, n))[n := absinfo[n]] else axes + InUse(absinfo, n)
  {
    hide AxisInUse;
  }

  lemma {:induction false} BuiltAxes(d: DeviceSpec, absinfo: seq<AbsInfo>, n: nat, answers: nat -> int, start: nat)
    requires n <= |absinfo|
    ensures Built(d, AxisCalls(absinfo, n), answers, start) == d.(axes := d.axes + InUse(absinfo, n))
  {
    hide AxisInUse, InUse, AxisCalls, Take, Built;
    if n == 0 {
      NoAxes(d, absinfo, answers, start);
    } else {
      var before, call := AxisCalls(absinfo, n - 1), AbsSetup(n - 1, absinfo[n - 1]);
      AxisNext(absinfo, n - 1);
      InUseNext(absinfo, n - 1, d.axes);
      BuiltAxes(d, absinfo, n - 1, answers, start);
      var d' := d.(axes := d.axes + InUse(absinfo, n - 1));
      BuiltAppend(d, before, [call], answers, start);
      BuiltOne(d', call, answers, start + |before|);
      TakesAxis(d', n - 1, absinfo[n - 1], answers(start + |before|));
    }
  }

  lemma TakesAxis(d: DeviceSpec, axis: nat, info: AbsInfo, answer: int)
    ensures Take(d, AbsSetup(axis, info), answer) == d.(axes := d.axes[axis := info])
  {}

  lemma NoAxes(d: DeviceSpec, absinfo: seq<AbsInfo>, answers: nat -> int, start: nat)
    ensures Built(d, AxisCalls(absinfo, 0), answers, start) == d.(axes := d.axes + InUse(absinfo, 0))
  {
    assert d.axes + InUse(absinfo, 0) == d.axes;
  }

  /** The device that a creation hands out is the one the kernel makes of its calls: the
      description the rest of the model goes by is what was said to the kernel. */
  lemma BuiltAsSpecified(meta: Meta, version: int, answers: nat -> int)
    requires Attempted(meta, version, answers).fd >= 0
    ensures Built(Untold(), Attempted(meta, version, answers).calls, answers, 1)
         == SpecOf(meta, version, SetupOk(meta, version, answers))
  {
    hide FullPlan, NameReadable, AllAccepted, Skipping, FirstRejected, Attempted, SetupCalls, Take, Requested, FieldOf,
      NameField, AxesOf;
    HandedOut(meta, version, answers);
    var ok := SetupOk(meta, version, answers);
    var opening, setup := Opening(meta), SetupCalls(meta, version, ok);
    PlanParts(meta, version, answers);
    var d := Built(Untold(), opening, answers, 1);
    BuiltOpening(meta, answers);
    BuiltAppend(Untold(), opening + setup, [Create], answers, 1);
    BuiltAppend(Untold(), opening, setup, answers, 1);
    BuiltSetup(meta, version, answers, d);
    var d' := Built(d, setup, answers, 1 + |opening|);
    BuiltOne(d', Create, answers, 1 + |opening + setup|);
    CreateTakesNothing(d', answers(1 + |opening + setup|));
  }

  lemma PlanParts(meta: Meta, version: int, answers: nat -> int)
    ensures FullPlan(meta, version, answers)
         == Opening(meta) + SetupCalls(meta, version, SetupOk(meta, version, answers)) + [Create]
  {
    hide Opening, SetupCalls;
  }

  lemma CreateTakesNothing(d: DeviceSpec, answer: int)
    ensures Take(d, Create, answer) == d
    ensures Take(d, GetVersion, answer) == d
  {}

  lemma BuiltOpening(meta: Meta, answers: nat -> int)
    ensures Built(Untold(), Opening(meta), answers, 1) == Untold().(capabilities := Requested(meta.enabled))
  {
    hide Skipping, Requested, NameField, Take, Naive;
    var ioctls := Skipping(meta.enabled, EV_MAX);
    BuiltAppend(Untold(), [GetVersion], Wrap(ioctls), answers, 1);
    BuiltOne(Untold(), GetVersion, answers, 1);
    CreateTakesNothing(Untold(), answers(1));
    BuiltEnabled(Untold(), ioctls, answers, 2);
    CapabilityRefinement(meta.enabled);
    assert {} + Enabled(ioctls).kinds == Enabled(ioctls).kinds && {} + Enabled(ioctls).codes == Enabled(ioctls).codes;
  }

  lemma BuiltSetup(meta: Meta, version: int, answers: nat -> int, d: DeviceSpec)
    requires d == Untold().(capabilities := Requested(meta.enabled))
    ensures Built(d, SetupCalls(meta, version, SetupOk(meta, version, answers)), answers, 1 + |Opening(meta)|)
         == SpecOf(meta, version, SetupOk(meta, version, answers))
  {
    hide Opening, Requested, NameField, FieldOf, AxisInUse, AxisCalls;
    var start := 1 + |Opening(meta)|;
    var absinfo := meta.absinfo;
    if version < 5 {
      BuiltOne(d, WriteSetup(FieldOf(meta.name), Ranges(absinfo)), answers, start);
      RangesAreAxes(absinfo, version);
    } else {
      var named := Setup(FieldOf(meta.name));
      BuiltOne(d, named, answers, start);
      var d1 := Take(d, named, answers(start));
      if answers(start) == 0 {
        BuiltAppend(d, [named], AxisCalls(absinfo, |absinfo|), answers, start);
        BuiltAxes(d1, absinfo, |absinfo|, answers, start + 1);
        assert map[] + InUse(absinfo, |absinfo|) == AxesOf(absinfo, version);
      }
    }
  }

  lemma RangesAreAxes(absinfo: seq<AbsInfo>, version: int)
    requires version < 5
    ensures RangeAxes(Ranges(absinfo)) == AxesOf(absinfo, version)
  {
    var zeros: Bytes := seq(16, _ => 0);
    assert Range(NoInfo()) == zeros;
    forall c | 0 <= c < |absinfo|
      ensures |Range(absinfo[c])| == 16 && Ranges(absinfo)[c] == Range(absinfo[c])
    {
    }
  }
}
