/** How the server turns a setup into a virtual device (create_device of
    server/uinput.c): the kernel calls in their order, and the device they describe. */
module DeviceCreation {
  import opened Wrappers
  import opened Protocol
  import opened Uinput

  // ---------- names ----------

  const NAME_LIMIT := UINPUT_MAX_NAME_SIZE - 1

  /** A buffer as the C string functions see it: up to its first NUL. */
  function BeforeNul(b: Bytes): Bytes {
    if b == [] || b[0] == 0 then [] else [b[0]] + BeforeNul(b[1..])
  }

  /** What copying a string into a zeroed name field leaves there: at most 79
      characters, and zeros behind them. */
  function NameField(s: Bytes): (r: Bytes)
    ensures |r| == UINPUT_MAX_NAME_SIZE
  {
    seq(UINPUT_MAX_NAME_SIZE, i requires 0 <= i => if i < NAME_LIMIT && i < |s| then s[i] else 0)
  }

  /** strncpy stays within a stored name: it finds a NUL or has copied enough. */
  predicate NameReadable(name: Option<Bytes>) {
    name.Some? && (0 in name.value || |name.value| >= NAME_LIMIT)
  }

  function FieldOf(name: Option<Bytes>): Bytes {
    NameField(if name.Some? then BeforeNul(name.value) else [])
  }

  lemma {:induction false} BeforeNulOf(s: Bytes, tail: Bytes)
    requires 0 !in s && (tail == [] || tail[0] == 0)
    ensures BeforeNul(s + tail) == s
  {
    if s == [] {
      assert s + tail == tail;
    } else {
      assert (s + tail)[1..] == s[1..] + tail;
      BeforeNulOf(s[1..], tail);
    }
  }

  /** A name field that arrives as a name ends up as the same name field. */
  lemma FieldOfField(s: Bytes)
    requires 0 !in s
    ensures NameReadable(Some(NameField(s))) && FieldOf(Some(NameField(s))) == NameField(s)
  {
    var n := if |s| < NAME_LIMIT then |s| else NAME_LIMIT;
    var field := NameField(s);
    assert field[n] == 0;
    assert field == s[..n] + field[n..];
    BeforeNulOf(s[..n], field[n..]);
    assert NameField(s[..n]) == field;
  }

  /** strncpy itself, reading byte by byte; None when it runs off the stored bytes. */
  function Strncpy(mem: Bytes, n: nat): (r: Option<Bytes>)
    ensures r.Some? ==> |r.value| == n
  {
    if n == 0 then Some([])
    else if mem == [] then None
    else if mem[0] == 0 then Some(seq(n, _ => 0))
    else
      match Strncpy(mem[1..], n - 1)
      case None => None
      case Some(more) => Some([mem[0]] + more)
  }

  /** The name a device gets is what strncpy leaves in the zeroed field, and it can be
      read if and only if strncpy stays within the stored bytes. */
  lemma StrncpyIs(name: Bytes)
    ensures NameReadable(Some(name)) <==> Strncpy(name, NAME_LIMIT).Some?
    ensures NameReadable(Some(name)) ==> FieldOf(Some(name)) == Strncpy(name, NAME_LIMIT).value + [0]
  {
    StrncpyCopies(name, NAME_LIMIT);
    if NameReadable(Some(name)) {
      var copied := Strncpy(name, NAME_LIMIT).value;
      assert forall i | 0 <= i < NAME_LIMIT :: FieldOf(Some(name))[i] == copied[i];
    }
  }

  lemma {:induction false} StrncpyCopies(mem: Bytes, n: nat)
    ensures Strncpy(mem, n).Some? <==> 0 in mem || |mem| >= n
    ensures var r, b := Strncpy(mem, n), BeforeNul(mem);
            r.Some? ==> forall i | 0 <= i < n :: r.value[i] == if i < |b| then b[i] else 0
    decreases n
  {
    if n > 0 && mem != [] && mem[0] != 0 {
      StrncpyCopies(mem[1..], n - 1);
      assert mem == [mem[0]] + mem[1..];
    }
  }

  // ---------- the calls made to the kernel ----------

  datatype Call =
    | GetVersion
    | Enable(ioctl: Ioctl)
    | Setup(name: Bytes)
    | AbsSetup(axis: nat, info: AbsInfo)
    | WriteSetup(name: Bytes, ranges: seq<Bytes>)
    | Create

  /** The ioctls of a call sequence that enable types and codes, in order. */
  function Ioctls(calls: seq<Call>): seq<Ioctl> {
    if calls == [] then []
    else
      var last := calls[|calls| - 1];
      var before := Ioctls(calls[..|calls| - 1]);
      if last.Enable? then before + [last.ioctl] else before
  }

  function Wrap(ioctls: seq<Ioctl>): seq<Call> {
    seq(|ioctls|, i requires 0 <= i < |ioctls| => Enable(ioctls[i]))
  }

  /** One call for every axis in use below `n`, in increasing order. */
  function AxisCalls(absinfo: seq<AbsInfo>, n: nat): seq<Call>
    requires n <= |absinfo|
  {
    if n == 0 then []
    else if AxisInUse(absinfo[n - 1]) then
      AxisCalls(absinfo, n - 1) + [AbsSetup(n - 1, absinfo[n - 1])]
    else
      AxisCalls(absinfo, n - 1)
  }

  /** Minimum, maximum, fuzz and flat of an axis, as the deprecated setup passes them. */
  function Range(info: AbsInfo): Bytes {
    info[4..20]
  }

  function Ranges(absinfo: seq<AbsInfo>): seq<Bytes> {
    seq(|absinfo|, c requires 0 <= c < |absinfo| => Range(absinfo[c]))
  }

  /** The calls that name the device and describe its axes. */
  function SetupCalls(meta: Meta, version: int, setupOk: bool): seq<Call> {
    if version < 5 then [WriteSetup(FieldOf(meta.name), Ranges(meta.absinfo))]
    else if setupOk then [Setup(FieldOf(meta.name))] + AxisCalls(meta.absinfo, |meta.absinfo|)
    else [Setup(FieldOf(meta.name))]
  }

  /** The calls before the name of the device is looked at. */
  function Opening(meta: Meta): seq<Call> {
    [GetVersion] + Wrap(Skipping(meta.enabled, EV_MAX))
  }

  /** The calls made on the descriptor during a successful device creation. */
  function Plan(meta: Meta, version: int, setupOk: bool): seq<Call> {
    Opening(meta) + SetupCalls(meta, version, setupOk) + [Create]
  }

  // ---------- the device they describe ----------

  /** A virtual device as it was described to the kernel. */
  datatype DeviceSpec = DeviceSpec(name: Bytes, capabilities: Capabilities, axes: map<int, AbsInfo>)

  /** What is passed on about an axis: the deprecated setup has no place for its
      value and its resolution. */
  function PassedOn(info: AbsInfo, version: int): AbsInfo {
    if version >= 5 then info else [0, 0, 0, 0] + Range(info) + [0, 0, 0, 0]
  }

  /** Whether the kernel is told about an axis. The new setup call is made for the
      axes with a minimum or a maximum; the deprecated one passes all ranges on, so
      that fuzz and flat alone arrive as well. */
  predicate Told(info: AbsInfo, version: int) {
    if version >= 5 then AxisInUse(info) else Range(info) != Range(NoInfo())
  }

  /** What that means for the fields of an axis. */
  lemma ToldMeaning(info: AbsInfo, version: int)
    ensures var f := Fields(info);
            Told(info, version) <==> f.minimum != 0 || f.maximum != 0 || (version < 5 && (f.fuzz != 0 || f.flat != 0))
  {
    hide FromLe32;
    InUseMeaning(info);
    RangeParts(info);
    ZeroBytes(info[4..8]);
    ZeroBytes(info[8..12]);
    ZeroBytes(info[12..16]);
    ZeroBytes(info[16..20]);
  }

  lemma RangeParts(info: AbsInfo)
    ensures Range(info) == Range(NoInfo()) <==>
              && info[4..8] == [0, 0, 0, 0] && info[8..12] == [0, 0, 0, 0]
              && info[12..16] == [0, 0, 0, 0] && info[16..20] == [0, 0, 0, 0]
  {
    var z: Bytes := [0, 0, 0, 0];
    assert Range(NoInfo()) == z + z + z + z;
    assert Range(info) == info[4..8] + info[8..12] + info[12..16] + info[16..20];
    FourParts(info[4..8], info[8..12], info[12..16], info[16..20], z);
  }

  lemma FourParts(a: Bytes, b: Bytes, c: Bytes, d: Bytes, z: Bytes)
    requires |a| == |b| == |c| == |d| == |z| == 4
    ensures a + b + c + d == z + z + z + z <==> a == z && b == z && c == z && d == z
  {
    var l, r := a + b + c + d, z + z + z + z;
    assert l[0..4] == a && l[4..8] == b && l[8..12] == c && l[12..16] == d;
    assert r[0..4] == z && r[4..8] == z && r[8..12] == z && r[12..16] == z;
  }

  /** The axes the kernel is told about, whoever sent them. */
  function AxesOf(absinfo: seq<AbsInfo>, version: int): map<int, AbsInfo> {
    map c | 0 <= c < |absinfo| && Told(absinfo[c], version) :: PassedOn(absinfo[c], version)
  }

  /** Whether name and axes were described: a failed setup call is only logged. */
  predicate Described(version: int, setupOk: bool) {
    version < 5 || setupOk
  }

  function SpecOf(meta: Meta, version: int, setupOk: bool): DeviceSpec {
    if Described(version, setupOk) then
      DeviceSpec(FieldOf(meta.name), Requested(meta.enabled), AxesOf(meta.absinfo, version))
    else
      DeviceSpec(NameField([]), Requested(meta.enabled), map[])
  }

  // ---------- accepted calls ----------

  /** Whether the creation of a device goes on after a call with this result. */
  predicate Accepted(call: Call, answer: int) {
    match call
    case Setup(_) => true
    case WriteSetup(_, _) => answer >= 0
    case _ => answer == 0
  }

  /** All calls of a sequence were accepted, the first one being call `start`. */
  predicate AllAccepted(calls: seq<Call>, answers: nat -> int, start: nat) {
    forall i | 0 <= i < |calls| :: Accepted(calls[i], answers(start + i))
  }

  /** The number of calls before the first one that is not accepted. */
  function FirstRejected(calls: seq<Call>, answers: nat -> int, start: nat): (r: nat)
    ensures r <= |calls| && AllAccepted(calls[..r], answers, start)
    ensures r < |calls| ==> !Accepted(calls[r], answers(start + r))
  {
    if calls == [] || !Accepted(calls[0], answers(start)) then 0
    else
      var r := 1 + FirstRejected(calls[1..], answers, start + 1);
      assert forall i | 1 <= i < r :: calls[i] == calls[1..][i - 1];
      r
  }

  /** Whether the new setup call, which follows the version query and the ioctls,
      is there and succeeds. */
  predicate SetupOk(meta: Meta, version: int, answers: nat -> int) {
    version >= 5 && answers(1 + |Opening(meta)|) == 0
  }

  /** The calls that create a device, given how the setup call goes. */
  function FullPlan(meta: Meta, version: int, answers: nat -> int): seq<Call> {
    Plan(meta, version, SetupOk(meta, version, answers))
  }

  /** What an attempt to create a device comes to: its descriptor or -1, and the
      calls made on it. `wrecked` says that a name was read that is not there. */
  datatype Attempt = Attempt(fd: int, calls: seq<Call>, wrecked: bool)

  function Attempted(meta: Meta, version: int, answers: nat -> int): Attempt {
    if answers(0) < 0 then Attempt(-1, [], false)
    else
      var plan := FullPlan(meta, version, answers);
      var n := FirstRejected(plan, answers, 1);
      if !NameReadable(meta.name) && n >= |Opening(meta)| then Attempt(-1, Opening(meta), true)
      else if n < |plan| then Attempt(-1, plan[..n + 1], false)
      else Attempt(answers(0), plan, false)
  }

  /** The descriptor is handed out if and only if the name can be read and every
      call of the plan is accepted. Behaviour is undefined from there on if and only
      if the name cannot be read when everything before it has been accepted. */
  lemma HandedOut(meta: Meta, version: int, answers: nat -> int)
    ensures var a := Attempted(meta, version, answers);
            && (a.fd >= 0 <==> answers(0) >= 0 && NameReadable(meta.name)
                               && AllAccepted(FullPlan(meta, version, answers), answers, 1))
            && (a.fd >= 0 ==> a.fd == answers(0) && a.calls == FullPlan(meta, version, answers) && !a.wrecked)
            && (a.wrecked <==> answers(0) >= 0 && !NameReadable(meta.name)
                               && AllAccepted(Opening(meta), answers, 1))
            && a.fd >= -1
  {
    hide FullPlan, NameReadable, Accepted, Opening;
    var plan, opening := FullPlan(meta, version, answers), Opening(meta);
    OpeningFirst(meta, version, answers);
    assert plan[..|plan|] == plan;
    var n := FirstRejected(plan, answers, 1);
    assert n < |plan| ==> !Accepted(plan[n], answers(1 + n));
    RejectedAt(opening, plan, answers, 1);
    if n >= |opening| {
      assert forall i | 0 <= i < |opening| :: opening[i] == plan[..n][i];
    }
  }

  // ---------- the code ----------

  /** The last call of a sequence was the first one that was not accepted. */
  predicate Stopped(calls: seq<Call>, answers: nat -> int, start: nat) {
    && |calls| > 0
    && AllAccepted(calls[..|calls| - 1], answers, start)
    && !Accepted(calls[|calls| - 1], answers(start + |calls| - 1))
  }

  lemma AcceptedAppend(a: seq<Call>, b: seq<Call>, answers: nat -> int, start: nat)
    ensures AllAccepted(a + b, answers, start)
       <==> AllAccepted(a, answers, start) && AllAccepted(b, answers, start + |a|)
    ensures AllAccepted(a, answers, start) && Stopped(b, answers, start + |a|) ==> Stopped(a + b, answers, start)
  {
    hide Accepted;
    forall c: seq<Call>
      ensures AllAccepted(a + c, answers, start)
         <==> AllAccepted(a, answers, start) && AllAccepted(c, answers, start + |a|)
    {
      if AllAccepted(a + c, answers, start) {
        forall i | 0 <= i < |a|
          ensures Accepted(a[i], answers(start + i))
        {
          assert (a + c)[i] == a[i];
        }
        forall i | 0 <= i < |c|
          ensures Accepted(c[i], answers(start + |a| + i))
        {
          assert (a + c)[|a| + i] == c[i];
        }
      }
    }
    if b != [] {
      assert (a + b)[..|a + b| - 1] == a + b[..|b| - 1];
    }
  }

  /** One more call, of which the answer is known. */
  lemma AcceptedOneMore(calls: seq<Call>, call: Call, answers: nat -> int, start: nat)
    requires AllAccepted(calls, answers, start)
    ensures if Accepted(call, answers(start + |calls|)) then AllAccepted(calls + [call], answers, start)
            else Stopped(calls + [call], answers, start)
  {
    hide Accepted;
    assert (calls + [call])[..|calls|] == calls;
  }

  /** Where a call sequence went on or stopped is where its plan is first rejected. */
  lemma RejectedAt(calls: seq<Call>, plan: seq<Call>, answers: nat -> int, start: nat)
    requires calls <= plan
    ensures AllAccepted(calls, answers, start) ==> FirstRejected(plan, answers, start) >= |calls|
    ensures Stopped(calls, answers, start) ==> FirstRejected(plan, answers, start) == |calls| - 1
  {
    hide Accepted;
    var n := FirstRejected(plan, answers, start);
    assert forall i | 0 <= i < |calls| :: plan[i] == calls[i];
    assert forall i | 0 <= i < n :: plan[..n][i] == plan[i];
    assert forall i | 0 <= i < |calls| - 1 :: calls[..|calls| - 1][i] == calls[i];
  }

  lemma IoctlsAccepted(ioctls: seq<Ioctl>, answers: nat -> int, start: nat)
    ensures AllAccepted(Wrap(ioctls), answers, start) <==> forall i | start <= i < start + |ioctls| :: answers(i) == 0
    ensures (ioctls != [] && answers(start + |ioctls| - 1) != 0
             && forall i | start <= i < start + |ioctls| - 1 :: answers(i) == 0)
            ==> Stopped(Wrap(ioctls), answers, start)
  {
    var calls := Wrap(ioctls);
    if AllAccepted(calls, answers, start) {
      forall i | start <= i < start + |ioctls|
        ensures answers(i) == 0
      {
        assert Accepted(calls[i - start], answers(start + (i - start)));
      }
    }
  }

  lemma AxisNext(absinfo: seq<AbsInfo>, u: nat)
    requires u < |absinfo|
    ensures AxisCalls(absinfo, 0) == []
    ensures AxisCalls(absinfo, u + 1)
         == if AxisInUse(absinfo[u]) then AxisCalls(absinfo, u) + [AbsSetup(u, absinfo[u])] else AxisCalls(absinfo, u)
  {}

  /** Names the device and sets up its axes; a failed setup call is only logged. */
  method Configure(meta: Meta, version: int, answers: nat -> int, start: nat) returns (ok: bool, calls: seq<Call>)
    ensures var all := SetupCalls(meta, version, version >= 5 && answers(start) == 0);
            if ok then calls == all && AllAccepted(calls, answers, start)
            else calls <= all && Stopped(calls, answers, start)
  {
    hide FieldOf, Range, AxisCalls, AllAccepted, Stopped;
    AcceptedOneMoreFirst(answers, start);
    if version < 5 {
      var ranges := [];
      for u := 0 to ABS_CNT
        invariant |ranges| == u && forall c | 0 <= c < u :: ranges[c] == Range(meta.absinfo[c])
      {
        ranges := ranges + [Range(meta.absinfo[u])];
      }
      assert ranges == Ranges(meta.absinfo);
      calls := [WriteSetup(FieldOf(meta.name), ranges)];
      AcceptedOneMore([], calls[0], answers, start);
      ok := answers(start) >= 0;
      return;
    }
    calls := [Setup(FieldOf(meta.name))];
    AcceptedOneMore([], calls[0], answers, start);
    ok := true;
    if answers(start) == 0 {
      ok, calls := SetUpAxes(meta.absinfo, calls, answers, start);
    }
  }

  lemma AcceptedOneMoreFirst(answers: nat -> int, start: nat)
    ensures AllAccepted([], answers, start)
    ensures forall call: Call :: [] + [call] == [call]
  {}

  /** Sets up every axis in use, after the calls made before. */
  method SetUpAxes(absinfo: seq<AbsInfo>, before: seq<Call>, answers: nat -> int, start: nat)
    returns (ok: bool, calls: seq<Call>)
    requires |absinfo| == ABS_CNT && AllAccepted(before, answers, start)
    ensures var all := before + AxisCalls(absinfo, |absinfo|);
            if ok then calls == all && AllAccepted(calls, answers, start)
            else calls <= all && Stopped(calls, answers, start)
  {
    hide AxisInUse, AxisCalls, AllAccepted, Stopped;
    AxisNext(absinfo, 0);
    calls := before;
    for u := 0 to ABS_CNT
      invariant calls == before + AxisCalls(absinfo, u) && AllAccepted(calls, answers, start)
    {
      AxisNext(absinfo, u);
      if AxisInUse(absinfo[u]) {
        var call := AbsSetup(u, absinfo[u]);
        AcceptedOneMore(calls, call, answers, start);
        calls := calls + [call];
        if answers(start + |calls| - 1) != 0 {
          AxisCallsPrefix(absinfo, u + 1, |absinfo|);
          return false, calls;
        }
      }
    }
    ok := true;
  }

  /** All calls between opening the descriptor and handing it out. */
  method Prepare(meta: Meta, version: int, answers: nat -> int) returns (ok: bool, wrecked: bool, calls: seq<Call>)
    ensures var all := FullPlan(meta, version, answers);
            if ok then calls == all && AllAccepted(calls, answers, 1) && !wrecked && NameReadable(meta.name)
            else if wrecked then calls == Opening(meta) && AllAccepted(calls, answers, 1) && !NameReadable(meta.name)
            else
              && calls <= all
              && Stopped(calls, answers, 1)
              && (NameReadable(meta.name) || |calls| <= |Opening(meta)|)
  {
    hide AllAccepted, Stopped, Skipping, SetupCalls, NameReadable;
    ghost var setupOk := SetupOk(meta, version, answers);
    wrecked := false;
    AcceptedOneMoreFirst(answers, 1);
    AcceptedOneMore([], GetVersion, answers, 1);
    calls := [GetVersion];
    if answers(1) != 0 {
      PlanPrefixes(meta, version, setupOk, [], []);
      return false, wrecked, calls;
    }

    var ioctls;
    ok, ioctls := EnableEvents(meta.enabled, answers, 2);
    IoctlsAccepted(ioctls, answers, 2);
    AcceptedAppend(calls, Wrap(ioctls), answers, 1);
    calls := calls + Wrap(ioctls);
    if !ok {
      PlanPrefixes(meta, version, setupOk, ioctls, []);
      return;
    }

    if !NameReadable(meta.name) {
      return false, true, calls;
    }
    var setup;
    ok, setup := Configure(meta, version, answers, |calls| + 1);
    PlanPrefixes(meta, version, setupOk, ioctls, setup);
    AcceptedAppend(calls, setup, answers, 1);
    calls := calls + setup;
    if !ok {
      return;
    }

    AcceptedOneMore(calls, Create, answers, 1);
    calls := calls + [Create];
    ok := answers(|calls|) == 0;
  }

  /** create_device. `answers(i)` is the result of the i-th kernel call, the first
      being the open. The calls stop at the first one that is not accepted, and then
      the descriptor is closed. */
  method CreateDevice(meta: Meta, version: int, answers: nat -> int)
    returns (fd: int, calls: seq<Call>, closed: bool, wrecked: bool)
    ensures Attempt(fd, calls, wrecked) == Attempted(meta, version, answers)
    ensures closed <==> answers(0) >= 0 && fd < 0 && !wrecked
  {
    hide AllAccepted, Stopped, FullPlan, FirstRejected, NameReadable, Opening;
    fd := answers(0);
    if fd < 0 {
      return -1, [], false, false;
    }
    var ok;
    ok, wrecked, calls := Prepare(meta, version, answers);
    ghost var plan := FullPlan(meta, version, answers);
    OpeningFirst(meta, version, answers);
    RejectedAt(calls, plan, answers, 1);
    closed := !ok && !wrecked;
    if !ok {
      fd := -1;
    }
  }

  lemma OpeningFirst(meta: Meta, version: int, answers: nat -> int)
    ensures Opening(meta) <= FullPlan(meta, version, answers)
    ensures |Opening(meta)| < |FullPlan(meta, version, answers)|
  {}

  /** The call sequences after which a creation may give up. */
  lemma PlanPrefixes(meta: Meta, version: int, setupOk: bool, ioctls: seq<Ioctl>, setup: seq<Call>)
    requires ioctls <= Skipping(meta.enabled, EV_MAX)
    requires setup <= SetupCalls(meta, version, setupOk)
    ensures [GetVersion] <= [GetVersion] + Wrap(ioctls) <= Plan(meta, version, setupOk)
    ensures |[GetVersion] + Wrap(ioctls)| <= |Opening(meta)|
    ensures [GetVersion] + Wrap(Skipping(meta.enabled, EV_MAX)) + setup <= Plan(meta, version, setupOk)
  {}

  lemma {:induction false} AxisCallsPrefix(absinfo: seq<AbsInfo>, m: nat, n: nat)
    requires m <= n <= |absinfo|
    ensures AxisCalls(absinfo, m) <= AxisCalls(absinfo, n)
  {
    if m < n {
      AxisCallsPrefix(absinfo, m, n - 1);
    }
  }

  // ---------- what the plan means ----------

  lemma {:induction false} IoctlsAppend(a: seq<Call>, b: seq<Call>)
    ensures Ioctls(a + b) == Ioctls(a) + Ioctls(b)
  {
    if b == [] {
      assert a + b == a;
    } else {
      assert (a + b)[..|a + b| - 1] == a + b[..|b| - 1];
      IoctlsAppend(a, b[..|b| - 1]);
    }
  }

  lemma {:induction false} IoctlsOfWrap(ioctls: seq<Ioctl>)
    ensures Ioctls(Wrap(ioctls)) == ioctls
  {
    if ioctls != [] {
      var k := |ioctls| - 1;
      IoctlsOfWrap(ioctls[..k]);
      assert Wrap(ioctls)[..k] == Wrap(ioctls[..k]);
      assert ioctls == ioctls[..k] + [ioctls[k]];
    }
  }

  lemma {:induction false} NoIoctls(calls: seq<Call>)
    requires forall c | c in calls :: !c.Enable?
    ensures Ioctls(calls) == []
  {
    if calls != [] {
      NoIoctls(calls[..|calls| - 1]);
    }
  }

  lemma {:induction false} AxisCallsMeaning(absinfo: seq<AbsInfo>, n: nat)
    requires n <= |absinfo|
    ensures forall c :: c in AxisCalls(absinfo, n) <==>
              c.AbsSetup? && c.axis < n && c.info == absinfo[c.axis] && AxisInUse(c.info)
  {
    if n > 0 {
      AxisCallsMeaning(absinfo, n - 1);
    }
  }

  /** The calls of a plan describe exactly its device: the requested capabilities;
      with the new setup call the name and every axis in use with the info received;
      with the deprecated one the name and the ranges of all axes, which are zero for
      exactly those that are not the device's. */
  lemma PlanMeaning(meta: Meta, version: int, setupOk: bool)
    ensures var plan := Plan(meta, version, setupOk); var spec := SpecOf(meta, version, setupOk);
            && Enabled(Ioctls(plan)) == spec.capabilities == Requested(meta.enabled)
            && (forall name: Bytes :: Setup(name) in plan <==> version >= 5 && name == FieldOf(meta.name))
            && (forall axis: nat, info: AbsInfo :: AbsSetup(axis, info) in plan <==>
                  version >= 5 && axis in spec.axes && spec.axes[axis] == info)
            && (forall name: Bytes, ranges: seq<Bytes> :: WriteSetup(name, ranges) in plan <==>
                  version < 5 && name == FieldOf(meta.name) && ranges == Ranges(meta.absinfo))
            && (forall name: Bytes, ranges: seq<Bytes> | WriteSetup(name, ranges) in plan ::
                  |ranges| == ABS_CNT
                  && forall c | 0 <= c < ABS_CNT :: RangeFits(spec, c, ranges[c]))
  {
    hide Plan, FieldOf, Ranges, Requested, Enabled, AxesOf, Opening, Skipping, RangeFits;
    RangesFit(meta, version, setupOk);
    PlanIoctls(meta, version, setupOk);
    CapabilityRefinement(meta.enabled);
    var spec := SpecOf(meta, version, setupOk);
    forall axis: nat, info: AbsInfo
      ensures AbsSetup(axis, info) in Plan(meta, version, setupOk) <==>
                version >= 5 && axis in spec.axes && spec.axes[axis] == info
    {
      AxisMember(meta, version, setupOk, axis, info);
    }
    forall c: Call | c.Setup? || c.WriteSetup?
      ensures c in Plan(meta, version, setupOk) <==>
                c == if version >= 5 then Setup(FieldOf(meta.name))
                     else WriteSetup(FieldOf(meta.name), Ranges(meta.absinfo))
    {
      PlanMember(meta, version, setupOk, c);
      AxisCallsMeaning(meta.absinfo, |meta.absinfo|);
    }
  }

  /** The range written for an axis is the one of the device, zero without one. */
  predicate RangeFits(spec: DeviceSpec, c: int, range: Bytes) {
    if c in spec.axes then range == Range(spec.axes[c]) != Range(NoInfo()) else range == Range(NoInfo())
  }

  lemma RangesFit(meta: Meta, version: int, setupOk: bool)
    ensures |Ranges(meta.absinfo)| == ABS_CNT
    ensures version < 5 ==>
              forall c | 0 <= c < ABS_CNT :: RangeFits(SpecOf(meta, version, setupOk), c, Ranges(meta.absinfo)[c])
  {
    forall c: nat | c < ABS_CNT && version < 5
      ensures RangeFits(SpecOf(meta, version, setupOk), c, Ranges(meta.absinfo)[c])
    {
      RangePassedOn(meta.absinfo[c], version);
      RangeOfAxis(meta, version, setupOk, c);
    }
  }

  lemma RangeOfAxis(meta: Meta, version: int, setupOk: bool, c: nat)
    requires version < 5 && c < ABS_CNT && Range(PassedOn(meta.absinfo[c], version)) == Range(meta.absinfo[c])
    ensures RangeFits(SpecOf(meta, version, setupOk), c, Ranges(meta.absinfo)[c])
  {
    hide Range, PassedOn, FieldOf, Requested, NameField;
  }

  lemma RangePassedOn(info: AbsInfo, version: int)
    ensures Range(PassedOn(info, version)) == Range(info)
  {}

  lemma PlanMember(meta: Meta, version: int, setupOk: bool, c: Call)
    requires c.Setup? || c.WriteSetup? || c.AbsSetup?
    ensures c in Plan(meta, version, setupOk) <==> c in SetupCalls(meta, version, setupOk)
  {
    hide SetupCalls, Skipping;
  }

  lemma AxisMember(meta: Meta, version: int, setupOk: bool, axis: nat, info: AbsInfo)
    ensures AbsSetup(axis, info) in Plan(meta, version, setupOk) <==>
              var axes := SpecOf(meta, version, setupOk).axes;
              version >= 5 && axis in axes && axes[axis] == info
  {
    hide Plan, FieldOf, Ranges, Requested, AxisInUse;
    PlanMember(meta, version, setupOk, AbsSetup(axis, info));
    AxisCallsMeaning(meta.absinfo, |meta.absinfo|);
  }

  lemma PlanIoctls(meta: Meta, version: int, setupOk: bool)
    ensures Ioctls(Plan(meta, version, setupOk)) == Skipping(meta.enabled, EV_MAX)
  {
    hide Skipping;
    var calls := Wrap(Skipping(meta.enabled, EV_MAX));
    var setup := SetupCalls(meta, version, setupOk);
    AxisCallsMeaning(meta.absinfo, |meta.absinfo|);
    NoIoctls([GetVersion]);
    NoIoctls(setup);
    NoIoctls([Create]);
    IoctlsOfWrap(Skipping(meta.enabled, EV_MAX));
    IoctlsAppend([GetVersion], calls);
    IoctlsAppend(Opening(meta), setup);
    IoctlsAppend(Opening(meta) + setup, [Create]);
  }

  /** A kernel that accepts everything gets the whole plan. */
  lemma AllGoesWell(meta: Meta, version: int, answers: nat -> int)
    requires NameReadable(meta.name) && answers(0) >= 0 && forall i | i > 0 :: answers(i) == 0
    ensures Attempted(meta, version, answers) == Attempt(answers(0), FullPlan(meta, version, answers), false)
    ensures SetupOk(meta, version, answers) <==> version >= 5
  {
    hide Plan, NameReadable;
    var plan := FullPlan(meta, version, answers);
    var n := FirstRejected(plan, answers, 1);
    assert n == |plan|;
  }
}
