/** What the server does with the messages of one client slot, as a function of
    the slot, the message and the answers of the operating system
    (the handlers and client_data of server/input-server.c). */
module Slots {
  import opened Wrappers
  import opened Protocol
  import opened Uinput
  import opened DeviceCreation

  /** A C string: its terminating NUL is not part of it. */
  type CString = s: Bytes | 0 !in s

  /** How client_data treats a size of 0, "length byte not here yet". The code
      only tests whether the buffer holds fewer bytes than the size, so it goes on
      to call the handler; the intended rule is to wait. */
  datatype Rule = AsWritten | Intended

  /** What a server is started with: the password and the whitelist, the uinput
      version its kernel reports, and which of the two loops it is built with. */
  datatype Config = Config(password: CString, whitelist: set<EventId>, uinput: int, loop: Rule)

  /** What serving a slot does to the world outside it, in order. */
  datatype Effect =
    | Judged(payload: Bytes, verdict: Byte)   // a PASSWORD payload was compared
    | Sent(reply: Bytes, ok: bool)
    | Created(dev: int, spec: DeviceSpec)
    | Wrote(dev: int, event: InputEvent)
    | Destroyed(dev: int)
    | Closed(fd: int)

  /** A slot without its input buffer. `calls` counts the operating system calls
      whose result the slot has depended on; `os(n)` answers the n-th one, a
      negative answer being failure. `wrecked` says that the C code has undefined
      behaviour from here on. */
  datatype Slot = Slot(fd: int, evFd: int, meta: Meta, status: Byte, calls: nat, wrecked: bool)

  type Os = nat -> int

  predicate Live(s: Slot) {
    s.fd >= 0 && !s.wrecked
  }

  function FreeSlot(): Slot {
    Slot(-1, -1, EmptyMeta(), UNCONN, 0, false)
  }

  // ---------- passwords ----------

  /** strncmp(a, b, n) == 0, where n is the length of b and reading stops at the
      NUL that follows a. */
  predicate StrncmpEqual(a: CString, b: Bytes) {
    if b == [] then true
    else if a == [] then b[0] == 0
    else a[0] == b[0] && StrncmpEqual(a[1..], b[1..])
  }

  /** For every payload: it is accepted exactly when it is a prefix of the
      password, or the whole password, its NUL and anything after it. */
  lemma {:induction false} AcceptedPayloads(password: CString, payload: Bytes)
    ensures StrncmpEqual(password, payload) <==> payload <= password || password + [0] <= payload
  {
    if payload != [] && password != [] {
      AcceptedPayloads(password[1..], payload[1..]);
      assert password == [password[0]] + password[1..] && payload == [payload[0]] + payload[1..];
      if password[0] == payload[0] {
        assert payload <= password <==> payload[1..] <= password[1..];
        assert (password + [0])[1..] == password[1..] + [0];
        assert password + [0] <= payload <==> password[1..] + [0] <= payload[1..];
      }
    }
  }

  /** For payloads that carry their NUL, as both clients build them, acceptance
      is equality of the strings. */
  lemma {:induction false} AcceptanceIsEquality(password: CString, attempt: CString)
    ensures StrncmpEqual(password, attempt + [0]) <==> password == attempt
  {
    if password != [] && attempt != [] {
      assert (attempt + [0])[1..] == attempt[1..] + [0];
      AcceptanceIsEquality(password[1..], attempt[1..]);
      assert password == [password[0]] + password[1..] && attempt == [attempt[0]] + attempt[1..];
    }
  }

  // ---------- handlers ----------

  /** A handler's outcome; `ret` is the number of bytes used, or -1. */
  datatype Handled = Handled(slot: Slot, ret: int, effects: seq<Effect>)

  function HandlePassword(cfg: Config, s: Slot, msg: Bytes, os: Os): Handled
    requires |msg| >= PASSWORD_SIZE
  {
    var size := PASSWORD_SIZE + msg[1];
    if s.status != PASSWORD_REQUIRED then Handled(s, size, [])
    else
      var payload := msg[PASSWORD_SIZE..];
      var verdict := if !StrncmpEqual(cfg.password, payload) then INVALID_PASSWORD
                     else if s.evFd < 0 then SETUP_REQUIRED
                     else SUCCESS;
      var ok := os(s.calls) >= 0;
      Handled(s.(status := verdict, calls := s.calls + 1), if ok then size else -1,
              [Judged(payload, verdict), Sent([verdict], ok)])
  }

  function HandleAbsInfo(s: Slot, msg: Bytes): Handled
    requires |msg| == ABSINFO_SIZE
  {
    if s.status != SETUP_REQUIRED || msg[1] >= ABS_CNT then Handled(s, -1, [])
    else
      var meta := s.meta.(absinfo := s.meta.absinfo[msg[1] := msg[2..]]);
      Handled(s.(meta := meta), ABSINFO_SIZE, [])
  }

  function HandleDevice(s: Slot, msg: Bytes): Handled
    requires |msg| >= DEVICE_SIZE
  {
    if s.status != SETUP_REQUIRED then Handled(s, -1, [])
    else
      var meta := s.meta.(name := Some(msg[DEVICE_SIZE..]));
      Handled(s.(meta := meta), DEVICE_SIZE + msg[1], [])
  }

  function HandleSetupRequired(s: Slot, os: Os): Handled {
    if s.status != SUCCESS then Handled(s, -1, [])
    else
      var ok := os(s.calls) >= 0;
      Handled(s.(status := SETUP_REQUIRED, calls := s.calls + 1), if ok then 1 else -1,
              [Sent([SETUP_REQUIRED], ok)])
  }

  predicate Allowed(cfg: Config, id: EventId) {
    id.kind < EV_MAX && id.code < KEY_MAX && id in cfg.whitelist
  }

  function HandleRequestEvent(cfg: Config, s: Slot, msg: Bytes, os: Os): Handled
    requires |msg| == REQUEST_EVENT_SIZE
  {
    var id := DecodeRequest(msg);
    if s.status != SETUP_REQUIRED then
      Handled(s.(calls := s.calls + 1), -1, [Sent([INVALID], os(s.calls) >= 0)])
    else if id.kind >= EV_MAX || id.code >= KEY_MAX then Handled(s, -1, [])
    else if id !in cfg.whitelist then Handled(s, REQUEST_EVENT_SIZE, [])
    else if os(s.calls) < 0 then
      // realloc failed: the list is gone
      Handled(s.(meta := s.meta.(enabled := []), calls := s.calls + 1), -1, [])
    else
      Handled(s.(meta := s.meta.(enabled := s.meta.enabled + [id]), calls := s.calls + 1),
              REQUEST_EVENT_SIZE, [])
  }

  /** The results of the kernel calls of a device creation: the descriptor first,
      then 0 for every call that does not fail. */
  function Answers(os: Os, start: nat): nat -> int {
    (i: nat) => if i == 0 then os(start) else if os(start + i) < 0 then -1 else 0
  }

  /** create_device on what the slot has collected. */
  function Creation(cfg: Config, s: Slot, os: Os): Attempt {
    Attempted(s.meta, cfg.uinput, Answers(os, s.calls))
  }

  /** A device is handed out only while everything is defined. */
  lemma CreatedIsDefined(cfg: Config, s: Slot, os: Os)
    ensures Creation(cfg, s, os).fd >= 0 ==> !Creation(cfg, s, os).wrecked && NameReadable(s.meta.name)
  {
    hide Attempted, NameReadable, AllAccepted;
    HandedOut(s.meta, cfg.uinput, Answers(os, s.calls));
  }

  /** The device it creates. */
  function SpecNow(cfg: Config, s: Slot, os: Os): DeviceSpec {
    SpecOf(s.meta, cfg.uinput, SetupOk(s.meta, cfg.uinput, Answers(os, s.calls)))
  }

  /** An operating system that refuses nothing. */
  ghost predicate Willing(os: Os) {
    forall n :: os(n) >= 0
  }

  /** The kernel calls of a creation in which nothing is refused. */
  function WholePlan(cfg: Config, meta: Meta): seq<Call> {
    Plan(meta, cfg.uinput, cfg.uinput >= 5)
  }

  /** The device such a creation makes. */
  function SpecWanted(cfg: Config, meta: Meta): DeviceSpec {
    SpecOf(meta, cfg.uinput, true)
  }

  lemma WillingCreates(cfg: Config, s: Slot, os: Os)
    requires NameReadable(s.meta.name) && Willing(os)
    ensures Creation(cfg, s, os) == Attempt(os(s.calls), WholePlan(cfg, s.meta), false)
    ensures SpecNow(cfg, s, os) == SpecWanted(cfg, s.meta)
  {
    hide Attempted, Plan, NameReadable;
    AllGoesWell(s.meta, cfg.uinput, Answers(os, s.calls));
  }

  /** The device replaces the slot's descriptor, whatever it held before. */
  function HandleSetupEnd(cfg: Config, s: Slot, index: nat, os: Os): Handled
    requires index < 0xFF
  {
    if s.status != SETUP_REQUIRED then
      Handled(s.(calls := s.calls + 1), -1, [Sent([INVALID], os(s.calls) >= 0)])
    else
      var a := Creation(cfg, s, os);
      var n := s.calls + 1 + |a.calls|;
      if a.wrecked then Handled(s.(calls := n, wrecked := true), -1, [])
      else if a.fd < 0 then Handled(s.(calls := n), -1, [])
      else
        var ok := os(n) >= 0;
        Handled(s.(evFd := a.fd, status := SUCCESS, calls := n + 1), if ok then 1 else -1,
                [Created(a.fd, SpecNow(cfg, s, os)), Sent([SUCCESS, index + 1], ok)])
  }

  function HandleData(s: Slot, msg: Bytes, os: Os): Handled
    requires |msg| == DATA_SIZE
  {
    if s.status != SUCCESS then Handled(s, DATA_SIZE, [])
    else if os(s.calls) < 0 then Handled(s.(calls := s.calls + 1), -1, [])
    else Handled(s.(calls := s.calls + 1), DATA_SIZE, [Wrote(s.evFd, DecodeData(msg))])
  }

  /** The switch of client_data, QUIT aside. */
  function Handle(cfg: Config, index: nat, s: Slot, msg: Bytes, os: Os): Handled
    requires index < 0xFF && IsFrame(msg)
  {
    if msg[0] == PASSWORD then HandlePassword(cfg, s, msg, os)
    else if msg[0] == ABSINFO then HandleAbsInfo(s, msg)
    else if msg[0] == DEVICE then HandleDevice(s, msg)
    else if msg[0] == REQUEST_EVENT then HandleRequestEvent(cfg, s, msg, os)
    else if msg[0] == SETUP_REQUIRED then HandleSetupRequired(s, os)
    else if msg[0] == SETUP_END then HandleSetupEnd(cfg, s, index, os)
    else if msg[0] == DATA then HandleData(s, msg, os)
    else Handled(s, -1, [])
  }

  /** A handler that does not fail uses exactly the framed size. */
  lemma HandlerReturnsFrame(cfg: Config, index: nat, s: Slot, msg: Bytes, os: Os)
    requires index < 0xFF && IsFrame(msg)
    ensures var h := Handle(cfg, index, s, msg, os); h.ret == |msg| || h.ret == -1
  {}

  // ---------- closing ----------

  datatype Outcome = Outcome(slot: Slot, effects: seq<Effect>)

  /** cleanup_device: destroys the device and forgets the setup; does neither
      when there is no device or the kernel refuses. */
  function Cleanup(s: Slot, os: Os): Outcome {
    if s.evFd < 0 then Outcome(s, [])
    else if os(s.calls) < 0 then Outcome(s.(calls := s.calls + 1), [])
    else Outcome(s.(evFd := -1, meta := EmptyMeta(), calls := s.calls + 1), [Destroyed(s.evFd)])
  }

  /** client_close. */
  function Close(s: Slot, cleanup: bool, os: Os): Outcome {
    var c := if cleanup then Cleanup(s, os) else Outcome(s, []);
    Outcome(c.slot.(fd := -1, status := UNCONN, meta := c.slot.meta.(enabled := [])),
            c.effects + if c.slot.fd >= 0 then [Closed(c.slot.fd)] else [])
  }

  // ---------- one message, many messages ----------

  /** One iteration of client_data on a complete message. */
  function Dispatch(cfg: Config, index: nat, s: Slot, msg: Bytes, os: Os): Outcome
    requires index < 0xFF && IsFrame(msg)
  {
    if msg[0] == QUIT then Close(s, true, os)
    else
      var h := Handle(cfg, index, s, msg, os);
      if h.slot.wrecked then Outcome(h.slot, h.effects)
      else if h.ret < 0 then Outcome(h.slot.(fd := -1), h.effects + [Closed(s.fd)])
      else Outcome(h.slot, h.effects)
  }

  /** Interprets messages until they or the connection end. */
  function Interpret(cfg: Config, index: nat, s: Slot, msgs: seq<Bytes>, os: Os): Outcome
    requires index < 0xFF && AllFrames(msgs)
    decreases |msgs|
  {
    if msgs == [] || !Live(s) then Outcome(s, [])
    else
      var first := Dispatch(cfg, index, s, msgs[0], os);
      var rest := Interpret(cfg, index, first.slot, msgs[1..], os);
      Outcome(rest.slot, first.effects + rest.effects)
  }

  /** A slot and the bytes it has received but not used. */
  datatype Port = Port(slot: Slot, pending: Bytes)

  datatype Served = Served(port: Port, effects: seq<Effect>)

  /** The whole-stream reference: cut the stream into messages, interpret them.
      Nothing here knows when the bytes arrived. */
  function WholeStream(cfg: Config, index: nat, s: Slot, stream: Bytes, os: Os): Served
    requires index < 0xFF
  {
    FramesPartition(stream);
    var t := Frames(stream);
    var o := Interpret(cfg, index, s, t.frames, os);
    Served(Port(o.slot, if Live(o.slot) then t.rest else []), o.effects)
  }

  /** The handler call on a message of which only the type byte has arrived. A
      DEVICE out of turn is refused before its length is looked at; otherwise
      the handler uses bytes that were never received and the count of available
      bytes becomes negative, which makes the next memmove undefined. */
  function DispatchLoneHeader(s: Slot, t: Byte): Served {
    if t == DEVICE && s.status != SETUP_REQUIRED then
      Served(Port(s.(fd := -1), []), [Closed(s.fd)])
    else
      Served(Port(s.(wrecked := true), []), [])
  }

  /** client_data: uses up what it can of the buffer. */
  function Drain(rule: Rule, cfg: Config, index: nat, s: Slot, buf: Bytes, os: Os): Served
    requires index < 0xFF
    decreases |buf|
  {
    if !Live(s) then Served(Port(s, []), [])
    else if LoneHeader(buf) && rule == AsWritten then DispatchLoneHeader(s, buf[0])
    else if HeadFrame(buf) == 0 then Served(Port(s, buf), [])
    else
      var n := HeadFrame(buf);
      var first := Dispatch(cfg, index, s, buf[..n], os);
      var rest := Drain(rule, cfg, index, first.slot, buf[n..], os);
      Served(rest.port, first.effects + rest.effects)
  }

  /** One wake-up for a slot: recv_data got `chunk`, then client_data ran. */
  function Feed(rule: Rule, cfg: Config, index: nat, p: Port, chunk: Bytes, os: Os): Served
    requires index < 0xFF
  {
    if Live(p.slot) then Drain(rule, cfg, index, p.slot, p.pending + chunk, os) else Served(p, [])
  }

  function FeedAll(rule: Rule, cfg: Config, index: nat, p: Port, chunks: seq<Bytes>, os: Os): Served
    requires index < 0xFF
    decreases |chunks|
  {
    if chunks == [] then Served(p, [])
    else
      var k := |chunks| - 1;
      var before := FeedAll(rule, cfg, index, p, chunks[..k], os);
      var last := Feed(rule, cfg, index, before.port, chunks[k], os);
      Served(last.port, before.effects + last.effects)
  }
}
