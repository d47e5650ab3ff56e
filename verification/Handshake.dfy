/** The handshake from both sides: the client of client/input-client.c against the
    server's slot, over a connection that may cut the bytes anywhere. */
module Handshake {
  import opened Wrappers
  import opened Protocol
  import opened Uinput
  import opened DeviceCreation
  import opened Slots
  import opened Fragmentation
  import opened InputClient

  // ---------- what the client sends ----------

  function HelloMessage(slot: Byte): Bytes {
    [HELLO, PROTOCOL_VERSION, slot]
  }

  /** The password with its NUL. */
  function PasswordMessage(password: CString): Bytes
    requires |password| < 0xFF
  {
    [PASSWORD, |password| + 1] + password + [0]
  }

  /** The client could read its device's id and name. */
  predicate Named(src: Source) {
    src.id.Some? && src.name.Some?
  }

  function DeviceMessage(src: Source): Bytes
    requires Named(src)
  {
    [DEVICE, UINPUT_MAX_NAME_SIZE] + src.id.value + NameField(src.name.value)
  }

  /** The DEVICE message is one frame that carries the id and the name, as a C string
      of at most 79 characters. */
  lemma DeviceMessageCarries(src: Source)
    requires WellFormed(src) && Named(src)
    ensures var msg := DeviceMessage(src); var name := src.name.value;
            && IsFrame(msg)
            && msg[2..DEVICE_SIZE] == src.id.value
            && BeforeNul(msg[DEVICE_SIZE..]) == if |name| < NAME_LIMIT then name else name[..NAME_LIMIT]
  {
    var msg, name := DeviceMessage(src), src.name.value;
    var field := NameField(name);
    var n := if |name| < NAME_LIMIT then |name| else NAME_LIMIT;
    assert msg[DEVICE_SIZE..] == field == name[..n] + field[n..];
    BeforeNulOf(name[..n], field[n..]);
    assert name[..|name|] == name;
  }

  function SetupMessages(src: Source): seq<Bytes>
    requires WellFormed(src) && Named(src)
  {
    [DeviceMessage(src)] + Messages(src, AllRequests(src)) + [[SETUP_END]]
  }

  /** The client can read all it has to tell about its device. */
  predicate Describable(src: Source)
    requires WellFormed(src)
  {
    Named(src) && Readable(src)
  }

  // ---------- the client's side of the conversation ----------

  datatype Client = Greeted | Authenticating | SettingUp | Connected(slot: Byte) | Failed

  /** The client's next state and the messages it sends on. */
  datatype Reaction = Reaction(client: Client, sends: seq<Bytes>)

  /** A buffer recv_message returned: it holds the whole framed reply. */
  predicate Received(buf: Bytes) {
    |buf| > 0 && 0 < MessageLength(buf[0]) <= |buf|
  }

  function Finish(buf: Bytes): Client
    requires Received(buf)
  {
    if buf[0] == SUCCESS then Connected(buf[1]) else Failed
  }

  function Proceed(src: Source, buf: Bytes): Reaction
    requires WellFormed(src) && Received(buf)
  {
    if buf[0] != SETUP_REQUIRED then Reaction(Finish(buf), [])
    else if Describable(src) then Reaction(SettingUp, SetupMessages(src))
    else Reaction(Failed, [])
  }

  /** What the client makes of a reply. */
  function React(password: CString, src: Source, c: Client, buf: Bytes): Reaction
    requires WellFormed(src) && Received(buf)
  {
    match c
    case Greeted =>
      if buf[0] == VERSION_MISMATCH then Reaction(Failed, [])
      else if buf[0] == PASSWORD_REQUIRED then
        if |password| + 1 > 254 then Reaction(Failed, []) else Reaction(Authenticating, [PasswordMessage(password)])
      else Proceed(src, buf)
    case Authenticating => Proceed(src, buf)
    case SettingUp => Reaction(Finish(buf), [])
    case _ => Reaction(c, [])
  }

  /** The whole conversation: the client's last state and all it sent after HELLO. */
  function Play(password: CString, src: Source, c: Client, replies: seq<Bytes>): Reaction
    requires WellFormed(src) && forall i | 0 <= i < |replies| :: Received(replies[i])
    decreases |replies|
  {
    if replies == [] || c.Connected? || c.Failed? then Reaction(c, [])
    else
      var now := React(password, src, c, replies[0]);
      var later := Play(password, src, now.client, replies[1..]);
      Reaction(later.client, now.sends + later.sends)
  }

  /** The n-th reply of a conversation whose later part is `later`. */
  lemma PlayStep(password: CString, src: Source, c: Client, replies: seq<Bytes>, n: nat)
    requires WellFormed(src) && forall i | 0 <= i < |replies| :: Received(replies[i])
    requires n <= |replies|
    ensures n == |replies| || c.Connected? || c.Failed? ==> Play(password, src, c, replies[n..]) == Reaction(c, [])
    ensures n < |replies| && !c.Connected? && !c.Failed? ==>
              var now := React(password, src, c, replies[n]);
              var later := Play(password, src, now.client, replies[n + 1..]);
              Play(password, src, c, replies[n..]) == Reaction(later.client, now.sends + later.sends)
  {}

  /** setup_device; `start` messages were sent before. */
  method SetupDevice(src: Source, start: nat, sendable: nat -> bool) returns (ok: bool, sent: seq<Bytes>)
    requires WellFormed(src)
    ensures !Named(src) ==> !ok && sent == []
    ensures Named(src) ==> sent <= SetupMessages(src) && (ok ==> sent == SetupMessages(src))
    ensures ok <==> Describable(src) && AllSendable(sendable, start, SetupMessages(src))
    ensures Named(src) && !ok ==> |sent| < |SetupMessages(src)|
    ensures AllSendable(sendable, start, sent) && (Describable(src) && !ok ==> !sendable(start + |sent|))
  {
    hide Readable, Messages, AllRequests, DeviceMessage;
    sent := [];
    if src.id.None? || src.name.None? {
      return false, sent;
    }
    ok := sendable(start);
    if !ok {
      return;
    }
    sent := [DeviceMessage(src)];
    var more;
    ok, more := SendKeyInfo(src, start + 1, sendable);
    sent := sent + more;
    if !ok {
      return;
    }
    ok := sendable(start + |sent|);
    if ok {
      sent := sent + [[SETUP_END]];
    }
  }

  /** The n-th reply is of type t. */
  predicate Says(replies: seq<Bytes>, n: nat, t: Byte) {
    n < |replies| && |replies[n]| > 0 && replies[n][0] == t
  }

  /** A password is asked for, short enough and can be sent. */
  predicate Authenticates(password: CString, replies: seq<Bytes>, sendable: nat -> bool) {
    Says(replies, 0, PASSWORD_REQUIRED) && |password| + 1 <= 254 && sendable(1)
  }

  /** What goes out before a setup. */
  function Prelude(password: CString, slot: Byte, replies: seq<Bytes>, sendable: nat -> bool): seq<Bytes> {
    [HelloMessage(slot)] + if Authenticates(password, replies, sendable) then [PasswordMessage(password)] else []
  }

  /** What a handshake comes to, by its deciding reply: the first one, or the one to the
      password. Only SETUP_REQUIRED starts a setup, which goes out up to the end or to
      what cannot be read or sent; only SUCCESS ends in a connection. */
  predicate Conversed(password: CString, src: Source, slot: Byte, replies: seq<Bytes>, sendable: nat -> bool, ok: bool,
                      newSlot: Byte, sent: seq<Bytes>)
    requires WellFormed(src) && forall i | 0 <= i < |replies| :: Received(replies[i])
  {
    var prelude := Prelude(password, slot, replies, sendable);
    var n := |prelude| - 1;
    && (!ok ==> newSlot == slot)
    && AllSendable(sendable, 0, sent)
    && if !sendable(0) then !ok && sent == []
       else if Says(replies, n, SETUP_REQUIRED) then
         && prelude <= sent
         && (!Named(src) ==> !ok && sent == prelude)
         && (Named(src) ==>
               var all := prelude + SetupMessages(src);
               && sent <= all
               && (sent == all ==> Describable(src))
               && (Describable(src) && sent != all ==> !sendable(|sent|))
               && (ok <==> sent == all && Says(replies, n + 1, SUCCESS))
               && (ok ==> Received(replies[n + 1]) && newSlot == replies[n + 1][1]))
       else
         && sent == prelude
         && (ok <==> Says(replies, n, SUCCESS))
         && (ok ==> Received(replies[n]) && newSlot == replies[n][1])
  }

  /** The same as a conversation: the client connects if it does in the conversation and
      every message can be sent; then these have been sent. */
  predicate Played(password: CString, src: Source, slot: Byte, replies: seq<Bytes>, sendable: nat -> bool, ok: bool,
                   newSlot: Byte, sent: seq<Bytes>)
    requires WellFormed(src) && forall i | 0 <= i < |replies| :: Received(replies[i])
  {
    var talk := Play(password, src, Greeted, replies);
    var all := [HelloMessage(slot)] + talk.sends;
    && (ok <==> talk.client.Connected? && AllSendable(sendable, 0, all))
    && newSlot == (if ok then talk.client.slot else slot)
    && (ok ==> sent == all)
  }

  /** init_connect. `replies` are the buffers recv_message returns, in order; when
      they are used up it fails. `sendable(n)` tells whether the n-th message can be
      sent. The slot is what the client remembers afterwards. */
  method InitConnect(password: CString, src: Source, slot: Byte, replies: seq<Bytes>, sendable: nat -> bool)
    returns (ok: bool, newSlot: Byte, sent: seq<Bytes>)
    requires WellFormed(src) && forall i | 0 <= i < |replies| :: Received(replies[i])
    ensures Conversed(password, src, slot, replies, sendable, ok, newSlot, sent)
    ensures Played(password, src, slot, replies, sendable, ok, newSlot, sent)
  {
    hide Played, Readable, SetupMessages, PasswordMessage, AllSendable;
    ConversedIsPlayed(password, src, slot, replies, sendable);
    OneSendable(sendable, 0, HelloMessage(slot));
    newSlot := slot;
    sent := [];
    if !sendable(0) {
      return false, newSlot, sent;
    }
    sent := [HelloMessage(slot)];
    var n := 0;
    if n == |replies| {
      return false, newSlot, sent;
    }
    var buf := replies[n];
    n := n + 1;

    if buf[0] == VERSION_MISMATCH {
      return false, newSlot, sent;
    } else if buf[0] == PASSWORD_REQUIRED {
      if |password| + 1 > 254 {
        return false, newSlot, sent;
      }
      if !sendable(1) {
        return false, newSlot, sent;
      }
      OneSendable(sendable, 1, PasswordMessage(password));
      SendableParts(sendable, 0, sent, [PasswordMessage(password)]);
      sent := sent + [PasswordMessage(password)];
      if n == |replies| {
        return false, newSlot, sent;
      }
      buf := replies[n];
      n := n + 1;
    }

    if buf[0] == SETUP_REQUIRED {
      var done, setup := SetupDevice(src, |sent|, sendable);
      SendableParts(sendable, 0, sent, setup);
      sent := sent + setup;
      if !done || n == |replies| {
        return false, newSlot, sent;
      }
      buf := replies[n];
      n := n + 1;
    }

    if buf[0] != SUCCESS {
      return false, newSlot, sent;
    }
    return true, buf[1], sent;
  }

  /** What that means for the replies of a server: any reply but PASSWORD_REQUIRED,
      SETUP_REQUIRED and SUCCESS, in the place of the deciding one, ends the handshake
      at once and changes nothing; and, when all can be sent, a setup is completed if
      and only if SETUP_REQUIRED is in that place and the client can describe its device. */
  lemma OnlySetupRequiredSetsUp(password: CString, src: Source, slot: Byte, replies: seq<Bytes>,
                                sendable: nat -> bool, ok: bool, newSlot: Byte, sent: seq<Bytes>)
    requires WellFormed(src) && forall i | 0 <= i < |replies| :: Received(replies[i])
    requires Conversed(password, src, slot, replies, sendable, ok, newSlot, sent) && sendable(0)
    ensures replies != [] && replies[0][0] !in {PASSWORD_REQUIRED, SETUP_REQUIRED, SUCCESS} ==>
              !ok && newSlot == slot && sent == [HelloMessage(slot)]
    ensures |replies| > 1 && Authenticates(password, replies, sendable)
            && replies[1][0] !in {SETUP_REQUIRED, SUCCESS} ==>
              !ok && newSlot == slot && sent == [HelloMessage(slot), PasswordMessage(password)]
    ensures (forall n :: sendable(n)) ==>
              ([SETUP_END] in sent <==>
                 && Describable(src)
                 && (|| Says(replies, 0, SETUP_REQUIRED)
                     || (Authenticates(password, replies, sendable) && Says(replies, 1, SETUP_REQUIRED))))
  {
    hide Readable, SetupMessages, AllSendable;
    var prelude := Prelude(password, slot, replies, sendable);
    assert [SETUP_END] !in prelude;
    if Named(src) {
      SetupEndLast(src);
      var all, k := prelude + SetupMessages(src), |prelude|;
      assert forall p | k <= p < |all| :: all[p] == SetupMessages(src)[p - k];
      assert forall p | 0 <= p < k :: all[p] == prelude[p];
      assert all[|all| - 1] == [SETUP_END];
      if sent <= all {
        assert forall p | 0 <= p < |sent| :: sent[p] == all[p];
        assert [SETUP_END] in sent <==> sent == all;
      }
    }
  }

  /** The message that ends the setup is its last one, and occurs only there. */
  lemma SetupEndLast(src: Source)
    requires WellFormed(src) && Named(src)
    ensures var msgs := SetupMessages(src);
            msgs != [] && forall p | 0 <= p < |msgs| :: msgs[p] == [SETUP_END] <==> p == |msgs| - 1
  {
    hide NameField, AllRequests;
    RequestThenInfo(src, AllRequests(src));
    var scan := Messages(src, AllRequests(src));
    forall p: nat | p < |scan|
      ensures |scan[p]| > 1
    {
      assert AsksAt(src, scan, p) || InfoAt(src, scan, p);
    }
  }

  lemma ConversedIsPlayed(password: CString, src: Source, slot: Byte, replies: seq<Bytes>, sendable: nat -> bool)
    requires WellFormed(src) && forall i | 0 <= i < |replies| :: Received(replies[i])
    ensures forall ok: bool, newSlot: Byte, sent: seq<Bytes> |
              Conversed(password, src, slot, replies, sendable, ok, newSlot, sent) ::
              Played(password, src, slot, replies, sendable, ok, newSlot, sent)
  {
    hide Conversed, Played;
    forall ok: bool, newSlot: Byte, sent: seq<Bytes> |
        Conversed(password, src, slot, replies, sendable, ok, newSlot, sent)
      ensures Played(password, src, slot, replies, sendable, ok, newSlot, sent)
    {
      PlayedOut(password, src, slot, replies, sendable, ok, newSlot, sent);
    }
  }

  lemma PlayedOut(password: CString, src: Source, slot: Byte, replies: seq<Bytes>, sendable: nat -> bool, ok: bool,
                  newSlot: Byte, sent: seq<Bytes>)
    requires WellFormed(src) && forall i | 0 <= i < |replies| :: Received(replies[i])
    requires Conversed(password, src, slot, replies, sendable, ok, newSlot, sent)
    ensures Played(password, src, slot, replies, sendable, ok, newSlot, sent)
  {
    hide Play, Readable, SetupMessages, PasswordMessage, AllSendable;
    var hello := [HelloMessage(slot)];
    var talk := Play(password, src, Greeted, replies);
    SendableParts(sendable, 0, hello, talk.sends);
    OneSendable(sendable, 0, HelloMessage(slot));
    OneSendable(sendable, 1, PasswordMessage(if |password| < 0xFF then password else []));
    StopsShort(sendable, sent, hello + talk.sends);
    assert replies[0..] == replies;
    PlayStep(password, src, Greeted, replies, 0);
    if Says(replies, 0, PASSWORD_REQUIRED) {
      if |password| + 1 <= 254 {
        var message := [PasswordMessage(password)];
        var later := Play(password, src, Authenticating, replies[1..]);
        Decided(password, src, Authenticating, replies, 1);
        SendableParts(sendable, 1, message, later.sends);
        Assoc(hello, message, later.sends);
        assert later.sends == [] ==> message + later.sends == message;
      } else {
        PlayStep(password, src, Failed, replies, 1);
      }
    } else {
      Decided(password, src, Greeted, replies, 0);
      assert Prelude(password, slot, replies, sendable) == hello;
      assert talk.sends == [] ==> hello + talk.sends == hello;
    }
  }

  lemma StopsShort(sendable: nat -> bool, sent: seq<Bytes>, all: seq<Bytes>)
    ensures sent <= all && sent != all && !sendable(|sent|) ==> !AllSendable(sendable, 0, all)
    ensures !sendable(0) && all != [] ==> !AllSendable(sendable, 0, all)
  {}

  /** The rest of a conversation from the deciding reply on. */
  lemma Decided(password: CString, src: Source, c: Client, replies: seq<Bytes>, n: nat)
    requires WellFormed(src) && forall i | 0 <= i < |replies| :: Received(replies[i])
    requires n <= |replies| && (c.Authenticating? || (c.Greeted? && !Says(replies, n, PASSWORD_REQUIRED)))
    ensures var later := Play(password, src, c, replies[n..]);
            if Says(replies, n, SETUP_REQUIRED) && Describable(src) then
              && later.sends == SetupMessages(src)
              && (later.client.Connected? <==> Says(replies, n + 1, SUCCESS))
              && (later.client.Connected? ==> later.client.slot == replies[n + 1][1])
            else
              && later.sends == []
              && (later.client.Connected? <==> Says(replies, n, SUCCESS))
              && (later.client.Connected? ==> later.client.slot == replies[n][1])
  {
    hide Play, Readable, SetupMessages;
    PlayStep(password, src, c, replies, n);
    if n < |replies| {
      var now := React(password, src, c, replies[n]);
      PlayStep(password, src, now.client, replies, n + 1);
      if n + 1 < |replies| && now.client.SettingUp? {
        PlayStep(password, src, React(password, src, now.client, replies[n + 1]).client, replies, n + 2);
      }
      assert now.sends + [] == now.sends;
      assert now.sends + ([] + []) == now.sends;
    }
  }

  lemma OneSendable(sendable: nat -> bool, start: nat, msg: Bytes)
    ensures AllSendable(sendable, start, [msg]) <==> sendable(start)
    ensures AllSendable(sendable, start, [])
  {}

  // ---------- the server's side ----------

  /** The requests that pass the whitelist, in order. */
  function Permitted(cfg: Config, ids: seq<EventId>): seq<EventId> {
    if ids == [] then []
    else
      var last := ids[|ids| - 1];
      var before := Permitted(cfg, ids[..|ids| - 1]);
      if last in cfg.whitelist then before + [last] else before
  }

  /** The axes after the infos that go with the requests were received. */
  function Axes(absinfo: seq<AbsInfo>, src: Source, ids: seq<EventId>): (r: seq<AbsInfo>)
    ensures |r| == |absinfo|
  {
    if ids == [] then absinfo
    else
      var last := ids[|ids| - 1];
      var before := Axes(absinfo, src, ids[..|ids| - 1]);
      if last.kind == EV_ABS && src.axes(last.code).Some? && last.code < |absinfo| then
        before[last.code := src.axes(last.code).value]
      else before
  }

  /** Requests the server accepts: in range, and axes with a readable info. */
  predicate InRange(src: Source, ids: seq<EventId>) {
    forall e | e in ids :: e.kind < EV_MAX && e.code < KEY_MAX
      && (e.kind == EV_ABS ==> e.code < ABS_CNT && src.axes(e.code).Some?)
  }

  /** The slot after the messages for some requests. */
  function AfterRequests(cfg: Config, s: Slot, src: Source, ids: seq<EventId>): Slot {
    var meta := s.meta.(enabled := s.meta.enabled + Permitted(cfg, ids), absinfo := Axes(s.meta.absinfo, src, ids));
    s.(meta := meta, calls := s.calls + |Permitted(cfg, ids)|)
  }

  lemma InterpretRequest(cfg: Config, index: nat, s: Slot, src: Source, id: EventId, os: Os)
    requires index < 0xFF && Live(s) && s.status == SETUP_REQUIRED && Willing(os)
    requires InRange(src, [id])
    ensures AllFrames(MessagesFor(src, id))
    ensures var o := Interpret(cfg, index, s, MessagesFor(src, id), os);
            && o.effects == []
            && o.slot.meta.name == s.meta.name
            && o.slot.meta.enabled == s.meta.enabled + (if id in cfg.whitelist then [id] else [])
            && o.slot.meta.absinfo == (if id.kind == EV_ABS then s.meta.absinfo[id.code := src.axes(id.code).value]
                                       else s.meta.absinfo)
            && o.slot == s.(meta := o.slot.meta, calls := s.calls + if id in cfg.whitelist then 1 else 0)
  {
    hide Creation, SpecNow, StrncmpEqual;
    assert id in [id];
    RequestRoundTrip(id);
    var request := EncodeRequest(id);
    var first := Dispatch(cfg, index, s, request, os);
    assert first.slot.meta.enabled == s.meta.enabled + if id in cfg.whitelist then [id] else [];
    InterpretNothing(cfg, index, first.slot, os);
    if id.kind == EV_ABS {
      var info := src.axes(id.code).value;
      var message := EncodeAbsInfo(id.code, info);
      assert message[2..] == info;
      var second := Dispatch(cfg, index, first.slot, message, os);
      InterpretNothing(cfg, index, second.slot, os);
      DropOnly(message);
      assert [request, message][1..] == [message];
      assert Interpret(cfg, index, first.slot, [message], os) == Outcome(second.slot, []);
    } else {
      DropOnly(request);
    }
  }

  lemma DropOnly(msg: Bytes)
    ensures [msg][1..] == []
  {}

  lemma InterpretNothing(cfg: Config, index: nat, s: Slot, os: Os)
    requires index < 0xFF
    ensures Interpret(cfg, index, s, [], os) == Outcome(s, [])
  {}

  /** All messages of the scan: the server collects the permitted requests in the
      client's order and takes over every axis. */
  lemma {:induction false} InterpretRequests(cfg: Config, index: nat, s: Slot, src: Source, ids: seq<EventId>, os: Os)
    requires index < 0xFF && Live(s) && s.status == SETUP_REQUIRED && Willing(os)
    requires InRange(src, ids)
    ensures AllFrames(Messages(src, ids))
    ensures Interpret(cfg, index, s, Messages(src, ids), os) == Outcome(AfterRequests(cfg, s, src, ids), [])
    decreases |ids|
  {
    hide Interpret, MessagesFor;
    if ids == [] {
      InterpretNothing(cfg, index, s, os);
      assert s.meta.enabled + [] == s.meta.enabled;
    } else {
      var before, last := ids[..|ids| - 1], ids[|ids| - 1];
      InterpretRequests(cfg, index, s, src, before, os);
      var t := AfterRequests(cfg, s, src, before);
      assert InRange(src, [last]);
      InterpretRequest(cfg, index, t, src, last, os);
      InterpretAppend(cfg, index, s, Messages(src, before), MessagesFor(src, last), os);
      Assoc(s.meta.enabled, Permitted(cfg, before), if last in cfg.whitelist then [last] else []);
      assert Permitted(cfg, ids) == Permitted(cfg, before) + if last in cfg.whitelist then [last] else [];
    }
  }

  /** The axes after the scan: every one that was sent holds the info sent. */
  lemma {:induction false} AxesMeaning(absinfo: seq<AbsInfo>, src: Source, ids: seq<EventId>)
    requires |absinfo| == ABS_CNT && InRange(src, ids)
    ensures forall c: nat | c < ABS_CNT :: Axes(absinfo, src, ids)[c]
              == if EventId(EV_ABS, c) in ids && src.axes(c).Some? then src.axes(c).value else absinfo[c]
    decreases |ids|
  {
    if ids != [] {
      var before, last := ids[..|ids| - 1], ids[|ids| - 1];
      AxesMeaning(absinfo, src, before);
      assert ids == before + [last];
      assert last in ids;
      forall c: nat | c < ABS_CNT
        ensures EventId(EV_ABS, c) in ids <==> EventId(EV_ABS, c) in before || last == EventId(EV_ABS, c)
      {
      }
    }
  }

  /** The setup a client described, once the server has all of it. */
  function FinalMeta(cfg: Config, s: Slot, src: Source): Meta
    requires WellFormed(src) && Named(src)
  {
    var ids := AllRequests(src);
    RawMeta(Some(NameField(src.name.value)), s.meta.enabled + Permitted(cfg, ids), Axes(s.meta.absinfo, src, ids))
  }

  lemma DeviceDispatch(cfg: Config, index: nat, s: Slot, src: Source, os: Os)
    requires index < 0xFF && Live(s) && s.status == SETUP_REQUIRED && WellFormed(src) && Named(src)
    ensures IsFrame(DeviceMessage(src))
    ensures Dispatch(cfg, index, s, DeviceMessage(src), os)
         == Outcome(s.(meta := s.meta.(name := Some(NameField(src.name.value)))), [])
  {
    hide NameField;
    assert DeviceMessage(src)[DEVICE_SIZE..] == NameField(src.name.value);
  }

  lemma InterpretOne(cfg: Config, index: nat, s: Slot, msg: Bytes, os: Os)
    requires index < 0xFF && IsFrame(msg) && Live(s)
    ensures Interpret(cfg, index, s, [msg], os) == Dispatch(cfg, index, s, msg, os)
  {
    hide Dispatch;
    DropOnly(msg);
    var o := Dispatch(cfg, index, s, msg, os);
    InterpretNothing(cfg, index, o.slot, os);
    assert o.effects + [] == o.effects;
  }

  /** The slot after a setup of which nothing was refused. */
  function SetUp(cfg: Config, s: Slot, meta: Meta, os: Os, calls: nat): Slot {
    s.(meta := meta, evFd := os(calls), status := SUCCESS, calls := calls + 2 + |WholePlan(cfg, meta)|)
  }

  /** The server on the client's whole setup. */
  lemma InterpretSetup(cfg: Config, index: nat, s: Slot, src: Source, os: Os)
    requires index < 0xFF && Live(s) && s.status == SETUP_REQUIRED && Willing(os)
    requires WellFormed(src) && Named(src) && InRange(src, AllRequests(src))
    ensures AllFrames(SetupMessages(src))
    ensures var meta := FinalMeta(cfg, s, src);
            var n := s.calls + |Permitted(cfg, AllRequests(src))|;
            Interpret(cfg, index, s, SetupMessages(src), os)
            == Outcome(SetUp(cfg, s, meta, os, n),
                       [Created(os(n), SpecWanted(cfg, meta)), Sent([SUCCESS, index + 1], true)])
  {
    hide Interpret, Dispatch, Messages, AllRequests, NameField, SpecWanted, WholePlan;
    var ids := AllRequests(src);
    var named := s.(meta := s.meta.(name := Some(NameField(src.name.value))));
    DeviceDispatch(cfg, index, s, src, os);
    InterpretOne(cfg, index, s, DeviceMessage(src), os);
    InterpretRequests(cfg, index, named, src, ids, os);
    InterpretAppend(cfg, index, s, [DeviceMessage(src)], Messages(src, ids), os);
    var asked := AfterRequests(cfg, named, src, ids);
    InterpretOne(cfg, index, asked, [SETUP_END], os);
    FieldOfField(src.name.value);
    SetupEndDispatch(cfg, index, asked, os);
    InterpretAppend(cfg, index, s, [DeviceMessage(src)] + Messages(src, ids), [[SETUP_END]], os);
  }

  lemma SetupEndDispatch(cfg: Config, index: nat, s: Slot, os: Os)
    requires index < 0xFF && Live(s) && s.status == SETUP_REQUIRED && Willing(os) && NameReadable(s.meta.name)
    ensures IsFrame([SETUP_END])
    ensures Dispatch(cfg, index, s, [SETUP_END], os)
         == Outcome(SetUp(cfg, s, s.meta, os, s.calls),
                    [Created(os(s.calls), SpecWanted(cfg, s.meta)), Sent([SUCCESS, index + 1], true)])
  {
    hide Creation, SpecNow, WholePlan, SpecWanted, NameReadable;
    WillingCreates(cfg, s, os);
  }

  // ---------- under any cut ----------

  /** The cuts the server can deal with: any, under the intended rule; under the
      written one those that spare the first byte of PASSWORD and DEVICE messages. */
  predicate Digestible(rule: Rule, cfg: Config, index: nat, s: Slot, chunks: seq<Bytes>, os: Os)
    requires index < 0xFF
  {
    rule == AsWritten ==> NoLoneHeader(cfg, index, s, chunks, os)
  }

  /** Under any digestible cut, a slot makes of messages what it makes of them whole. */
  lemma AnyCut(rule: Rule, cfg: Config, index: nat, s: Slot, msgs: seq<Bytes>, chunks: seq<Bytes>, os: Os)
    requires index < 0xFF && Live(s) && AllFrames(msgs) && Concat(chunks) == Concat(msgs)
    requires Digestible(rule, cfg, index, s, chunks, os)
    ensures var o := Interpret(cfg, index, s, msgs, os);
            FeedAll(rule, cfg, index, Port(s, []), chunks, os) == Served(Port(o.slot, []), o.effects)
  {
    hide FeedAll, Interpret;
    FramesOfFrames(msgs);
    if rule == AsWritten {
      AsWrittenExactly(cfg, index, s, chunks, os);
      assert chunks[..|chunks|] == chunks;
    } else {
      FragmentationIndependence(cfg, index, s, chunks, os);
    }
  }

  lemma PasswordDispatch(cfg: Config, index: nat, s: Slot, attempt: CString, os: Os)
    requires index < 0xFF && Live(s) && s.status == PASSWORD_REQUIRED && Willing(os) && |attempt| + 1 <= 254
    ensures IsFrame(PasswordMessage(attempt))
    ensures var verdict := if attempt != cfg.password then INVALID_PASSWORD
                           else if s.evFd < 0 then SETUP_REQUIRED else SUCCESS;
            Dispatch(cfg, index, s, PasswordMessage(attempt), os)
            == Outcome(s.(status := verdict, calls := s.calls + 1),
                       [Judged(attempt + [0], verdict), Sent([verdict], true)])
  {
    hide StrncmpEqual;
    assert PasswordMessage(attempt)[PASSWORD_SIZE..] == attempt + [0];
    AcceptanceIsEquality(cfg.password, attempt);
  }

  /** The client's password, under any cut. */
  lemma PasswordExchange(rule: Rule, cfg: Config, index: nat, s: Slot, attempt: CString, chunks: seq<Bytes>, os: Os)
    requires index < 0xFF && Live(s) && s.status == PASSWORD_REQUIRED && Willing(os)
    requires |attempt| + 1 <= 254 && Concat(chunks) == PasswordMessage(attempt)
    requires Digestible(rule, cfg, index, s, chunks, os)
    ensures var verdict := if attempt != cfg.password then INVALID_PASSWORD
                           else if s.evFd < 0 then SETUP_REQUIRED else SUCCESS;
            FeedAll(rule, cfg, index, Port(s, []), chunks, os)
            == Served(Port(s.(status := verdict, calls := s.calls + 1), []),
                      [Judged(attempt + [0], verdict), Sent([verdict], true)])
  {
    hide FeedAll, NoLoneHeader, Dispatch, PasswordMessage;
    var msg := PasswordMessage(attempt);
    PasswordDispatch(cfg, index, s, attempt, os);
    ConcatCons(msg, []);
    assert [msg] + [] == [msg] && msg + Concat([]) == msg;
    AnyCut(rule, cfg, index, s, [msg], chunks, os);
    InterpretOne(cfg, index, s, msg, os);
  }

  /** The client's setup, under any cut. */
  lemma SetupExchange(rule: Rule, cfg: Config, index: nat, s: Slot, src: Source, chunks: seq<Bytes>, os: Os)
    requires index < 0xFF && Live(s) && s.status == SETUP_REQUIRED && Willing(os)
    requires WellFormed(src) && Named(src) && InRange(src, AllRequests(src))
    requires Concat(chunks) == Concat(SetupMessages(src)) && Digestible(rule, cfg, index, s, chunks, os)
    ensures var meta := FinalMeta(cfg, s, src);
            var n := s.calls + |Permitted(cfg, AllRequests(src))|;
            FeedAll(rule, cfg, index, Port(s, []), chunks, os)
            == Served(Port(SetUp(cfg, s, meta, os, n), []),
                      [Created(os(n), SpecWanted(cfg, meta)), Sent([SUCCESS, index + 1], true)])
  {
    hide FeedAll, NoLoneHeader, Interpret, SetupMessages, FinalMeta, SetUp, SpecWanted;
    InterpretSetup(cfg, index, s, src, os);
    AnyCut(rule, cfg, index, s, SetupMessages(src), chunks, os);
  }
}
