/** When a message ends the connection of its sender: from the message, the slot and
    the answers of the operating system. */
module Endings {
  import opened Wrappers
  import opened Protocol
  import opened Uinput
  import opened DeviceCreation
  import opened Slots
  import opened Lifecycle
  import opened Definedness

  /** The message comes in the status it is meant for. */
  predicate InTurn(s: Slot, t: Byte) {
    FromClient(t) && s.status == TurnOf(t)
  }

  /** A message out of its turn ends the connection, except PASSWORD and DATA, which
      are skipped; so does one of a type that no connected client sends. */
  predicate EndsOutOfTurn(s: Slot, t: Byte) {
    !InTurn(s, t) && t != PASSWORD && t != DATA
  }

  /** A request the server turns down: outside of its tables, or permitted but the list
      of requested events cannot grow. One that is only forbidden is skipped. */
  predicate RequestFails(cfg: Config, s: Slot, id: EventId, os: Os) {
    || id.kind >= EV_MAX
    || id.code >= KEY_MAX
    || (id in cfg.whitelist && os(s.calls) < 0)
  }

  /** The device cannot be created, or the client cannot be told that it was. */
  predicate SetupFails(cfg: Config, s: Slot, os: Os) {
    var a := Creation(cfg, s, os);
    a.fd < 0 || os(s.calls + 1 + |a.calls|) < 0
  }

  /** What makes a message in its turn end the connection: ABSINFO, REQUEST_EVENT and
      SETUP_END fail by what they ask for, the others by a reply that cannot be sent or
      an event that cannot be written; DEVICE never does. */
  predicate EndsInTurn(cfg: Config, s: Slot, msg: Bytes, os: Os)
    requires IsFrame(msg)
  {
    if msg[0] == ABSINFO then msg[1] >= ABS_CNT
    else if msg[0] == REQUEST_EVENT then RequestFails(cfg, s, DecodeRequest(msg), os)
    else if msg[0] == SETUP_END then SetupFails(cfg, s, os)
    else msg[0] != DEVICE && os(s.calls) < 0
  }

  predicate Ends(cfg: Config, s: Slot, msg: Bytes, os: Os)
    requires IsFrame(msg)
  {
    || msg[0] == QUIT
    || EndsOutOfTurn(s, msg[0])
    || (InTurn(s, msg[0]) && EndsInTurn(cfg, s, msg, os))
  }

  /** For every live slot and every message: the behaviour is defined unless a name is
      read that is not there; then the socket is closed, and the slot without a
      connection, if and only if the message is one of those. */
  lemma EndsExactly(cfg: Config, index: nat, s: Slot, msg: Bytes, os: Os)
    requires index < 0xFF && IsFrame(msg) && Live(s)
    ensures var o := Dispatch(cfg, index, s, msg, os);
            if ReadsNoName(s, msg, os) then o.slot.wrecked && o.slot.fd == s.fd && Closed(s.fd) !in o.effects
            else
              && !o.slot.wrecked
              && o.slot.fd == (if Ends(cfg, s, msg, os) then -1 else s.fd)
              && (Closed(s.fd) in o.effects <==> Ends(cfg, s, msg, os))
  {
    hide Creation, SpecNow, NameReadable, StrncmpEqual, ReadsNoName;
    DispatchWrecks(cfg, index, s, msg, os);
    if msg[0] == SETUP_END {
      SetupEnds(cfg, index, s, msg, os);
    }
  }

  lemma SetupEnds(cfg: Config, index: nat, s: Slot, msg: Bytes, os: Os)
    requires index < 0xFF && IsFrame(msg) && Live(s) && msg[0] == SETUP_END
    ensures var o := Dispatch(cfg, index, s, msg, os);
            if o.slot.wrecked then o.slot.fd == s.fd && Closed(s.fd) !in o.effects
            else
              && o.slot.fd == (if Ends(cfg, s, msg, os) then -1 else s.fd)
              && (Closed(s.fd) in o.effects <==> Ends(cfg, s, msg, os))
  {
    hide Creation, SpecNow;
    CreatedIsDefined(cfg, s, os);
  }

  // ---------- what the sender is told ----------

  /** The replies among some effects, sent or not. */
  function Said(effects: seq<Effect>): seq<Bytes> {
    if effects == [] then []
    else (if effects[0].Sent? then [effects[0].reply] else []) + Said(effects[1..])
  }

  /** The verdict on a password: it is accepted if it is a prefix of the right one, or
      the right one, its NUL and anything after it. */
  function Verdict(cfg: Config, s: Slot, payload: Bytes): Byte {
    if !(payload <= cfg.password || cfg.password + [0] <= payload) then INVALID_PASSWORD
    else if s.evFd < 0 then SETUP_REQUIRED
    else SUCCESS
  }

  /** What a message is answered: PASSWORD with the verdict, SETUP_REQUIRED with itself
      and SETUP_END with the slot number once the device is there; REQUEST_EVENT and
      SETUP_END out of their turn with INVALID; nothing else is answered at all. */
  function Reply(cfg: Config, index: nat, s: Slot, msg: Bytes, os: Os): seq<Bytes>
    requires index < 0xFF && IsFrame(msg)
  {
    if !InTurn(s, msg[0]) then if msg[0] == REQUEST_EVENT || msg[0] == SETUP_END then [[INVALID]] else []
    else if msg[0] == PASSWORD then [[Verdict(cfg, s, msg[PASSWORD_SIZE..])]]
    else if msg[0] == SETUP_REQUIRED then [[SETUP_REQUIRED]]
    else if msg[0] == SETUP_END && Creation(cfg, s, os).fd >= 0 then [[SUCCESS, index + 1]]
    else []
  }

  lemma AnswersExactly(cfg: Config, index: nat, s: Slot, msg: Bytes, os: Os)
    requires index < 0xFF && IsFrame(msg) && Live(s)
    ensures Said(Dispatch(cfg, index, s, msg, os).effects) == Reply(cfg, index, s, msg, os)
  {
    hide Handle, Close, Reply, Said;
    SaidOfNone(cfg, index, s, msg, os);
    if msg[0] != QUIT {
      HandlerAnswers(cfg, index, s, msg, os);
      var h := Handle(cfg, index, s, msg, os);
      SaidAppend(h.effects, [Closed(s.fd)]);
      SaidOfFew([Closed(s.fd)]);
    }
  }

  lemma SaidOfNone(cfg: Config, index: nat, s: Slot, msg: Bytes, os: Os)
    requires index < 0xFF && IsFrame(msg)
    ensures Said(Close(s, true, os).effects) == []
    ensures msg[0] == QUIT ==> Reply(cfg, index, s, msg, os) == []
  {
    SaidOfFew(Close(s, true, os).effects);
  }

  lemma HandlerAnswers(cfg: Config, index: nat, s: Slot, msg: Bytes, os: Os)
    requires index < 0xFF && IsFrame(msg) && msg[0] != QUIT
    ensures Said(Handle(cfg, index, s, msg, os).effects) == Reply(cfg, index, s, msg, os)
  {
    hide Creation, SpecNow, StrncmpEqual, Said;
    CreatedIsDefined(cfg, s, os);
    if msg[0] == PASSWORD {
      AcceptedPayloads(cfg.password, msg[PASSWORD_SIZE..]);
    }
    SaidOfFew(Handle(cfg, index, s, msg, os).effects);
  }

  lemma {:induction false} SaidAppend(a: seq<Effect>, b: seq<Effect>)
    ensures Said(a + b) == Said(a) + Said(b)
  {
    if a == [] {
      assert a + b == b;
    } else {
      assert (a + b)[1..] == a[1..] + b;
      SaidAppend(a[1..], b);
    }
  }

  lemma SaidOfFew(effects: seq<Effect>)
    ensures effects == [] ==> Said(effects) == []
    ensures |effects| == 1 ==> Said(effects) == if effects[0].Sent? then [effects[0].reply] else []
    ensures |effects| == 2 ==>
              Said(effects) == (if effects[0].Sent? then [effects[0].reply] else [])
                               + (if effects[1].Sent? then [effects[1].reply] else [])
  {
    assert Said([]) == [];
    if 0 < |effects| <= 2 {
      var more := effects[1..];
      assert |more| > 0 ==> more[1..] == [];
    }
  }
  // ---------- what becomes of the slot ----------

  /** QUIT while the kernel lets the device go. */
  predicate GivesUpDevice(s: Slot, t: Byte, os: Os) {
    t == QUIT && s.evFd >= 0 && os(s.calls) >= 0
  }

  /** A request that reaches the list of requested events. */
  predicate Grows(cfg: Config, s: Slot, msg: Bytes)
    requires IsFrame(msg)
  {
    msg[0] == REQUEST_EVENT && InTurn(s, msg[0]) && Allowed(cfg, DecodeRequest(msg))
  }

  predicate CreatesDevice(cfg: Config, s: Slot, msg: Bytes, os: Os)
    requires IsFrame(msg)
  {
    msg[0] == SETUP_END && InTurn(s, msg[0]) && Creation(cfg, s, os).fd >= 0
  }

  /** Field by field, for every live slot and message, and whether or not the connection
      goes on: which message changes what, and to what. */
  lemma ChangesExactly(cfg: Config, index: nat, s: Slot, msg: Bytes, os: Os)
    requires index < 0xFF && IsFrame(msg) && Live(s)
    ensures var s' := Dispatch(cfg, index, s, msg, os).slot; var t := msg[0];
            && s'.status == (if t == QUIT then UNCONN
                             else if t == PASSWORD && InTurn(s, t) then Verdict(cfg, s, msg[PASSWORD_SIZE..])
                             else if t == SETUP_REQUIRED && InTurn(s, t) then SETUP_REQUIRED
                             else if CreatesDevice(cfg, s, msg, os) then SUCCESS
                             else s.status)
            && s'.evFd == (if GivesUpDevice(s, t, os) then -1
                           else if CreatesDevice(cfg, s, msg, os) then Creation(cfg, s, os).fd
                           else s.evFd)
            && s'.meta.name == (if GivesUpDevice(s, t, os) then EmptyMeta().name
                                else if t == DEVICE && InTurn(s, t) then Some(msg[DEVICE_SIZE..])
                                else s.meta.name)
            && s'.meta.absinfo == (if GivesUpDevice(s, t, os) then EmptyMeta().absinfo
                                   else if t == ABSINFO && InTurn(s, t) && msg[1] < ABS_CNT then
                                     s.meta.absinfo[msg[1] := msg[2..]]
                                   else s.meta.absinfo)
            && s'.meta.enabled == (if t == QUIT then []
                                   else if !Grows(cfg, s, msg) then s.meta.enabled
                                   else if os(s.calls) < 0 then []
                                   else s.meta.enabled + [DecodeRequest(msg)])
  {
    hide Creation, SpecNow, StrncmpEqual, DecodeRequest, EmptyMeta, NameReadable;
    CreatedIsDefined(cfg, s, os);
    if msg[0] == PASSWORD {
      AcceptedPayloads(cfg.password, msg[PASSWORD_SIZE..]);
    }
  }
}
