/** Client and server put together: when a handshake completes, and what both sides
    then agree on. */
module Composition {
  import opened Wrappers
  import opened Protocol
  import opened DeviceCreation
  import opened Slots
  import opened Fragmentation
  import opened Kernel
  import opened World
  import opened Runs
  import opened Network
  import opened InputClient
  import opened Handshake
  import opened Leftovers

  // ---------- what reaches the client ----------

  /** What reaches the client of one effect. */
  function Reaches(e: Effect): Bytes {
    if e.Sent? && e.ok then e.reply else []
  }

  /** The bytes the server sent back. */
  function Replies(effects: seq<Effect>): Bytes {
    if effects == [] then [] else Reaches(effects[0]) + Replies(effects[1..])
  }

  lemma RepliesOfTwo(a: Effect, b: Effect)
    requires !a.Sent? && b.Sent? && b.ok
    ensures Replies([a, b]) == b.reply
  {
    assert [a, b][1..] == [b] && [b][1..] == [];
    assert Replies([]) == [];
    assert Replies([b]) == b.reply + [];
  }

  /** Of the replies those that could be sent reach the client, in their order. */
  lemma RepliesInOrder(a: seq<Effect>, e: Effect, b: seq<Effect>)
    ensures Replies(a + [e] + b) == Replies(a) + (if e.Sent? && e.ok then e.reply else []) + Replies(b)
  {
    RepliesAppend(a + [e], b);
    RepliesAppend(a, [e]);
    assert [e][1..] == [] && Replies([]) == [];
    assert Reaches(e) + [] == Reaches(e);
  }

  lemma {:induction false} RepliesAppend(a: seq<Effect>, b: seq<Effect>)
    ensures Replies(a + b) == Replies(a) + Replies(b)
  {
    hide Reaches;
    if a == [] {
      assert a + b == b;
    } else {
      assert (a + b)[0] == a[0] && (a + b)[1..] == a[1..] + b;
      RepliesAppend(a[1..], b);
      Assoc(Reaches(a[0]), Replies(a[1..]), Replies(b));
    }
  }

  /** The replies to HELLO, to the password if one was asked for, and to the setup. */
  function Conversation(cfg: Config, hello: Bytes, password: Bytes, setup: Bytes): seq<Bytes> {
    if cfg.password != [] then [hello, password, setup] else [hello, setup]
  }

  /** The replies that recv_message hands to the client, which does nothing before
      it has a whole one: they end at the first that is not whole. */
  function Delivered(replies: seq<Bytes>): (r: seq<Bytes>)
    ensures r <= replies && forall i | 0 <= i < |r| :: Received(r[i])
  {
    if replies == [] || !Received(replies[0]) then [] else [replies[0]] + Delivered(replies[1..])
  }

  /** In whatever pieces a reply of a fixed length arrives, recv_message returns if
      and only if the reply has that length. */
  lemma WholeOrWaiting(reply: Bytes, chunks: seq<Bytes>)
    requires reply != [] && 0 < MessageLength(reply[0]) && !VariableLength(reply[0])
    requires NonEmpty(chunks) && Concat(chunks) == reply
    ensures ChunksNeeded(chunks, 0) <= |chunks| <==> Received(reply)
  {
    assert chunks != [];
    ConcatGrows(chunks, 1);
    assert chunks[..1][..0] == [] && Concat(chunks[..1]) == [] + chunks[0];
    assert chunks[0][0] == reply[0];
    NeededMeaning(chunks, 0);
    assert chunks[..|chunks|] == chunks;
    var n := ChunksNeeded(chunks, 0);
    if n <= |chunks| {
      ConcatGrows(chunks, n);
    }
  }

  // ---------- the client's moves ----------

  /** The client's moves in a conversation that completes. */
  lemma ClientConnects(password: CString, index: nat, src: Source, asked: bool)
    requires index < 0xFF && WellFormed(src) && Describable(src) && |password| + 1 <= 254
    ensures var last := [SUCCESS, index + 1];
            var replies := if asked then [[PASSWORD_REQUIRED], [SETUP_REQUIRED], last] else [[SETUP_REQUIRED], last];
            && Delivered(replies) == replies
            && Play(password, src, Greeted, replies).client == Connected(index + 1)
            && Concat(Play(password, src, Greeted, replies).sends)
               == (if asked then PasswordMessage(password) else []) + Concat(SetupMessages(src))
  {
    hide SetupMessages, PasswordMessage, Readable;
    var last: Bytes := [SUCCESS, index + 1];
    var setup := SetupMessages(src);
    var two: seq<Bytes> := [[SETUP_REQUIRED], last];
    var three: seq<Bytes> := [[PASSWORD_REQUIRED]] + two;
    assert two[1..] == [last] && [last][1..] == [] && three[1..] == two;
    assert Delivered([]) == [];
    assert Delivered([last]) == [last] + [];
    assert Delivered(two) == two;
    assert Play(password, src, Connected(index + 1), []) == Reaction(Connected(index + 1), []);
    assert Play(password, src, SettingUp, [last]) == Reaction(Connected(index + 1), [] + []);
    assert setup + ([] + []) == setup;
    if asked {
      assert three == [[PASSWORD_REQUIRED], [SETUP_REQUIRED], last];
      assert Play(password, src, Authenticating, two) == Reaction(Connected(index + 1), setup + ([] + []));
      assert Play(password, src, Greeted, three).sends == [PasswordMessage(password)] + (setup + ([] + []));
      ConcatCons(PasswordMessage(password), setup);
    } else {
      assert Play(password, src, Greeted, two) == Reaction(Connected(index + 1), setup + ([] + []));
      assert [] + Concat(setup) == Concat(setup);
    }
  }

  /** The client's moves in a conversation that does not: nothing whole arrives
      after its HELLO, or after its password, or it is refused. */
  lemma ClientDoesNot(password: CString, src: Source, verdict: Byte)
    requires WellFormed(src) && |password| + 1 <= 254 && verdict in {INVALID_PASSWORD, SUCCESS}
    ensures var r := Play(password, src, Greeted, Delivered([[SUCCESS], []]));
            !r.client.Connected? && Concat(r.sends) == []
    ensures var r := Play(password, src, Greeted, Delivered([[PASSWORD_REQUIRED], [verdict], []]));
            !r.client.Connected? && Concat(r.sends) == PasswordMessage(password)
  {
    hide PasswordMessage, Describable, SetupMessages;
    assert !Received([SUCCESS]) && !Received([]);
    var msg := PasswordMessage(password);
    var replies: seq<Bytes> := [[PASSWORD_REQUIRED], [verdict], []];
    var rest: seq<Bytes> := [[verdict], []];
    assert replies[1..] == rest && rest[1..] == [[]];
    assert Delivered([[]]) == [];
    ConcatCons(msg, []);
    assert msg + [] == msg;
    if verdict == SUCCESS {
      assert Delivered(rest) == [];
      assert Delivered(replies) == [[PASSWORD_REQUIRED]];
      assert [[PASSWORD_REQUIRED]][1..] == [];
      assert Play(password, src, Authenticating, []) == Reaction(Authenticating, []);
      assert Play(password, src, Greeted, [[PASSWORD_REQUIRED]]).sends == [msg] + [];
    } else {
      assert Delivered(rest) == [[verdict]];
      assert Delivered(replies) == [[PASSWORD_REQUIRED], [verdict]];
      assert [[PASSWORD_REQUIRED], [verdict]][1..] == [[verdict]];
      assert [[verdict]][1..] == [];
      assert Play(password, src, Failed, []) == Reaction(Failed, []);
      assert Play(password, src, Authenticating, [[verdict]]) == Reaction(Failed, [] + []);
      assert Play(password, src, Greeted, [[PASSWORD_REQUIRED], [verdict]]).sends == [msg] + ([] + []);
    }
  }

  // ---------- both sides ----------

  /** A client that can describe its device within the server's ranges. */
  predicate GoodClient(src: Source) {
    WellFormed(src) && Describable(src) && InRange(src, AllRequests(src))
  }

  /** A freshly promoted slot, and an operating system that refuses nothing. */
  ghost predicate Fresh(cfg: Config, index: nat, s: Slot, os: Os) {
    index < 0xFF && Live(s) && s.evFd >= -1 && s.status == FirstStatus(cfg, s) && Willing(os)
  }

  /** What the server is fed after the HELLO: the client's password if one is asked
      for, and its setup if one is asked for then, each cut in a digestible way. */
  predicate Fed(rule: Rule, cfg: Config, index: nat, s: Slot, attempt: CString, src: Source,
                passwordCut: seq<Bytes>, setupCut: seq<Bytes>, os: Os)
    requires index < 0xFF && |attempt| + 1 <= 254 && WellFormed(src) && Named(src)
  {
    && (if cfg.password != [] then Concat(passwordCut) == PasswordMessage(attempt) else passwordCut == [])
    && Digestible(rule, cfg, index, s, passwordCut, os)
    && var s1 := FeedAll(rule, cfg, index, Port(s, []), passwordCut, os).port.slot;
       if s1.status == SETUP_REQUIRED then
         Concat(setupCut) == Concat(SetupMessages(src)) && Digestible(rule, cfg, index, s1, setupCut, os)
       else setupCut == []
  }

  /** The two parts of the server's work, and what the client makes of the replies. */
  datatype Meeting = Meeting(first: Served, second: Served, client: Reaction)

  function Meet(rule: Rule, cfg: Config, index: nat, s: Slot, attempt: CString, src: Source,
                passwordCut: seq<Bytes>, setupCut: seq<Bytes>, os: Os): Meeting
    requires index < 0xFF && |attempt| + 1 <= 254 && WellFormed(src)
  {
    var first := FeedAll(rule, cfg, index, Port(s, []), passwordCut, os);
    var second := FeedAll(rule, cfg, index, first.port, setupCut, os);
    var replies := Conversation(cfg, [s.status], Replies(first.effects), Replies(second.effects));
    Meeting(first, second, Play(attempt, src, Greeted, Delivered(replies)))
  }

  /** A handshake completes if and only if the password is right and the slot has no
      device yet: a slot that still has one answers with one byte of a two-byte
      SUCCESS, and the client waits for the other one. In every case the server was
      fed exactly what the client sends. */
  lemma ConnectsExactly(rule: Rule, cfg: Config, index: nat, s: Slot, attempt: CString, src: Source,
                        passwordCut: seq<Bytes>, setupCut: seq<Bytes>, os: Os)
    requires Fresh(cfg, index, s, os) && GoodClient(src) && |attempt| + 1 <= 254
    requires Fed(rule, cfg, index, s, attempt, src, passwordCut, setupCut, os)
    ensures var m := Meet(rule, cfg, index, s, attempt, src, passwordCut, setupCut, os);
            && (m.client.client.Connected? <==> s.evFd == -1 && (cfg.password == [] || attempt == cfg.password))
            && Concat(m.client.sends) == Concat(passwordCut) + Concat(setupCut)
            && (m.client.client.Connected? ==> m.client.client == Connected(index + 1))
  {
    hide NoLoneHeader, SetupMessages, Permitted, AllRequests, PasswordMessage, Readable, FeedAll, Play, SetUp,
      SpecWanted, FinalMeta;
    var first := FeedAll(rule, cfg, index, Port(s, []), passwordCut, os);
    NothingFed(rule, cfg, index, Port(s, []), os);
    NothingFed(rule, cfg, index, first.port, os);
    if cfg.password != [] {
      PasswordExchange(rule, cfg, index, s, attempt, passwordCut, os);
      RepliesOfTwo(first.effects[0], first.effects[1]);
    }
    var s1 := first.port.slot;
    if s1.status == SETUP_REQUIRED {
      SetupExchange(rule, cfg, index, s1, src, setupCut, os);
      var second := FeedAll(rule, cfg, index, first.port, setupCut, os);
      RepliesOfTwo(second.effects[0], second.effects[1]);
      ClientConnects(attempt, index, src, cfg.password != []);
    } else {
      ClientDoesNot(attempt, src, if s1.status == INVALID_PASSWORD then INVALID_PASSWORD else SUCCESS);
      assert Concat(passwordCut) + [] == Concat(passwordCut);
    }
  }

  lemma NothingFed(rule: Rule, cfg: Config, index: nat, p: Port, os: Os)
    requires index < 0xFF
    ensures FeedAll(rule, cfg, index, p, [], os) == Served(p, []) && Replies([]) == [] && Concat([]) == []
  {}

  /** What both sides agree on in the end. `left` is the list of requested events
      before the setup. */
  predicate Agreed(cfg: Config, index: nat, src: Source, left: seq<EventId>, c: Client, s: Slot)
    requires WellFormed(src) && index < 0xFF
  {
    && c == Connected(index + 1)
    && s.status == SUCCESS
    && s.evFd >= 0
    && s.meta.enabled == left + Permitted(cfg, AllRequests(src))
    && forall axis: nat | axis < ABS_CNT && EventId(EV_ABS, axis) in AllRequests(src) ::
         src.axes(axis) == Some(s.meta.absinfo[axis])
  }

  /** The composed handshake: a client that knows the password and a slot without a
      device, joined by HELLO, both end in SUCCESS with the same slot, however the
      two streams are cut. Every axis the client described holds its info. The new
      device is the one the client described, as far as the whitelist permits, if
      and only if no earlier client left events or axes that this one does not set
      itself. */
  lemma ComposedHandshake(rule: Rule, cfg: Config, index: nat, s: Slot, src: Source, passwordCut: seq<Bytes>,
                          setupCut: seq<Bytes>, os: Os)
    requires Fresh(cfg, index, s, os) && s.evFd == -1 && GoodClient(src) && |cfg.password| + 1 <= 254
    requires Fed(rule, cfg, index, s, cfg.password, src, passwordCut, setupCut, os)
    ensures var m := Meet(rule, cfg, index, s, cfg.password, src, passwordCut, setupCut, os);
            var after := m.second.port.slot;
            && Agreed(cfg, index, src, s.meta.enabled, m.client.client, after)
            && Concat(m.client.sends) == Concat(passwordCut) + Concat(setupCut)
            && m.second.effects == [Created(after.evFd, SpecWanted(cfg, after.meta)), Sent([SUCCESS, index + 1], true)]
            && (SpecWanted(cfg, after.meta) == OwnDevice(cfg, src)
                <==> NoStaleEvent(cfg, s.meta, src) && NoStaleAxis(cfg, s.meta, src))
  {
    hide *;
    ConnectsExactly(rule, cfg, index, s, cfg.password, src, passwordCut, setupCut, os);
    ServerSide(rule, cfg, index, s, src, passwordCut, setupCut, os);
  }

  /** The server's half. */
  lemma ServerSide(rule: Rule, cfg: Config, index: nat, s: Slot, src: Source, passwordCut: seq<Bytes>,
                   setupCut: seq<Bytes>, os: Os)
    requires Fresh(cfg, index, s, os) && s.evFd == -1 && GoodClient(src) && |cfg.password| + 1 <= 254
    requires Fed(rule, cfg, index, s, cfg.password, src, passwordCut, setupCut, os)
    ensures var m := Meet(rule, cfg, index, s, cfg.password, src, passwordCut, setupCut, os);
            var after := m.second.port.slot;
            && (m.client.client == Connected(index + 1) ==>
                  Agreed(cfg, index, src, s.meta.enabled, m.client.client, after))
            && m.second.effects == [Created(after.evFd, SpecWanted(cfg, after.meta)), Sent([SUCCESS, index + 1], true)]
            && (SpecWanted(cfg, after.meta) == OwnDevice(cfg, src)
                <==> NoStaleEvent(cfg, s.meta, src) && NoStaleAxis(cfg, s.meta, src))
  {
    hide NoLoneHeader, SetupMessages, Permitted, Axes, AllRequests, PasswordMessage, Readable, Play, FeedAll,
      SpecWanted, OwnDevice, NoStaleEvent, NoStaleAxis, WholePlan, NameField, Replies, Delivered, Conversation;
    var first := FeedAll(rule, cfg, index, Port(s, []), passwordCut, os);
    NothingFed(rule, cfg, index, Port(s, []), os);
    if cfg.password != [] {
      PasswordExchange(rule, cfg, index, s, cfg.password, passwordCut, os);
    }
    var s1 := first.port.slot;
    SetupExchange(rule, cfg, index, s1, src, setupCut, os);
    AxesMeaning(s.meta.absinfo, src, AllRequests(src));
    LeftoversExactly(cfg, s, src);
    assert FinalMeta(cfg, s1, src) == FinalMeta(cfg, s, src);
  }

  /** Resumption and the one-byte SUCCESS, whether or not a password is asked for:
      what a client is told about a slot that still has a device, in whatever pieces
      it arrives, never makes recv_message return. */
  lemma ResumedClientWaits(rule: Rule, cfg: Config, index: nat, s: Slot, passwordCut: seq<Bytes>, os: Os,
                           chunks: seq<Bytes>)
    requires Fresh(cfg, index, s, os) && s.evFd >= 0 && |cfg.password| + 1 <= 254
    requires if cfg.password != [] then Concat(passwordCut) == PasswordMessage(cfg.password) else passwordCut == []
    requires Digestible(rule, cfg, index, s, passwordCut, os)
    requires NonEmpty(chunks)
    requires Concat(chunks) == if cfg.password == [] then [s.status]
                               else Replies(FeedAll(rule, cfg, index, Port(s, []), passwordCut, os).effects)
    ensures Concat(chunks) == [SUCCESS] && ChunksNeeded(chunks, 0) > |chunks|
  {
    hide NoLoneHeader, FeedAll, PasswordMessage;
    if cfg.password != [] {
      PasswordExchange(rule, cfg, index, s, cfg.password, passwordCut, os);
      var effects := FeedAll(rule, cfg, index, Port(s, []), passwordCut, os).effects;
      RepliesOfTwo(effects[0], effects[1]);
    }
    WholeOrWaiting([SUCCESS], chunks);
  }

  /** The one-byte answer to a HELLO is a whole message, and so ends recv_message,
      unless the version differs, or no password is asked for and the slot given has
      a device: one asked for by number, or one the kernel refused to destroy. */
  lemma GreetingIsWhole(cfg: Config, w: World, i: nat, msg: Bytes, sent: bool, oses: Oses)
    requires Inv(cfg, w) && i < MAX_WAITING_CLIENTS && w.waiting[i].fd >= 0 && |msg| >= HELLO_SIZE
    ensures var g := Hello(cfg, w, i, msg, sent, oses); IsFrame([g.reply]) <==> Received([g.reply])
    ensures var g := Hello(cfg, w, i, msg, sent, oses); var c := Choose(w.ports, msg[2]);
            Received([g.reply]) <==>
              !(msg[0] == HELLO
                && (|| msg[1] != PROTOCOL_VERSION
                    || (cfg.password == [] && c.Take? && w.ports[c.u].slot.evFd >= 0)
                    || (cfg.password == [] && c.Evict? && oses(c.u)(w.ports[c.u].slot.calls) < 0)))
  {
    hide Exclusive, Accounted, BuffersOk, DevicesExclusive, DevicesOk, Authenticated;
    ChosenIsFree(cfg, w, msg[2]);
    forall u | 0 <= u < MAX_CLIENTS
      ensures w.ports[u].slot.evFd >= -1
    {
      assert SlotOk(cfg, w.ports[u].slot, w.kernel, w.history[u]);
    }
  }

  // ---------- HELLO in pieces ----------

  function Pieces(i: nat, chunks: seq<Bytes>): seq<Step> {
    seq(|chunks|, k requires 0 <= k < |chunks| => WaitBytes(i, chunks[k], true))
  }

  /** However the three bytes of a HELLO arrive at a waiting entry, the connection
      is promoted as if they had come at once. */
  lemma {:induction false} HelloInPieces(cfg: Config, w: World, i: nat, slot: Byte, chunks: seq<Bytes>, oses: Oses)
    requires Shaped(w) && i < MAX_WAITING_CLIENTS && NonEmpty(chunks)
    requires |w.waiting[i].pending| < HELLO_SIZE && w.waiting[i].pending + Concat(chunks) == HelloMessage(slot)
    ensures Run(cfg, w, Pieces(i, chunks), oses) == Hello(cfg, w, i, HelloMessage(slot), true, oses).world
    decreases |chunks|
  {
    hide Hello;
    assert chunks != [] by {
      assert |Concat(chunks)| > 0;
    }
    var c, more := chunks[0], chunks[1..];
    assert chunks == [c] + more;
    ConcatCons(c, more);
    var w1 := WaitStep(cfg, w, i, c, true, oses);
    var buf := w.waiting[i].pending + c;
    assert buf + Concat(more) == HelloMessage(slot);
    assert Pieces(i, chunks)[0] == WaitBytes(i, c, true) && Pieces(i, chunks)[1..] == Pieces(i, more);
    if |buf| < HELLO_SIZE {
      HelloInPieces(cfg, w1, i, slot, more, oses);
      HelloElsewhere(cfg, w, i, buf, HelloMessage(slot), oses);
    } else {
      assert buf == HelloMessage(slot) && Concat(more) == [];
      if more != [] {
        ConcatGrowsBy(more);
      }
      assert Pieces(i, []) == [] && Run(cfg, w1, [], oses) == w1;
    }
  }

  lemma ConcatGrowsBy(chunks: seq<Bytes>)
    requires chunks != [] && NonEmpty(chunks)
    ensures Concat(chunks) != []
  {}

  /** client_hello depends on the message, not on what else the entry remembers. */
  lemma HelloElsewhere(cfg: Config, w: World, i: nat, pending: Bytes, msg: Bytes, oses: Oses)
    requires Shaped(w) && i < MAX_WAITING_CLIENTS && |msg| >= HELLO_SIZE
    ensures var w1 := w.(waiting := w.waiting[i := w.waiting[i].(pending := pending)]);
            Hello(cfg, w1, i, msg, true, oses) == Hello(cfg, w, i, msg, true, oses)
  {
    hide Choose, Cleanup;
    var w1 := w.(waiting := w.waiting[i := w.waiting[i].(pending := pending)]);
    assert w1.waiting[i := Waiting(-1, [])] == w.waiting[i := Waiting(-1, [])];
  }
}
