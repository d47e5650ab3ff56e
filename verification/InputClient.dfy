/** The client: scanning the capabilities of the physical device, describing it to
    the server, and the handshake (client/input-client.c). */
module InputClient {
  import opened Wrappers
  import opened Protocol
  import opened Uinput
  import opened Slots

  // ---------- bitmaps ----------

  type Word = bv64

  /** The amount of a shift, from its binary digits. */
  function FromDigits(e: bool, d: bool, c: bool, b: bool, a: bool, z: bool): bv6 {
    (if e then 32 else 0) | (if d then 16 else 0) | (if c then 8 else 0)
    | (if b then 4 else 0) | (if a then 2 else 0) | (if z then 1 else 0)
  }

  /** What is left of i without a digit of weight n. */
  function Above(i: nat, n: nat): nat {
    if i >= n then i - n else i
  }

  function Amount(i: nat): bv6
    requires i < 64
  {
    var i5 := Above(i, 32);
    var i4 := Above(i5, 16);
    var i3 := Above(i4, 8);
    var i2 := Above(i3, 4);
    var i1 := Above(i2, 2);
    FromDigits(i >= 32, i5 >= 16, i4 >= 8, i3 >= 4, i2 >= 2, i1 >= 1)
  }

  predicate BitAt(w: Word, k: bv6) {
    w & ((1 as Word) << k) != 0
  }

  function WithBitAt(w: Word, k: bv6): Word {
    w | ((1 as Word) << k)
  }

  predicate Bit(words: seq<Word>, i: nat)
    requires i < 64 * |words|
  {
    BitAt(words[i / 64], Amount(i % 64))
  }

  /** The bitmap with one more bit set. */
  function WithBit(words: seq<Word>, i: nat): seq<Word>
    requires i < 64 * |words|
  {
    words[i / 64 := WithBitAt(words[i / 64], Amount(i % 64))]
  }

  lemma BitOfWord(w: Word, j: bv6, k: bv6)
    ensures BitAt(WithBitAt(w, j), k) <==> j == k || BitAt(w, k)
  {
    Shifted(w, j, k);
    assert WithBitAt(w, j) == w | ((1 as Word) << j);
  }

  lemma Shifted(w: Word, j: bv6, k: bv6)
    ensures (w | ((1 as Word) << j)) & ((1 as Word) << k) != 0 <==> j == k || w & ((1 as Word) << k) != 0
  {}

  lemma DigitsAsNumber(e: bool, d: bool, c: bool, b: bool, a: bool, z: bool)
    ensures FromDigits(e, d, c, b, a, z) as nat
         == (if e then 32 else 0) + (if d then 16 else 0) + (if c then 8 else 0)
            + (if b then 4 else 0) + (if a then 2 else 0) + (if z then 1 else 0)
  {}

  /** The amount of a shift is the number it is made from. */
  lemma AmountIs(i: nat)
    requires i < 64
    ensures Amount(i) as nat == i
  {
    hide FromDigits;
    var i5 := Above(i, 32);
    var i4 := Above(i5, 16);
    var i3 := Above(i4, 8);
    var i2 := Above(i3, 4);
    var i1 := Above(i2, 2);
    DigitsAsNumber(i >= 32, i5 >= 16, i4 >= 8, i3 >= 4, i2 >= 2, i1 >= 1);
  }

  /** Word and bit indexing is set membership: setting a bit adds exactly it. */
  lemma BitsAreASet(words: seq<Word>, i: nat, j: nat)
    requires i < 64 * |words| && j < 64 * |words|
    ensures Bit(WithBit(words, i), j) <==> i == j || Bit(words, j)
  {
    hide BitAt, WithBitAt, Amount;
    if i / 64 == j / 64 {
      BitOfWord(words[i / 64], Amount(i % 64), Amount(j % 64));
      AmountIs(i % 64);
      AmountIs(j % 64);
    }
  }

  // ---------- the capability scan ----------

  /** The codes of one event type: a bitmap of which the kernel filled `bytes`. */
  datatype RawKeyBits = RawKeyBits(words: seq<Word>, bytes: nat)

  type KeyBits = k: RawKeyBits | 8 * k.bytes <= 64 * |k.words| && k.bytes <= 96 witness RawKeyBits([], 0)

  /** What the kernel answers about the physical device; None is a failed ioctl.
      `typeBytes` is the result of the query for the event types. The name is the
      configured one or else the device's. */
  datatype Source = Source(id: Option<Bytes>, name: Option<CString>, types: seq<Word>, typeBytes: int,
                           keys: nat -> Option<KeyBits>, axes: nat -> Option<AbsInfo>)

  predicate WellFormed(src: Source) {
    (src.id.Some? ==> |src.id.value| == 8) && |src.types| == EV_MAX
  }

  predicate Scanned(src: Source, kind: nat)
    requires WellFormed(src) && kind < EV_MAX
  {
    kind != EV_REP && kind != EV_LED && Bit(src.types, kind)
  }

  /** The event types, the bitmap of every scanned type and the info of every axis
      can be read. */
  predicate Readable(src: Source)
    requires WellFormed(src)
  {
    && src.typeBytes > 0
    && forall kind: nat | kind < EV_MAX && Scanned(src, kind) :: KindReadable(src, kind)
  }

  predicate KindReadable(src: Source, kind: nat) {
    && src.keys(kind).Some?
    && (kind == EV_ABS ==>
          forall code: nat | code < 8 * src.keys(kind).value.bytes && Bit(src.keys(kind).value.words, code) ::
            src.axes(code).Some?)
  }

  /** The set bits below n of one type, in increasing order. */
  function Codes(kind: Word16, bits: KeyBits, n: nat): seq<EventId>
    requires n <= 8 * bits.bytes
  {
    if n == 0 then []
    else if Bit(bits.words, n - 1) then Codes(kind, bits, n - 1) + [EventId(kind, n - 1)]
    else Codes(kind, bits, n - 1)
  }

  function CodesOf(src: Source, kind: nat): seq<EventId>
    requires kind < EV_MAX
  {
    match src.keys(kind)
    case Some(bits) => Codes(kind, bits, 8 * bits.bytes)
    case None => []
  }

  /** The event types and codes below n that the device has, in increasing order. */
  function Requests(src: Source, n: nat): seq<EventId>
    requires WellFormed(src) && n <= |src.types|
  {
    if n == 0 then []
    else Requests(src, n - 1) + if Scanned(src, n - 1) then CodesOf(src, n - 1) else []
  }

  function AllRequests(src: Source): seq<EventId>
    requires WellFormed(src)
  {
    Requests(src, |src.types|)
  }

  predicate Before(a: EventId, b: EventId) {
    a.kind < b.kind || (a.kind == b.kind && a.code < b.code)
  }

  /** Strictly increasing, so nothing occurs twice. */
  predicate Increasing(ids: seq<EventId>) {
    forall p, q | 0 <= p < q < |ids| :: Before(ids[p], ids[q])
  }

  lemma IncreasingAppend(a: seq<EventId>, b: seq<EventId>)
    requires Increasing(a) && Increasing(b)
    requires forall x, y | x in a && y in b :: Before(x, y)
    ensures Increasing(a + b)
  {}

  predicate HasCode(bits: KeyBits, code: nat) {
    code < 8 * bits.bytes && Bit(bits.words, code)
  }

  /** The device has the event. */
  predicate Has(src: Source, e: EventId)
    requires WellFormed(src)
  {
    && e.kind < EV_MAX
    && Scanned(src, e.kind)
    && src.keys(e.kind).Some?
    && HasCode(src.keys(e.kind).value, e.code)
  }

  lemma {:induction false} CodesMeaning(kind: Word16, bits: KeyBits, n: nat)
    requires n <= 8 * bits.bytes
    ensures forall e :: e in Codes(kind, bits, n) <==> e.kind == kind && e.code < n && HasCode(bits, e.code)
    ensures Increasing(Codes(kind, bits, n))
  {
    hide Bit;
    if n > 0 {
      CodesMeaning(kind, bits, n - 1);
      IncreasingAppend(Codes(kind, bits, n - 1), [EventId(kind, n - 1)]);
    }
  }

  lemma {:induction false} RequestsMeaning(src: Source, n: nat)
    requires WellFormed(src) && n <= |src.types|
    ensures forall e :: e in Requests(src, n) <==> e.kind < n && Has(src, e)
    ensures Increasing(Requests(src, n))
  {
    hide Bit, Codes, Increasing, HasCode, Scanned;
    if n == 0 {
      EmptyIncreasing();
    } else {
      RequestsMeaning(src, n - 1);
      CodesOfMeaning(src, n - 1);
      if Scanned(src, n - 1) {
        IncreasingAppend(Requests(src, n - 1), CodesOf(src, n - 1));
      } else {
        assert Requests(src, n - 1) + [] == Requests(src, n - 1);
      }
    }
  }

  lemma EmptyIncreasing()
    ensures Increasing([])
  {}

  lemma CodesOfMeaning(src: Source, kind: nat)
    requires kind < EV_MAX
    ensures forall e :: e in CodesOf(src, kind) <==>
              e.kind == kind && src.keys(kind).Some? && HasCode(src.keys(kind).value, e.code)
    ensures Increasing(CodesOf(src, kind))
  {
    if src.keys(kind).Some? {
      CodesMeaning(kind, src.keys(kind).value, 8 * src.keys(kind).value.bytes);
    }
  }

  /** The capability scan requests exactly the set bits, each once, in increasing
      (type, code) order, and never those of EV_REP and EV_LED. */
  lemma CapabilityScan(src: Source)
    requires WellFormed(src)
    ensures forall e :: e in AllRequests(src) <==>
              e.kind < EV_MAX && e.kind != EV_REP && e.kind != EV_LED && Bit(src.types, e.kind)
              && src.keys(e.kind).Some? && HasCode(src.keys(e.kind).value, e.code)
    ensures Increasing(AllRequests(src))
  {
    hide Requests, Bit, HasCode, Increasing;
    RequestsMeaning(src, |src.types|);
  }

  // ---------- the messages of the scan ----------

  function EncodeAbsInfo(axis: nat, info: AbsInfo): Bytes {
    [ABSINFO, axis % 0x100] + info
  }

  /** The messages for one request: an axis is followed by its info at once. */
  function MessagesFor(src: Source, id: EventId): seq<Bytes> {
    if id.kind != EV_ABS then [EncodeRequest(id)]
    else match src.axes(id.code)
      case Some(info) => [EncodeRequest(id), EncodeAbsInfo(id.code, info)]
      case None => [EncodeRequest(id)]
  }

  function Messages(src: Source, ids: seq<EventId>): seq<Bytes> {
    if ids == [] then []
    else Messages(src, ids[..|ids| - 1]) + MessagesFor(src, ids[|ids| - 1])
  }

  lemma {:induction false} MessagesAppend(src: Source, a: seq<EventId>, b: seq<EventId>)
    ensures Messages(src, a + b) == Messages(src, a) + Messages(src, b)
    decreases |b|
  {
    if b == [] {
      assert a + b == a;
    } else {
      var k := |b| - 1;
      assert (a + b)[..|a + b| - 1] == a + b[..k];
      MessagesAppend(src, a, b[..k]);
      Assoc(Messages(src, a), Messages(src, b[..k]), MessagesFor(src, b[k]));
    }
  }

  lemma MessagesOfOne(src: Source, id: EventId)
    ensures Messages(src, [id]) == MessagesFor(src, id)
  {}

  /** The events that messages ask for, in their order. */
  function Asked(msgs: seq<Bytes>): seq<EventId> {
    if msgs == [] then []
    else
      var last := msgs[|msgs| - 1];
      Asked(msgs[..|msgs| - 1])
      + if |last| == REQUEST_EVENT_SIZE && last[0] == REQUEST_EVENT then [DecodeRequest(last)] else []
  }

  /** The message at p asks for an event; if that is an axis whose info can be read, the
      info comes next. */
  predicate AsksAt(src: Source, msgs: seq<Bytes>, p: nat)
    requires p < |msgs|
  {
    && |msgs[p]| == REQUEST_EVENT_SIZE
    && msgs[p][0] == REQUEST_EVENT
    && var id := DecodeRequest(msgs[p]);
       id.kind == EV_ABS && src.axes(id.code).Some? ==> p + 1 < |msgs| && InfoAt(src, msgs, p + 1)
  }

  /** The message at p holds the info of the axis that the message before it asks for. */
  predicate InfoAt(src: Source, msgs: seq<Bytes>, p: nat)
    requires p < |msgs|
  {
    && p > 0
    && |msgs[p - 1]| == REQUEST_EVENT_SIZE
    && msgs[p - 1][0] == REQUEST_EVENT
    && var id := DecodeRequest(msgs[p - 1]);
       id.kind == EV_ABS && src.axes(id.code).Some? && msgs[p] == [ABSINFO, id.code % 0x100] + src.axes(id.code).value
  }

  /** The messages ask for the events in their order, each once; the info of an axis
      comes directly behind its request and nowhere else; there is no other message. */
  lemma {:induction false} RequestThenInfo(src: Source, ids: seq<EventId>)
    ensures var msgs := Messages(src, ids);
            && Asked(msgs) == ids
            && forall p: nat | p < |msgs| :: AsksAt(src, msgs, p) || InfoAt(src, msgs, p)
    decreases |ids|
  {
    hide EncodeRequest, DecodeRequest, AsksAt, InfoAt;
    if ids != [] {
      var before, id := ids[..|ids| - 1], ids[|ids| - 1];
      RequestThenInfo(src, before);
      OneAsked(src, id);
      AskedAppend(Messages(src, before), MessagesFor(src, id));
      PairsAppend(src, Messages(src, before), MessagesFor(src, id));
    }
  }

  lemma OneAsked(src: Source, id: EventId)
    ensures var msgs := MessagesFor(src, id);
            && Asked(msgs) == [id]
            && forall p: nat | p < |msgs| :: AsksAt(src, msgs, p) || InfoAt(src, msgs, p)
  {
    hide EncodeRequest, DecodeRequest;
    RequestRoundTrip(id);
    var request := EncodeRequest(id);
    FirstByte(id);
    var one: seq<Bytes> := [request];
    assert one[..0] == [];
    assert Asked(one) == [id];
    if id.kind == EV_ABS && src.axes(id.code).Some? {
      var info := EncodeAbsInfo(id.code, src.axes(id.code).value);
      assert [request, info][..1] == one;
    }
  }

  lemma FirstByte(id: EventId)
    ensures |EncodeRequest(id)| == REQUEST_EVENT_SIZE && EncodeRequest(id)[0] == REQUEST_EVENT
  {}

  lemma {:induction false} AskedAppend(a: seq<Bytes>, b: seq<Bytes>)
    ensures Asked(a + b) == Asked(a) + Asked(b)
    decreases |b|
  {
    hide DecodeRequest;
    if b == [] {
      assert a + b == a;
    } else {
      assert (a + b)[..|a + b| - 1] == a + b[..|b| - 1];
      AskedAppend(a, b[..|b| - 1]);
    }
  }

  lemma PairsAppend(src: Source, a: seq<Bytes>, b: seq<Bytes>)
    requires forall p: nat | p < |a| :: AsksAt(src, a, p) || InfoAt(src, a, p)
    requires forall p: nat | p < |b| :: AsksAt(src, b, p) || InfoAt(src, b, p)
    ensures forall p: nat | p < |a + b| :: AsksAt(src, a + b, p) || InfoAt(src, a + b, p)
  {
    hide DecodeRequest;
    forall p: nat | p < |a + b|
      ensures AsksAt(src, a + b, p) || InfoAt(src, a + b, p)
    {
      if p < |a| {
        assert AsksAt(src, a, p) || InfoAt(src, a, p);
      } else {
        assert AsksAt(src, b, p - |a|) || InfoAt(src, b, p - |a|);
      }
    }
  }

  lemma NextCode(src: Source, kind: Word16, bits: KeyBits, j: nat)
    requires j < 8 * bits.bytes
    ensures Messages(src, Codes(kind, bits, j + 1))
         == Messages(src, Codes(kind, bits, j))
            + (if Bit(bits.words, j) then MessagesFor(src, EventId(kind, j)) else [])
  {
    hide Bit, MessagesFor;
    if Bit(bits.words, j) {
      MessagesAppend(src, Codes(kind, bits, j), [EventId(kind, j)]);
      MessagesOfOne(src, EventId(kind, j));
    }
  }

  lemma NextKind(src: Source, i: nat)
    requires WellFormed(src) && i < |src.types|
    ensures Messages(src, Requests(src, i + 1))
         == Messages(src, Requests(src, i)) + (if Scanned(src, i) then Messages(src, CodesOf(src, i)) else [])
  {
    hide Bit, CodesOf, Scanned;
    if Scanned(src, i) {
      MessagesAppend(src, Requests(src, i), CodesOf(src, i));
    } else {
      assert Requests(src, i) + [] == Requests(src, i);
    }
  }

  lemma MessagesPrefix(src: Source, a: seq<EventId>, b: seq<EventId>)
    requires a <= b
    ensures Messages(src, a) <= Messages(src, b)
  {
    hide Messages;
    assert b == a + b[|a|..];
    MessagesAppend(src, a, b[|a|..]);
  }

  lemma {:induction false} CodesPrefix(kind: Word16, bits: KeyBits, m: nat, n: nat)
    requires m <= n <= 8 * bits.bytes
    ensures Codes(kind, bits, m) <= Codes(kind, bits, n)
  {
    hide Bit;
    if m < n {
      CodesPrefix(kind, bits, m, n - 1);
    }
  }

  lemma {:induction false} RequestsPrefix(src: Source, m: nat, n: nat)
    requires WellFormed(src) && m <= n <= |src.types|
    ensures Requests(src, m) <= Requests(src, n)
  {
    hide Bit, CodesOf, Scanned;
    if m < n {
      RequestsPrefix(src, m, n - 1);
    }
  }

  /** The messages from `start` on can be sent. */
  predicate AllSendable(sendable: nat -> bool, start: nat, msgs: seq<Bytes>) {
    forall n | start <= n < start + |msgs| :: sendable(n)
  }

  lemma SendableParts(sendable: nat -> bool, start: nat, a: seq<Bytes>, b: seq<Bytes>)
    ensures AllSendable(sendable, start, a + b)
       <==> AllSendable(sendable, start, a) && AllSendable(sendable, start + |a|, b)
  {}

  /** send_key_info. `sendable(n)` tells whether the n-th message of this connection
      can be sent; `start` were sent before. */
  method SendKeyInfo(src: Source, start: nat, sendable: nat -> bool) returns (ok: bool, sent: seq<Bytes>)
    requires WellFormed(src)
    ensures var all := Messages(src, AllRequests(src));
            && sent <= all
            && (ok ==> sent == all)
            && (ok <==> Readable(src) && AllSendable(sendable, start, all))
            && AllSendable(sendable, start, sent)
            && (!ok && Readable(src) ==> |sent| < |all| && !sendable(start + |sent|))
  {
    hide Messages, Requests, CodesOf, KindReadable, Bit;
    NoMessages(src);
    sent := [];
    if src.typeBytes <= 0 {
      return false, sent;
    }
    for i := 0 to |src.types|
      invariant sent == Messages(src, Requests(src, i)) && AllSendable(sendable, start, sent)
      invariant forall kind: nat | kind < i && Scanned(src, kind) :: KindReadable(src, kind)
    {
      NextKind(src, i);
      if i == EV_REP || i == EV_LED {
        assert sent + [] == sent;
        continue;
      }
      if Bit(src.types, i) {
        assert Scanned(src, i);
        RequestsPrefix(src, i + 1, |src.types|);
        MessagesPrefix(src, Requests(src, i + 1), AllRequests(src));
        if src.keys(i).None? {
          Unreadable(src, i);
          return false, sent;
        }
        var more;
        ok, more := SendCodes(src, i, src.keys(i).value, start + |sent|, sendable);
        sent := sent + more;
        if !ok {
          return;
        }
      } else {
        assert sent + [] == sent;
      }
    }
    ok := true;
  }

  lemma NoMessages(src: Source)
    requires WellFormed(src)
    ensures Messages(src, Requests(src, 0)) == []
  {}

  lemma Unreadable(src: Source, kind: nat)
    requires src.keys(kind).None?
    ensures !KindReadable(src, kind)
  {}

  /** The inner loop of send_key_info over the codes of one type. */
  method SendCodes(src: Source, kind: nat, bits: KeyBits, start: nat, sendable: nat -> bool)
    returns (ok: bool, sent: seq<Bytes>)
    requires kind < EV_MAX && src.keys(kind) == Some(bits)
    ensures var all := Messages(src, CodesOf(src, kind));
            && sent <= all
            && (ok ==> sent == all)
            && (ok <==> KindReadable(src, kind) && AllSendable(sendable, start, all))
            && AllSendable(sendable, start, sent)
            && (!ok && KindReadable(src, kind) ==> |sent| < |all| && !sendable(start + |sent|))
  {
    hide Messages, Codes, Bit, EncodeRequest, EncodeAbsInfo;
    NoCodes(src, kind, bits);
    sent := [];
    ghost var all := Messages(src, CodesOf(src, kind));
    for j := 0 to 8 * bits.bytes
      invariant sent == Messages(src, Codes(kind, bits, j)) && AllSendable(sendable, start, sent)
      invariant kind == EV_ABS ==> forall code: nat | code < j && Bit(bits.words, code) :: src.axes(code).Some?
    {
      NextCode(src, kind, bits, j);
      CodesPrefix(kind, bits, j + 1, 8 * bits.bytes);
      MessagesPrefix(src, Codes(kind, bits, j + 1), CodesOf(src, kind));
      if Bit(bits.words, j) {
        assert sent + [EncodeRequest(EventId(kind, j))] <= all;
        if !sendable(start + |sent|) {
          return false, sent;
        }
        sent := sent + [EncodeRequest(EventId(kind, j))];
        if kind == EV_ABS {
          var info := src.axes(j);
          if info.None? {
            return false, sent;
          }
          assert sent + [EncodeAbsInfo(j, info.value)] <= all;
          if !sendable(start + |sent|) {
            return false, sent;
          }
          sent := sent + [EncodeAbsInfo(j, info.value)];
        }
      } else {
        assert sent + [] == sent;
      }
    }
    ok := true;
  }

  lemma NoCodes(src: Source, kind: Word16, bits: KeyBits)
    ensures Messages(src, Codes(kind, bits, 0)) == []
  {}
}
