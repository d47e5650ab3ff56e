/** The wire protocol shared by the server and its clients: message types, the
    length table that all framing rests on, and the layout of the messages. */
module Protocol {

  type Byte = b: int | 0 <= b < 0x100
  type Bytes = seq<Byte>
  type Word16 = w: int | 0 <= w < 0x1_0000
  type Int32 = v: int | -0x8000_0000 <= v < 0x8000_0000

  const PROTOCOL_VERSION: Byte := 0x05
  const INPUT_BUFFER_SIZE: nat := 1024

  const UNCONN: Byte := 0x00
  const HELLO: Byte := 0x01
  const PASSWORD: Byte := 0x02
  const ABSINFO: Byte := 0x03
  const DEVICE: Byte := 0x04
  const SETUP_END: Byte := 0x05
  const REQUEST_EVENT: Byte := 0x06
  const DATA: Byte := 0x10
  const SUCCESS: Byte := 0xF0
  const VERSION_MISMATCH: Byte := 0xF1
  const INVALID_PASSWORD: Byte := 0xF2
  const INVALID_CLIENT_SLOT: Byte := 0xF3
  const INVALID: Byte := 0xF4
  const PASSWORD_REQUIRED: Byte := 0xF5
  const SETUP_REQUIRED: Byte := 0xF6
  const CLIENT_SLOT_IN_USE: Byte := 0xF7
  const CLIENT_SLOTS_EXHAUSTED: Byte := 0xF8
  const QUIT: Byte := 0xF9

  // Sizes of the packed message structs without their variable part.
  const HELLO_SIZE := 3
  const PASSWORD_SIZE := 2
  const ABSINFO_SIZE := 26
  const DEVICE_SIZE := 10
  const REQUEST_EVENT_SIZE := 5
  const DATA_SIZE := 9

  // The longest frame is a DEVICE message with a 255 byte name.
  const MAX_FRAME := DEVICE_SIZE + 0xFF

  // Limits of linux/input-event-codes.h and linux/uinput.h.
  const EV_MAX := 0x1F
  const KEY_MAX := 0x2FF
  const ABS_CNT := 0x40
  const UINPUT_MAX_NAME_SIZE := 80

  const EV_SYN := 0x00
  const EV_KEY := 0x01
  const EV_REL := 0x02
  const EV_ABS := 0x03
  const EV_MSC := 0x04
  const EV_LED := 0x11
  const EV_REP := 0x14

  /** The length table: -1 for bytes that are no message type. */
  function MessageLength(t: Byte): int {
    if t == HELLO then HELLO_SIZE
    else if t == PASSWORD then PASSWORD_SIZE
    else if t == ABSINFO then ABSINFO_SIZE
    else if t == DEVICE then DEVICE_SIZE
    else if t == REQUEST_EVENT then REQUEST_EVENT_SIZE
    else if t == SETUP_END then 1
    else if t == DATA then DATA_SIZE
    else if t == SUCCESS || t == VERSION_MISMATCH then 2
    else if INVALID_PASSWORD <= t <= QUIT then 1
    else -1
  }

  predicate VariableLength(t: Byte) {
    t == PASSWORD || t == DEVICE
  }

  /** The size of the message at the head of the buffer; 0 when its length byte
      has not arrived yet, -1 when its type byte is no message type. */
  function SizeFromCommand(buf: Bytes): int
    requires |buf| > 0
  {
    if VariableLength(buf[0]) then
      if |buf| > 1 then MessageLength(buf[0]) + buf[1] else 0
    else
      MessageLength(buf[0])
  }

  /** A byte string that is exactly one message. */
  predicate IsFrame(msg: Bytes) {
    |msg| > 0 && SizeFromCommand(msg) == |msg|
  }

  predicate AllFrames(msgs: seq<Bytes>) {
    forall m | m in msgs :: IsFrame(m)
  }

  /** A variable-length message of which only the type byte has arrived. */
  predicate LoneHeader(buf: Bytes) {
    |buf| == 1 && VariableLength(buf[0])
  }

  /** A buffer that no further byte can make progress: its head is no message type. */
  predicate Stuck(buf: Bytes) {
    |buf| > 0 && MessageLength(buf[0]) < 0
  }

  // ---------- byte orders ----------

  function Be16(w: Word16): Bytes {
    [w / 0x100, w % 0x100]
  }

  function FromBe16(b: Bytes): Word16
    requires |b| == 2
  {
    var high: int, low: int := b[0], b[1];
    high * 0x100 + low
  }

  /** Two's complement, most significant byte first. */
  function Be32(v: Int32): Bytes {
    var u := if v < 0 then v + 0x1_0000_0000 else v;
    Be16(u / 0x1_0000) + Be16(u % 0x1_0000)
  }

  function FromBe32(b: Bytes): Int32
    requires |b| == 4
  {
    var high: int, low: int := FromBe16(b[..2]), FromBe16(b[2..]);
    var u := high * 0x1_0000 + low;
    if u < 0x8000_0000 then u else u - 0x1_0000_0000
  }

  /** Host order of the (little-endian) machines the struct fields are copied from. */
  function Le16(w: Word16): Bytes {
    [w % 0x100, w / 0x100]
  }

  function FromLe16(b: Bytes): Word16
    requires |b| == 2
  {
    var low: int, high: int := b[0], b[1];
    low + high * 0x100
  }

  /** Two's complement, in host order. */
  function FromLe32(b: Bytes): Int32
    requires |b| == 4
  {
    var low: int, high: int := FromLe16(b[..2]), FromLe16(b[2..]);
    var u := low + high * 0x1_0000;
    if u < 0x8000_0000 then u else u - 0x1_0000_0000
  }

  // ---------- messages ----------

  datatype InputEvent = InputEvent(kind: Word16, code: Word16, value: Int32)

  /** An event type and code pair, as REQUEST_EVENT names it. */
  datatype EventId = EventId(kind: Word16, code: Word16)

  function EncodeData(e: InputEvent): Bytes {
    [DATA] + Be16(e.kind) + Be16(e.code) + Be32(e.value)
  }

  function DecodeData(msg: Bytes): InputEvent
    requires |msg| == DATA_SIZE
  {
    InputEvent(FromBe16(msg[1..3]), FromBe16(msg[3..5]), FromBe32(msg[5..9]))
  }

  function EncodeRequest(id: EventId): Bytes {
    [REQUEST_EVENT] + Le16(id.kind) + Le16(id.code)
  }

  function DecodeRequest(msg: Bytes): EventId
    requires |msg| == REQUEST_EVENT_SIZE
  {
    EventId(FromLe16(msg[1..3]), FromLe16(msg[3..5]))
  }

  /** The byte swap is lossless in both directions: every event is read back as
      it was sent, and every DATA frame is the encoding of the event it decodes to. */
  lemma DataRoundTrip(e: InputEvent, msg: Bytes)
    requires |msg| == DATA_SIZE && msg[0] == DATA
    ensures |EncodeData(e)| == DATA_SIZE && DecodeData(EncodeData(e)) == e
    ensures EncodeData(DecodeData(msg)) == msg
  {
    var m := EncodeData(e);
    assert m[1..3] == Be16(e.kind) && m[3..5] == Be16(e.code) && m[5..9] == Be32(e.value);
    Be32RoundTrip(e.value);
    Be32Surjective(msg[5..9]);
    assert msg == [msg[0]] + msg[1..3] + msg[3..5] + msg[5..9];
  }

  lemma Be32RoundTrip(v: Int32)
    ensures FromBe32(Be32(v)) == v
  {}

  lemma Be32Surjective(b: Bytes)
    requires |b| == 4
    ensures Be32(FromBe32(b)) == b
  {
    hide Be16, FromBe16;
    Be16Surjective(b[..2]);
    Be16Surjective(b[2..]);
    var high: int, low: int := FromBe16(b[..2]), FromBe16(b[2..]);
    var u := high * 0x1_0000 + low;
    assert u / 0x1_0000 == high && u % 0x1_0000 == low;
    assert b == b[..2] + b[2..];
  }

  lemma Be16Surjective(b: Bytes)
    requires |b| == 2
    ensures Be16(FromBe16(b)) == b
  {}

  lemma RequestRoundTrip(id: EventId)
    ensures IsFrame(EncodeRequest(id))
    ensures DecodeRequest(EncodeRequest(id)) == id
  {}

  // ---------- tokenizing a byte stream ----------

  datatype Tokens = Tokens(frames: seq<Bytes>, rest: Bytes)

  /** The size of the complete message at the head of a stream, 0 without one. */
  function HeadFrame(stream: Bytes): nat {
    if stream == [] then 0
    else
      var n := SizeFromCommand(stream);
      if n <= 0 || |stream| < n then 0 else n
  }

  /** Splits a stream into its complete messages and the unfinished tail. This
      reads nothing but the bytes: no status, no buffer, no arrival times. */
  function Frames(stream: Bytes): Tokens
    decreases |stream|
  {
    var n := HeadFrame(stream);
    if n == 0 || |stream| < n then Tokens([], stream)
    else
      var t := Frames(stream[n..]);
      Tokens([stream[..n]] + t.frames, t.rest)
  }

  function Concat(chunks: seq<Bytes>): Bytes {
    if chunks == [] then [] else Concat(chunks[..|chunks| - 1]) + chunks[|chunks| - 1]
  }

  /** Tokenizing loses and invents nothing: the frames and the tail are the
      stream, every frame is one message, and the tail holds no further one. */
  lemma FramesPartition(stream: Bytes)
    ensures Concat(Frames(stream).frames) + Frames(stream).rest == stream
    ensures AllFrames(Frames(stream).frames)
    ensures HeadFrame(Frames(stream).rest) == 0
  {
    FramesJoin(stream);
    FramesAreFrames(stream);
  }

  lemma {:induction false} FramesJoin(stream: Bytes)
    ensures Concat(Frames(stream).frames) + Frames(stream).rest == stream
    decreases |stream|
  {
    hide HeadFrame;
    var n := HeadFrame(stream);
    if 0 < n <= |stream| {
      var t := Frames(stream[n..]);
      FramesJoin(stream[n..]);
      ConcatCons(stream[..n], t.frames);
      JoinAt(stream, n, Concat(t.frames), t.rest);
    }
  }

  lemma JoinAt(stream: Bytes, n: nat, a: Bytes, b: Bytes)
    requires n <= |stream| && a + b == stream[n..]
    ensures stream[..n] + a + b == stream
  {}

  lemma Assoc<T>(a: seq<T>, b: seq<T>, c: seq<T>)
    ensures a + b + c == a + (b + c)
  {}

  lemma {:induction false} FramesAreFrames(stream: Bytes)
    ensures AllFrames(Frames(stream).frames)
    ensures HeadFrame(Frames(stream).rest) == 0
    decreases |stream|
  {
    hide HeadFrame, SizeFromCommand;
    var n := HeadFrame(stream);
    HeadIsFrame(stream);
    if n > 0 {
      FramesAreFrames(stream[n..]);
    }
  }

  lemma {:induction false} ConcatCons(a: Bytes, chunks: seq<Bytes>)
    ensures Concat([a] + chunks) == a + Concat(chunks)
  {
    var all := [a] + chunks;
    if chunks == [] {
      assert all[..|all| - 1] == [];
    } else {
      var k := |chunks| - 1;
      assert all[..|all| - 1] == [a] + chunks[..k];
      ConcatCons(a, chunks[..k]);
    }
  }

  lemma HeadIsFrame(stream: Bytes)
    ensures HeadFrame(stream) <= |stream|
    ensures HeadFrame(stream) > 0 ==> IsFrame(stream[..HeadFrame(stream)])
  {}

  /** A complete head keeps its size when more bytes arrive. */
  lemma HeadStable(a: Bytes, b: Bytes)
    requires HeadFrame(a) > 0
    ensures HeadFrame(a + b) == HeadFrame(a)
  {}

  /** Tokenizing can resume from the tail of an earlier prefix. */
  lemma {:induction false} FramesAppend(a: Bytes, b: Bytes)
    ensures Frames(a + b)
         == var t := Frames(a); var u := Frames(t.rest + b); Tokens(t.frames + u.frames, u.rest)
    decreases |a|
  {
    hide HeadFrame;
    var n := HeadFrame(a);
    HeadIsFrame(a);
    if n > 0 {
      HeadStable(a, b);
      assert (a + b)[..n] == a[..n] && (a + b)[n..] == a[n..] + b;
      FramesAppend(a[n..], b);
      var t := Frames(a[n..]);
      assert [a[..n]] + (t.frames + Frames(t.rest + b).frames) == ([a[..n]] + t.frames) + Frames(t.rest + b).frames;
    } else {
      assert [] + Frames(a + b).frames == Frames(a + b).frames;
    }
  }

  /** An unfinished tail is shorter than the longest message, or stuck. */
  lemma {:induction false} RestBound(stream: Bytes)
    ensures var rest := Frames(stream).rest; |rest| < MAX_FRAME || Stuck(rest)
    decreases |stream|
  {
    var n := HeadFrame(stream);
    if n > 0 {
      RestBound(stream[n..]);
    }
  }

  lemma FramesOfOne(msg: Bytes)
    requires IsFrame(msg)
    ensures Frames(msg) == Tokens([msg], [])
  {
    assert msg[..|msg|] == msg && msg[|msg|..] == [];
    assert Frames([]) == Tokens([], []);
  }

  /** A stream of complete messages tokenizes into exactly these messages. */
  lemma {:induction false} FramesOfFrames(msgs: seq<Bytes>)
    requires AllFrames(msgs)
    ensures Frames(Concat(msgs)) == Tokens(msgs, [])
  {
    if msgs != [] {
      var k := |msgs| - 1;
      FramesOfFrames(msgs[..k]);
      FramesAppend(Concat(msgs[..k]), msgs[k]);
      FramesOfOne(msgs[k]);
      assert [] + msgs[k] == msgs[k];
      assert msgs == msgs[..k] + [msgs[k]];
    }
  }
}
