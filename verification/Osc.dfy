/** Reading OpenSound Control messages (osc_parse and osc_param_float of
    osc/osc-xlater.c) against the encoding of the OpenSound Control 1.0
    specification, "Atomic Data Types" and "OSC Type Tag String". */
module Osc {
  import opened Protocol

  const COMMA: Byte := 0x2C
  const FLOAT_TAG: Byte := 0x66

  type Word32 = w: int | 0 <= w < 0x1_0000_0000

  /** Rounds up to a multiple of four. */
  function NextDword(a: nat): nat {
    (a / 4 + if a % 4 != 0 then 1 else 0) * 4
  }

  /** The least multiple of four that is not below a. */
  lemma NextDwordIsRoundUp(a: nat, b: nat)
    ensures NextDword(a) % 4 == 0 && a <= NextDword(a) < a + 4
    ensures b % 4 == 0 && a <= b ==> NextDword(a) <= b
  {}

  /** The position of the first NUL from i on, |mem| if there is none. */
  function StrEnd(mem: Bytes, i: nat): (r: nat)
    requires i <= |mem|
    ensures i <= r <= |mem| && (r < |mem| ==> mem[r] == 0)
    ensures forall j | i <= j < r :: mem[j] != 0
    decreases |mem| - i
  {
    if i == |mem| || mem[i] == 0 then i else StrEnd(mem, i + 1)
  }

  datatype Parsed =
    | Message(pathLength: nat, args: nat, data: nat)
    | Malformed
    | OutOfBuffer   // a string function runs off the end of the buffer

  /** osc_parse. `mem` is the whole buffer, of which the message is the first `len`
      bytes; behind them lies what earlier messages left. */
  function Parse(mem: Bytes, len: nat): Parsed
    requires len <= |mem|
  {
    var pathLength := StrEnd(mem, 0);
    if pathLength >= len then Malformed
    else
      var param := NextDword(pathLength + 1);
      if param > |mem| || StrEnd(mem, param) == |mem| then OutOfBuffer
      else
        var paramEnd := StrEnd(mem, param);
        var data := param + NextDword(paramEnd - param + 1);
        if paramEnd > len || data > len then Malformed
        else if mem[param] != COMMA then Malformed
        else Message(pathLength, paramEnd - (param + 1), data)
  }

  /** osc_param_float: the bit pattern of the index-th argument. The bytes are
      reversed into a little-endian float. */
  method ParamFloat(data: Bytes, index: nat) returns (bits: Word32)
    requires index * 4 + 4 <= |data|
    ensures bits == FromBigEndian(data[index * 4..index * 4 + 4])
  {
    var conv := new Byte[4];
    for u := 0 to 4
      invariant forall k | 4 - u <= k < 4 :: conv[k] == data[index * 4 + 3 - k]
    {
      conv[3 - u] := data[index * 4 + u];
    }
    bits := FromLittleEndian(conv[..]);
  }

  function FromLittleEndian(b: Bytes): Word32
    requires |b| == 4
  {
    var low: int, high: int := FromLe16(b[..2]), FromLe16(b[2..]);
    low + high * 0x1_0000
  }

  function FromBigEndian(b: Bytes): Word32
    requires |b| == 4
  {
    var high: int, low: int := FromBe16(b[..2]), FromBe16(b[2..]);
    high * 0x1_0000 + low
  }

  // ---------- the encoding ----------

  type Text = s: Bytes | 0 !in s

  /** An OSC-string: the characters, a NUL, and NULs up to a multiple of four. */
  function OscString(s: Text): Bytes {
    s + seq(NextDword(|s| + 1) - |s|, _ => 0)
  }

  function BigEndian(w: Word32): Bytes {
    Be16(w / 0x1_0000) + Be16(w % 0x1_0000)
  }

  function Floats(args: seq<Word32>): Bytes {
    if args == [] then [] else BigEndian(args[0]) + Floats(args[1..])
  }

  function TypeTags(n: nat): Text {
    [COMMA] + seq(n, _ => FLOAT_TAG)
  }

  function Encode(path: Text, args: seq<Word32>): Bytes {
    OscString(path) + OscString(TypeTags(|args|)) + Floats(args)
  }

  lemma {:induction false} FloatsAt(args: seq<Word32>, i: nat)
    requires i < |args|
    ensures |Floats(args)| == 4 * |args|
    ensures Floats(args)[4 * i..4 * i + 4] == BigEndian(args[i])
  {
    FloatsSize(args);
    FloatsSize(args[1..]);
    if i > 0 {
      FloatsAt(args[1..], i - 1);
      var rest := Floats(args[1..]);
      assert Floats(args)[4 * i..4 * i + 4] == rest[4 * (i - 1)..4 * (i - 1) + 4];
    }
  }

  lemma {:induction false} FloatsSize(args: seq<Word32>)
    ensures |Floats(args)| == 4 * |args|
  {
    if args != [] {
      FloatsSize(args[1..]);
    }
  }

  lemma BigEndianRoundTrip(w: Word32)
    ensures FromBigEndian(BigEndian(w)) == w
  {}

  /** Finding the end of an OSC-string that lies in memory. */
  lemma StringEnd(mem: Bytes, i: nat, s: Text)
    requires i + |OscString(s)| <= |mem| && mem[i..i + |OscString(s)|] == OscString(s)
    ensures StrEnd(mem, i) == i + |s| && |OscString(s)| == NextDword(|s| + 1)
  {
    var part := mem[i..i + |OscString(s)|];
    assert forall j | 0 <= j < |s| :: mem[i + j] == part[j] == s[j] && s[j] != 0;
    assert mem[i + |s|] == part[|s|] == 0;
  }

  /** Where the argument data of an encoded message starts. */
  function DataStart(path: Text, n: nat): nat {
    |OscString(path)| + |OscString(TypeTags(n))|
  }

  /** The parts of an encoded message, wherever it lies at the start of a buffer. */
  lemma Layout(path: Text, args: seq<Word32>, mem: Bytes)
    requires Encode(path, args) <= mem
    ensures var p := |OscString(path)|;
            && p <= DataStart(path, |args|)
            && DataStart(path, |args|) + |Floats(args)| == |Encode(path, args)| <= |mem|
            && mem[0..p] == OscString(path)
            && mem[p..DataStart(path, |args|)] == OscString(TypeTags(|args|))
            && mem[DataStart(path, |args|)..|Encode(path, args)|] == Floats(args)
  {
    hide OscString, TypeTags, Floats;
    var msg := Encode(path, args);
    assert mem[..|msg|] == msg;
  }

  /** Reading an encoded message of which `len` bytes have arrived, whatever lies
      behind it in the buffer: the length check only covers the path and the tags,
      so the message passes exactly when these are there. */
  lemma ParseEncoded(path: Text, args: seq<Word32>, mem: Bytes, len: nat)
    requires Encode(path, args) <= mem && len <= |mem|
    ensures Parse(mem, len) == if len >= DataStart(path, |args|)
                               then Message(|path|, |args|, DataStart(path, |args|)) else Malformed
    ensures len >= |Encode(path, args)| <==> len >= DataStart(path, |args|) + 4 * |args|
  {
    hide Encode, OscString, StrEnd, Floats, TypeTags;
    Layout(path, args, mem);
    StringEnd(mem, 0, path);
    var p := |OscString(path)|;
    StringEnd(mem, p, TypeTags(|args|));
    FirstTag(mem, p, |args|);
    FloatsSize(args);
  }

  lemma FirstTag(mem: Bytes, i: nat, n: nat)
    requires i + |OscString(TypeTags(n))| <= |mem| && mem[i..i + |OscString(TypeTags(n))|] == OscString(TypeTags(n))
    ensures i < |mem| && mem[i] == COMMA && |TypeTags(n)| == n + 1
  {}

  /** Reading any buffer that starts with a terminated path, whatever fills up the path
      to a multiple of four: behind it a terminated string is looked for, which has to
      start with a comma and, filled up in the same way, to lie within the message. */
  lemma ParseTagged(path: Text, tags: Text, mem: Bytes, len: nat)
    requires len <= |mem| && path + [0] <= mem
    requires var q := NextDword(|path| + 1); q + |tags| < |mem| && mem[q..q + |tags| + 1] == tags + [0]
    ensures var q := NextDword(|path| + 1); var data := q + NextDword(|tags| + 1);
            Parse(mem, len) ==
            if data <= len && tags != [] && tags[0] == COMMA then Message(|path|, |tags| - 1, data) else Malformed
  {
    hide StrEnd, NextDword;
    NextDwordIsRoundUp(|path| + 1, 0);
    NextDwordIsRoundUp(|tags| + 1, 0);
    var q := NextDword(|path| + 1);
    assert mem[0..|path| + 1] == path + [0];
    TextEnd(mem, 0, path);
    TextEnd(mem, q, tags);
    assert tags != [] ==> mem[q] == mem[q..q + |tags| + 1][0] == tags[0];
    assert tags == [] ==> mem[q] == mem[q..q + |tags| + 1][0] == 0;
  }

  lemma TextEnd(mem: Bytes, q: nat, s: Text)
    requires q + |s| < |mem| && mem[q..q + |s| + 1] == s + [0]
    ensures StrEnd(mem, q) == q + |s|
  {
    hide StrEnd;
    var part := mem[q..q + |s| + 1];
    forall j | q <= j < q + |s|
      ensures mem[j] != 0
    {
      assert mem[j] == part[j - q] == s[j - q];
    }
    assert mem[q + |s|] == part[|s|] == 0;
    StrEndIs(mem, q, q + |s|);
  }

  lemma StrEndIs(mem: Bytes, i: nat, r: nat)
    requires i <= r < |mem| && mem[r] == 0 && forall j | i <= j < r :: mem[j] != 0
    ensures StrEnd(mem, i) == r
  {}

  /** The buffers that are left: no terminated path in the message, or no terminated
      string behind it anywhere. */
  lemma ParseUnterminated(mem: Bytes, len: nat, path: Text)
    requires len <= |mem|
    ensures 0 !in mem[..len] ==> Parse(mem, len) == Malformed
    ensures path + [0] <= mem && |path| < len && 0 !in mem[Min(NextDword(|path| + 1), |mem|)..] ==>
              Parse(mem, len) == OutOfBuffer
  {
    hide StrEnd;
    var q := NextDword(|path| + 1);
    var end := StrEnd(mem, 0);
    assert end < len ==> mem[..len][end] == 0;
    if path + [0] <= mem {
      assert mem[0..|path| + 1] == path + [0];
      TextEnd(mem, 0, path);
      if q <= |mem| {
        var e := StrEnd(mem, q);
        assert e < |mem| ==> mem[q..][e - q] == 0;
      }
    }
  }

  function Min(a: nat, b: nat): nat {
    if a < b then a else b
  }

  /** The round trip: an encoded message gives back its path, the number of its
      arguments and each argument's bit pattern. */
  lemma RoundTrip(path: Text, args: seq<Word32>, mem: Bytes)
    requires Encode(path, args) <= mem
    ensures var len := |Encode(path, args)|;
            var r := Parse(mem, len);
            && r.Message?
            && mem[..r.pathLength] == path
            && r.args == |args|
            && r.data + 4 * r.args == len
            && forall i | 0 <= i < |args| :: FromBigEndian(mem[r.data + 4 * i..r.data + 4 * i + 4]) == args[i]
  {
    hide Encode, Parse, Floats, BigEndian, FromBigEndian, StrEnd;
    Layout(path, args, mem);
    FloatsSize(args);
    assert |path| < |OscString(path)| && OscString(path)[..|path|] == path;
    ParseEncoded(path, args, mem, |Encode(path, args)|);
    var d := DataStart(path, |args|);
    var floats := mem[d..|Encode(path, args)|];
    forall i | 0 <= i < |args|
      ensures FromBigEndian(mem[d + 4 * i..d + 4 * i + 4]) == args[i]
    {
      FloatsAt(args, i);
      assert mem[d + 4 * i..d + 4 * i + 4] == floats[4 * i..4 * i + 4];
      BigEndianRoundTrip(args[i]);
    }
    assert mem[..|path|] == mem[0..|OscString(path)|][..|path|];
  }
}
