/** Partial transfers: the loops of common/network.h around send and recv. */
module Network {
  import opened Protocol

  function Min(a: nat, b: nat): nat {
    if a < b then a else b
  }

  /** How many bytes send_message asks send to take: always the whole length, as
      the code does, or what is still missing, as it should. */
  datatype Asking = WholeLength | Remaining

  /** send() for `asked` bytes takes a part of them that is not empty, `offer` at most. */
  function Taken(offer: int, asked: nat): nat
    requires offer > 0
  {
    Min(offer, asked)
  }

  /** The number of bytes that have gone out when the loop ends without an error:
      `done` of them before the n-th call, `offers(n)` bounding what it takes. */
  function TotalSent(asking: Asking, offers: nat -> int, len: nat, done: nat, n: nat): nat
    requires forall i :: offers(i) != 0
    decreases len - done
  {
    if done >= len || offers(n) < 0 then done
    else TotalSent(asking, offers, len, done + Taken(offers(n), if asking.WholeLength? then len else len - done), n + 1)
  }

  /** send_message. `memory` is what lies at the data address: the message in its
      first `len` bytes, then whatever follows it. `offers(n)` is the result the
      n-th call could have: an error or the bytes the socket has room for. */
  method SendMessage(asking: Asking, memory: Bytes, len: nat, offers: nat -> int) returns (ok: bool, wire: Bytes)
    requires |memory| >= if asking.WholeLength? then 2 * len else len
    requires forall i :: offers(i) != 0
    ensures wire <= memory && |wire| == TotalSent(asking, offers, len, 0, 0)
    ensures ok <==> |wire| >= len
    ensures !ok ==> exists n: nat :: offers(n) < 0
  {
    wire := [];
    var n := 0;
    while |wire| < len
      invariant |wire| <= 2 * len && wire <= memory
      invariant TotalSent(asking, offers, len, 0, 0) == TotalSent(asking, offers, len, |wire|, n)
      decreases len - |wire|
    {
      if offers(n) < 0 {
        return false, wire;
      }
      var asked := if asking.WholeLength? then len else len - |wire|;
      var status := Taken(offers(n), asked);
      wire := wire + memory[|wire|..|wire| + status];
      n := n + 1;
    }
    ok := true;
  }

  /** Asking for the remaining bytes delivers the message and nothing else, whatever
      the schedule of short sends; it delivers less only if a call fails. */
  lemma {:induction false} RemainingIsExact(offers: nat -> int, len: nat, done: nat, n: nat)
    requires (forall i :: offers(i) != 0) && done <= len
    ensures TotalSent(Remaining, offers, len, done, n) <= len
    ensures (forall i | n <= i < n + (len - done) :: offers(i) > 0) ==>
              TotalSent(Remaining, offers, len, done, n) == len
    decreases len - done
  {
    if done < len && offers(n) > 0 {
      RemainingIsExact(offers, len, done + Taken(offers(n), len - done), n + 1);
    }
  }

  /** The code asks for the whole length every time. That delivers exactly the
      message under every schedule if and only if the message has at most one byte. */
  lemma WholeLengthIsExactOnlyForBytes(len: nat)
    ensures (forall offers: nat -> int ::
               (forall i :: offers(i) != 0) ==> TotalSent(WholeLength, offers, len, 0, 0) <= len)
       <==> len <= 1
  {
    if len <= 1 {
      forall offers: nat -> int | forall i :: offers(i) != 0
        ensures TotalSent(WholeLength, offers, len, 0, 0) <= len
      {
        if len == 1 && offers(0) > 0 {
          assert Taken(offers(0), 1) == 1;
          assert TotalSent(WholeLength, offers, 1, 1, 1) == 1;
        }
      }
    } else {
      var offers := (i: nat) => if i == 0 then 1 else len;
      assert forall i :: offers(i) != 0;
      assert TotalSent(WholeLength, offers, len, 1 + len, 2) == 1 + len;
      assert TotalSent(WholeLength, offers, len, 1, 1) == 1 + len;
      assert TotalSent(WholeLength, offers, len, 0, 0) == 1 + len;
    }
  }

  /** No call before the n-th one fails. */
  predicate Flows(offers: nat -> int, n: nat) {
    forall i: nat | i < n :: offers(i) > 0
  }

  /** What the first n calls take when each is asked for the whole length. */
  function Sum(offers: nat -> int, len: nat, n: nat): nat
    requires Flows(offers, n)
  {
    if n == 0 then 0 else Sum(offers, len, n - 1) + Min(offers(n - 1), len)
  }

  /** As long as calls take something and the length is not reached, the loop goes on. */
  lemma {:induction false} LoopGoesOn(offers: nat -> int, len: nat, n: nat)
    requires (forall i :: offers(i) != 0) && Flows(offers, n)
    requires n > 0 ==> Sum(offers, len, n - 1) < len
    ensures TotalSent(WholeLength, offers, len, 0, 0) == TotalSent(WholeLength, offers, len, Sum(offers, len, n), n)
  {
    if n > 0 {
      LoopGoesOn(offers, len, n - 1);
    }
  }

  /** Where the loop ends. */
  lemma {:induction false} LoopEnds(offers: nat -> int, len: nat, n: nat) returns (m: nat)
    requires (forall i :: offers(i) != 0) && Flows(offers, n)
    ensures Flows(offers, m) && TotalSent(WholeLength, offers, len, Sum(offers, len, n), n) == Sum(offers, len, m)
    ensures m >= n && (Sum(offers, len, m) >= len || offers(m) < 0)
    decreases len - Sum(offers, len, n)
  {
    if Sum(offers, len, n) >= len || offers(n) < 0 {
      m := n;
    } else {
      assert Flows(offers, n + 1);
      m := LoopEnds(offers, len, n + 1);
    }
  }

  /** A single schedule sends exactly the message if and only if the parts that send
      takes, each bounded by the whole length, add up to it after some number of calls
      of which none fails. */
  lemma ExactSchedule(offers: nat -> int, len: nat)
    requires forall i :: offers(i) != 0
    ensures TotalSent(WholeLength, offers, len, 0, 0) == len
       <==> exists n: nat :: Flows(offers, n) && Sum(offers, len, n) == len
  {
    var m := LoopEnds(offers, len, 0);
    assert Sum(offers, len, 0) == 0;
    if len > 0 {
      if n: nat :| Flows(offers, n) && Sum(offers, len, n) == len {
        LoopGoesOn(offers, len, n);
      }
    }
  }

  // ---------- receiving ----------

  /** The number of chunks after which the loop of recv_message returns, or
      |chunks| + 1 if they do not suffice. */
  function ChunksNeeded(chunks: seq<Bytes>, k: nat): nat
    requires k <= |chunks|
    decreases |chunks| - k
  {
    if k > 0 && |Concat(chunks[..k])| >= ReplySize(chunks) then k
    else if k == |chunks| then |chunks| + 1
    else ChunksNeeded(chunks, k + 1)
  }

  predicate NonEmpty(chunks: seq<Bytes>) {
    forall i | 0 <= i < |chunks| :: chunks[i] != []
  }

  /** The framed size of the message a chunk sequence starts with. */
  function ReplySize(chunks: seq<Bytes>): int {
    if chunks == [] || chunks[0] == [] then 0 else MessageLength(chunks[0][0])
  }

  /** recv_message on a fresh buffer, for messages of a fixed length. `chunks` is
      what the successive calls of recv return; afterwards the stream has ended. */
  method RecvMessage(buf: array<Byte>, chunks: seq<Bytes>) returns (r: int)
    requires NonEmpty(chunks)
    requires |Concat(chunks)| <= buf.Length
    requires chunks != [] ==> !VariableLength(chunks[0][0])
    modifies buf
    ensures r == -1 <==> chunks == [] || ReplySize(chunks) < 0 || ChunksNeeded(chunks, 0) > |chunks|
    ensures r != -1 ==> var k := ChunksNeeded(chunks, 0);
              r == |Concat(chunks[..k])| && 0 <= r <= buf.Length && buf[..r] == Concat(chunks[..k])
  {
    var bytes := 0;
    var lengthNeeded := -1;
    var k := 0;
    while lengthNeeded < 1 || bytes < lengthNeeded
      invariant 0 <= k <= |chunks| && bytes == |Concat(chunks[..k])| <= buf.Length
      invariant buf[..bytes] == Concat(chunks[..k])
      invariant if k == 0 then lengthNeeded == -1 else lengthNeeded == ReplySize(chunks) > 0
      invariant ChunksNeeded(chunks, 0) == ChunksNeeded(chunks, k)
      decreases |chunks| - k
    {
      if k == |chunks| {
        return -1;
      }
      var chunk := chunks[k];
      assert chunks[..k + 1][..k] == chunks[..k];
      ConcatGrows(chunks, k + 1);
      forall j | 0 <= j < |chunk| {
        buf[bytes + j] := chunk[j];
      }
      assert buf[..bytes + |chunk|] == Concat(chunks[..k + 1]);

      if lengthNeeded < 1 {
        assert buf[0] == chunk[0];
        lengthNeeded := SizeFromCommand(buf[..|chunk|]);
        if lengthNeeded < 0 {
          return -1;
        }
      }
      bytes := bytes + |chunk|;
      k := k + 1;
    }
    r := bytes;
  }

  lemma {:induction false} ConcatGrows(chunks: seq<Bytes>, k: nat)
    requires k <= |chunks|
    ensures Concat(chunks[..k]) <= Concat(chunks)
    decreases |chunks| - k
  {
    if k < |chunks| {
      assert chunks[..k + 1][..k] == chunks[..k];
      ConcatGrows(chunks, k + 1);
    } else {
      assert chunks[..k] == chunks;
    }
  }

  /** However a reply is fragmented, recv_message returns as soon as the whole
      reply has arrived, and then the reply is a prefix of the buffer; it does not
      return on less. */
  lemma WholeReply(reply: Bytes, chunks: seq<Bytes>)
    requires IsFrame(reply) && !VariableLength(reply[0])
    requires NonEmpty(chunks) && chunks != [] && chunks[0][0] == reply[0]
    ensures var k := ChunksNeeded(chunks, 0);
            && (k <= |chunks| <==> |Concat(chunks)| >= |reply|)
            && (k <= |chunks| && reply <= Concat(chunks) ==> reply <= Concat(chunks[..k]))
            && (k <= |chunks| ==> k > 0 && |Concat(chunks[..k - 1])| < |reply|)
  {
    assert ReplySize(chunks) == |reply|;
    NeededMeaning(chunks, 0);
    var k := ChunksNeeded(chunks, 0);
    assert chunks[..|chunks|] == chunks;
    if k <= |chunks| {
      ConcatGrows(chunks, k);
    }
  }

  lemma {:induction false} NeededMeaning(chunks: seq<Bytes>, k: nat)
    requires k <= |chunks| && ReplySize(chunks) > 0
    requires k > 0 ==> |Concat(chunks[..k - 1])| < ReplySize(chunks)
    ensures var n := ChunksNeeded(chunks, k);
            && k <= n <= |chunks| + 1
            && (n <= |chunks| ==> 0 < n && |Concat(chunks[..n])| >= ReplySize(chunks))
            && (n <= |chunks| ==> |Concat(chunks[..n - 1])| < ReplySize(chunks))
            && (n > |chunks| ==> |Concat(chunks[..|chunks|])| < ReplySize(chunks))
    decreases |chunks| - k
  {
    if !(k > 0 && |Concat(chunks[..k])| >= ReplySize(chunks)) && k < |chunks| {
      NeededMeaning(chunks, k + 1);
    }
  }
}
