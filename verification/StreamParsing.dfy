/** The bounded BMB1 stream parser (`StreamParser` of `pico/bmcu_binary.py`). */
module StreamParsing {
  import opened Bytes
  import opened Bmb1Codec

  /** The receive buffer of the client, and the most one `recv` hands over. */
  const STORAGE_SIZE: nat := 2 * MAX_MESSAGE_SIZE
  const CHUNK_SIZE: nat := 512

  // ----- Reading a stream, whole -----

  /** All messages at the front of the bytes, what is left, and whether a bad header stopped it. */
  datatype Drained = Drained(messages: seq<Message>, rest: seq<byte>, invalid: bool)

  function Drain(b: seq<byte>): (d: Drained)
    ensures |d.rest| <= |b|
    decreases |b|
  {
    match ParseNext(b)
    case NeedMore => Drained([], b, false)
    case Invalid => Drained([], b, true)
    case Parsed(m, n) =>
      var d := Drain(b[n..]);
      d.(messages := [m] + d.messages)
  }

  /** A verdict never changes when more bytes arrive, unless it was to wait. */
  lemma VerdictIsStable(b: seq<byte>, more: seq<byte>)
    ensures ParseNext(b) != NeedMore ==> ParseNext(b + more) == ParseNext(b)
  {
    if |b| >= HEADER_SIZE {
      var s := b + more;
      assert s[..4] == b[..4] && s[4] == b[4] && s[8..12] == b[8..12];
      assert s[6..8] == b[6..8] && s[12..20] == b[12..20] && s[20..28] == b[20..28];
      var total := HEADER_SIZE + FromBE(b[8..12]);
      if |b| >= total {
        assert s[HEADER_SIZE..total] == b[HEADER_SIZE..total];
      }
    }
  }

  /** Draining in two pieces gives what draining the whole gives, on every stream. */
  lemma {:induction false} DrainSplits(a: seq<byte>, b: seq<byte>)
    ensures var first := Drain(a);
            var second := Drain(first.rest + b);
            Drain(a + b) == second.(messages := first.messages + second.messages)
    decreases |a|
  {
    hide ParseNext;
    VerdictIsStable(a, b);
    match ParseNext(a)
    case NeedMore =>
      assert [] + Drain(a + b).messages == Drain(a + b).messages;
    case Invalid =>
      assert [] + Drain(a + b).messages == Drain(a + b).messages;
    case Parsed(m, n) =>
      DrainSplits(a[n..], b);
      assert (a + b)[n..] == a[n..] + b;
      var first := Drain(a[n..]);
      assert [m] + (first.messages + Drain(first.rest + b).messages) == [m] + first.messages + Drain(first.rest + b).messages;
  }

  /** What stays behind without an error is shorter than one message. */
  lemma {:induction false} LeftoverIsShort(b: seq<byte>)
    ensures !Drain(b).invalid ==> |Drain(b).rest| < MAX_MESSAGE_SIZE
    decreases |b|
  {
    match ParseNext(b)
    case Parsed(m, n) => LeftoverIsShort(b[n..]);
    case _ =>
  }

  predicate AllRepresentable(ms: seq<Message>) { forall m :: m in ms ==> Representable(m) }

  function Stream(ms: seq<Message>): seq<byte>
    requires AllRepresentable(ms)
  {
    if ms == [] then [] else Encode(ms[0]) + Stream(ms[1..])
  }

  /** What the writers produce drains back to the same messages, and nothing is left. */
  lemma {:induction false} DrainStream(ms: seq<Message>)
    requires AllRepresentable(ms)
    ensures Drain(Stream(ms)) == Drained(ms, [], false)
  {
    hide ParseNext, Encode;
    if ms == [] {
      EmptyNeedsMore();
    } else {
      ParseEncoded(ms[0], Stream(ms[1..]));
      DrainStream(ms[1..]);
      assert Stream(ms)[HEADER_SIZE + |ms[0].payload|..] == Stream(ms[1..]);
      assert [ms[0]] + ms[1..] == ms;
    }
  }

  lemma EmptyNeedsMore()
    ensures ParseNext([]) == NeedMore
  {
  }

  // ----- Reading it in pieces, with the buffer bound -----

  /** One piece fed and drained: the messages, or the error that ends the connection. */
  datatype Reception = Received(messages: seq<Message>, rest: seq<byte>) | Overflow | BadHeader

  function ReceivePiece(buffered: seq<byte>, piece: seq<byte>): Reception {
    if |buffered| + |piece| > STORAGE_SIZE then Overflow
    else
      var d := Drain(buffered + piece);
      if d.invalid then BadHeader else Received(d.messages, d.rest)
  }

  function Receive(buffered: seq<byte>, pieces: seq<seq<byte>>): Reception
    decreases pieces
  {
    if pieces == [] then Received([], buffered)
    else
      match ReceivePiece(buffered, pieces[0])
      case Received(ms, rest) =>
        (match Receive(rest, pieces[1..])
         case Received(more, last) => Received(ms + more, last)
         case Overflow => Overflow
         case BadHeader => BadHeader)
      case Overflow => Overflow
      case BadHeader => BadHeader
  }

  function Join(pieces: seq<seq<byte>>): seq<byte> {
    if pieces == [] then [] else pieces[0] + Join(pieces[1..])
  }

  predicate SmallPieces(pieces: seq<seq<byte>>) { forall p :: p in pieces ==> |p| <= CHUNK_SIZE }

  lemma AcceptedHeadStays(a: seq<byte>, b: seq<byte>)
    ensures Drain(a).invalid ==> Drain(a + b).invalid
  {
    DrainSplits(a, b);
    if Drain(a).invalid {
      InvalidStays(a);
      VerdictIsStable(Drain(a).rest, b);
      hide ParseNext;
    }
  }

  lemma {:induction false} InvalidStays(a: seq<byte>)
    ensures Drain(a).invalid ==> ParseNext(Drain(a).rest) == Invalid
    decreases |a|
  {
    hide ParseNext;
    match ParseNext(a)
    case Parsed(m, n) => InvalidStays(a[n..]);
    case _ =>
  }

  /**
   However a stream is cut into small pieces, each drained before the next: the buffer never
   overflows, and the messages are those of the whole stream, unless it holds a bad header.
   */
  lemma {:induction false} PiecesDoNotMatter(buffered: seq<byte>, pieces: seq<seq<byte>>)
    requires SmallPieces(pieces) && |buffered| < MAX_MESSAGE_SIZE
    requires ParseNext(buffered) == NeedMore
    ensures var whole := Drain(buffered + Join(pieces));
            Receive(buffered, pieces) == if whole.invalid then BadHeader else Received(whole.messages, whole.rest)
    decreases pieces
  {
    if pieces == [] {
      assert buffered + Join(pieces) == buffered;
    } else {
      var a, tail := buffered + pieces[0], Join(pieces[1..]);
      assert buffered + Join(pieces) == a + tail;
      DrainSplits(a, tail);
      AcceptedHeadStays(a, tail);
      LeftoverIsShort(a);
      if !Drain(a).invalid {
        RestNeedsMore(a);
        hide ParseNext, Drain;
        PiecesDoNotMatter(Drain(a).rest, pieces[1..]);
      }
    }
  }

  lemma {:induction false} RestNeedsMore(a: seq<byte>)
    ensures !Drain(a).invalid ==> ParseNext(Drain(a).rest) == NeedMore
    decreases |a|
  {
    hide ParseNext;
    match ParseNext(a)
    case Parsed(m, n) => RestNeedsMore(a[n..]);
    case _ =>
  }

  /**
   Every cut of every concatenation of messages comes out unchanged, with no error: from an
   empty buffer, or from one that holds the beginning of it.
   */
  lemma {:induction false} StreamRoundTrip(ms: seq<Message>, buffered: seq<byte>, pieces: seq<seq<byte>>)
    requires AllRepresentable(ms) && SmallPieces(pieces)
    requires buffered + Join(pieces) == Stream(ms) && |buffered| < MAX_MESSAGE_SIZE && ParseNext(buffered) == NeedMore
    ensures Receive(buffered, pieces) == Received(ms, [])
  {
    hide Drain, ParseNext;
    PiecesDoNotMatter(buffered, pieces);
    DrainStream(ms);
  }

  // ----- The program's own form -----

  lemma DrainStep(b: seq<byte>)
    ensures ParseNext(b) == NeedMore ==> Drain(b) == Drained([], b, false)
    ensures ParseNext(b) == Invalid ==> Drain(b) == Drained([], b, true)
    ensures ParseNext(b).Parsed? ==>
              var rest := b[ParseNext(b).size..];
              Drain(b) == Drain(rest).(messages := [ParseNext(b).message] + Drain(rest).messages)
  {
  }

  lemma SubSlice(a: array<byte>, from: nat, to: nat, i: nat, j: nat)
    requires i <= j && from + j <= to <= a.Length
    ensures a[from..to][i..j] == a[from + i..from + j]
  {
    var whole := a[from..to];
    assert forall k :: i <= k < j ==> whole[k] == a[from + k];
    assert |whole[i..j]| == |a[from + i..from + j]|;
    assert forall k :: 0 <= k < j - i ==> whole[i..j][k] == a[from + i..from + j][k];
  }

  class StreamParser {
    const storage: array<byte>
    var start: nat
    var end: nat

    ghost predicate Valid()
      reads this
    {
      storage.Length >= MAX_MESSAGE_SIZE && start <= end <= storage.Length
    }

    ghost function Buffered(): seq<byte>
      requires Valid()
      reads this, storage
    {
      storage[start..end]
    }

    constructor (storage: array<byte>)
      requires storage.Length >= MAX_MESSAGE_SIZE
      ensures Valid() && Buffered() == [] && this.storage == storage
    {
      this.storage := storage;
      start, end := 0, 0;
    }

    method Compact()
      requires Valid()
      modifies this, storage
      ensures Valid() && Buffered() == old(Buffered()) && start == 0
    {
      var count := end - start;
      if start > 0 && count > 0 {
        var index := 0;
        while index < count
          invariant 0 <= index <= count && start == old(start) && end == old(end)
          invariant storage[..index] == old(storage[start..start + index])
          invariant storage[start + index..] == old(storage[start + index..])
        {
          assert storage[start + index..][0] == storage[start + index];
          storage[index] := storage[start + index];
          assert storage[..index + 1] == storage[..index] + [storage[index]];
          index := index + 1;
        }
      }
      start := 0;
      end := count;
    }

    /** `feed`; false is the overflow error. */
    method Feed(data: seq<byte>) returns (ok: bool)
      requires Valid()
      modifies this, storage
      ensures Valid() && ok == (|old(Buffered())| + |data| <= storage.Length)
      ensures Buffered() == if ok then old(Buffered()) + data else old(Buffered())
    {
      if |data| > storage.Length - (end - start) {
        return false;
      }
      if storage.Length - end < |data| {
        Compact();
      }
      Place(data);
      return true;
    }

    method Place(data: seq<byte>)
      requires Valid() && end + |data| <= storage.Length
      modifies this`end, storage
      ensures Valid() && Buffered() == old(Buffered()) + data
    {
      forall i | 0 <= i < |data| {
        storage[end + i] := data[i];
      }
      assert storage[start..end] == old(storage[start..end]);
      assert storage[end..end + |data|] == data;
      assert storage[start..end + |data|] == storage[start..end] + storage[end..end + |data|];
      end := end + |data|;
    }

    /** The message of `total` bytes at the front. */
    method Front(total: nat) returns (m: Message)
      requires Valid() && HEADER_SIZE <= total <= |Buffered()|
      ensures var b := Buffered();
              m == Message(b[5], FromBE(b[6..8]), FromBE(b[12..20]), FromBE(b[20..28]), b[28], b[HEADER_SIZE..total])
    {
      hide FromBE;
      SubSlice(storage, start, end, 6, 8);
      SubSlice(storage, start, end, 12, 20);
      SubSlice(storage, start, end, 20, 28);
      SubSlice(storage, start, end, HEADER_SIZE, total);
      m := Message(storage[start + 5], FromBE(storage[start + 6..start + 8]), FromBE(storage[start + 12..start + 20]),
                   FromBE(storage[start + 20..start + 28]), storage[start + 28], storage[start + HEADER_SIZE..start + total]);
    }

    method NextMessage() returns (r: Parsed)
      requires Valid()
      modifies this
      ensures Valid() && r == ParseNext(old(Buffered()))
      ensures Buffered() == if r.Parsed? then old(Buffered())[r.size..] else old(Buffered())
    {
      hide FromBE;
      if end - start < HEADER_SIZE {
        return NeedMore;
      }
      SubSlice(storage, start, end, 0, 4);
      if storage[start..start + 4] != MAGIC || storage[start + 4] != VERSION {
        return Invalid;
      }
      SubSlice(storage, start, end, 8, 12);
      var payloadLength := FromBE(storage[start + 8..start + 12]);
      if payloadLength > MAX_PAYLOAD_SIZE {
        return Invalid;
      }
      var total := HEADER_SIZE + payloadLength;
      if end - start < total {
        return NeedMore;
      }
      var message := Front(total);
      r := Parsed(message, total);
      Advance(total);
    }

    method Advance(total: nat)
      requires Valid() && total <= |Buffered()|
      modifies this
      ensures Valid() && Buffered() == old(Buffered())[total..]
    {
      SubSlice(storage, start, end, total, end - start);
      start := start + total;
      if start == end {
        start, end := 0, 0;
      }
    }

    /** One turn of the client: feed what `recv` gave, then take messages until there is none. */
    method ReceiveChunk(piece: seq<byte>) returns (r: Reception)
      requires Valid() && storage.Length == STORAGE_SIZE
      modifies this, storage
      ensures Valid() && r == ReceivePiece(old(Buffered()), piece)
      ensures r.Received? ==> Buffered() == r.rest
    {
      hide ParseNext, Drain;
      ghost var fed := Buffered() + piece;
      var ok := Feed(piece);
      if !ok {
        return Overflow;
      }
      var messages: seq<Message> := [];
      while true
        invariant Valid()
        invariant Drain(fed) == Drain(Buffered()).(messages := messages + Drain(Buffered()).messages)
        decreases |Buffered()|
      {
        ghost var before := Buffered();
        DrainStep(before);
        var next := NextMessage();
        if next == NeedMore {
          assert messages + [] == messages;
          return Received(messages, Buffer());
        }
        if next == Invalid {
          return BadHeader;
        }
        assert messages + ([next.message] + Drain(Buffered()).messages) == messages + [next.message] + Drain(Buffered()).messages;
        messages := messages + [next.message];
      }
    }

    function Buffer(): (b: seq<byte>)
      requires Valid()
      reads this, storage
      ensures b == Buffered()
    {
      storage[start..end]
    }
  }
}
