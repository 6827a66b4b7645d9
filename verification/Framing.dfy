/** Length-prefixed messages over a byte stream (crates/ghostport-core/src/framing.rs). */
module Framing {
  import opened Common

  const MAX_MESSAGE_LEN: nat := 64 * 1024

  datatype Error = UnexpectedEof | TooLong(len: nat) | InvalidData

  /** Turning messages into bytes and back is a library's work. */
  datatype Codec<!T> = Codec(toBytes: T -> Option<seq<Byte>>, fromBytes: seq<Byte> -> Option<T>)

  // ----- Frames as byte sequences -----

  /** A 32-bit number, least significant byte first; larger numbers lose their upper bits. */
  function Le32(n: nat): (r: seq<Byte>)
    ensures |r| == 4
  {
    [n % 256, n / 256 % 256, n / 256 / 256 % 256, n / 256 / 256 / 256 % 256]
  }

  function FromLe32(b: seq<Byte>): nat
    requires |b| == 4
  {
    b[0] + 256 * (b[1] as int) + 65536 * (b[2] as int) + 16777216 * (b[3] as int)
  }

  /** The four digits of a number to the base 256 go out least significant first, and come back. */
  lemma LittleEndian(b0: Byte, b1: Byte, b2: Byte, b3: Byte)
    ensures var n := b0 + 256 * (b1 as int) + 65536 * (b2 as int) + 16777216 * (b3 as int);
      Le32(n) == [b0, b1, b2, b3] && FromLe32([b0, b1, b2, b3]) == n
  {
    var r1 := b1 + 256 * (b2 + 256 * (b3 as int));
    OneDigit(b0, r1);
    OneDigit(b1, b2 + 256 * (b3 as int));
    OneDigit(b2, b3);
    assert b0 + 256 * r1 == b0 + 256 * (b1 as int) + 65536 * (b2 as int) + 16777216 * (b3 as int);
  }

  lemma OneDigit(b: Byte, rest: nat)
    ensures (b + 256 * rest) / 256 == rest && (b + 256 * rest) % 256 == b
  {
  }

  lemma Le32RoundTrip(n: nat)
    ensures FromLe32(Le32(n)) == n % 0x1_0000_0000
  {
    var a, b, c := n / 256, n / 256 / 256, n / 256 / 256 / 256;
    RemainderIs(n, c / 256, n % 256 + 256 * (a % 256) + 65536 * (b % 256) + 16777216 * (c % 256));
  }

  lemma RemainderIs(n: nat, q: nat, r: nat)
    requires n == 0x1_0000_0000 * q + r && r < 0x1_0000_0000
    ensures n % 0x1_0000_0000 == r
  {
  }

  /** What `send_json` writes for a serialized message. */
  function Frame(payload: seq<Byte>): seq<Byte>
  {
    Le32(|payload|) + payload
  }

  function Frames(payloads: seq<seq<Byte>>): seq<Byte>
  {
    if payloads == [] then [] else Frame(payloads[0]) + Frames(payloads[1..])
  }

  /** What one uncancelled receive returns on the bytes that will ever arrive, and the bytes it leaves. */
  function Receive(wire: seq<Byte>): (Result<seq<Byte>, Error>, seq<Byte>)
  {
    if |wire| < 4 then (Err(UnexpectedEof), [])
    else
      var len, rest := FromLe32(wire[..4]), wire[4..];
      if len > MAX_MESSAGE_LEN then (Err(TooLong(len)), rest)
      else if |rest| < len then (Err(UnexpectedEof), [])
      else (Ok(rest[..len]), rest[len..])
  }

  function ReceiveMany(wire: seq<Byte>, n: nat): Result<(seq<seq<Byte>>, seq<Byte>), Error>
  {
    if n == 0 then Ok(([], wire))
    else
      match Receive(wire)
      case (Err(e), _) => Err(e)
      case (Ok(payload), rest) =>
        match ReceiveMany(rest, n - 1)
        case Err(e) => Err(e)
        case Ok((payloads, left)) => Ok(([payload] + payloads, left))
  }

  lemma CutFrame(payload: seq<Byte>, rest: seq<Byte>)
    ensures var wire := Frame(payload) + rest;
      |wire| >= 4 && wire[..4] == Le32(|payload|) && wire[4..] == payload + rest
    ensures (payload + rest)[..|payload|] == payload && (payload + rest)[|payload|..] == rest
  {
  }

  /** What receiving does with a sent frame of any length below 4 GiB. */
  lemma ReceiveFrame(payload: seq<Byte>, rest: seq<Byte>)
    requires |payload| < 0x1_0000_0000
    ensures Receive(Frame(payload) + rest)
         == if |payload| <= MAX_MESSAGE_LEN then (Ok(payload), rest) else (Err(TooLong(|payload|)), payload + rest)
  {
    Le32RoundTrip(|payload|);
    CutFrame(payload, rest);
  }

  /** A message comes back, and nothing else is consumed, exactly when it is within the limit. */
  lemma RoundTripIffShort(payload: seq<Byte>, rest: seq<Byte>)
    ensures Receive(Frame(payload) + rest) == (Ok(payload), rest) <==> |payload| <= MAX_MESSAGE_LEN
  {
    Le32RoundTrip(|payload|);
    CutFrame(payload, rest);
    if |payload| <= MAX_MESSAGE_LEN {
      ReceiveFrame(payload, rest);
    }
  }

  lemma ReceiveNext(first: seq<Byte>, after: seq<Byte>, others: seq<seq<Byte>>, rest: seq<Byte>)
    requires |first| <= MAX_MESSAGE_LEN && ReceiveMany(after, |others|) == Ok((others, rest))
    ensures ReceiveMany(Frame(first) + after, |others| + 1) == Ok(([first] + others, rest))
  {
    ReceiveFrame(first, after);
  }

  lemma FirstFrame(payloads: seq<seq<Byte>>, rest: seq<Byte>)
    requires payloads != []
    ensures Frames(payloads) + rest == Frame(payloads[0]) + (Frames(payloads[1..]) + rest)
  {
  }

  /** Any list of messages within the limit comes back in order, and the bytes after them are left alone. */
  lemma {:induction false} ListRoundTrip(payloads: seq<seq<Byte>>, rest: seq<Byte>)
    requires forall i :: 0 <= i < |payloads| ==> |payloads[i]| <= MAX_MESSAGE_LEN
    ensures ReceiveMany(Frames(payloads) + rest, |payloads|) == Ok((payloads, rest))
  {
    if payloads == [] {
      assert Frames(payloads) + rest == rest;
    } else {
      var first, others := payloads[0], payloads[1..];
      var after := Frames(others) + rest;
      FirstFrame(payloads, rest);
      ListRoundTrip(others, rest);
      ReceiveNext(first, after, others, rest);
      assert payloads == [first] + others;
    }
  }

  /** A frame cut short anywhere is an error, never another message. */
  lemma CutFrameIsRefused(payload: seq<Byte>, n: nat)
    requires |payload| <= MAX_MESSAGE_LEN && n < |Frame(payload)|
    ensures Receive(Frame(payload)[..n]) == (Err(UnexpectedEof), [])
  {
    Le32RoundTrip(|payload|);
    if n >= 4 {
      assert Frame(payload)[..n][..4] == Le32(|payload|);
    }
  }

  // ----- Streams that deliver in pieces -----

  class Stream {
    /** The pieces still to be delivered. */
    var chunks: seq<seq<Byte>>

    constructor (chunks: seq<seq<Byte>>)
      requires forall i :: 0 <= i < |chunks| ==> chunks[i] != []
      ensures Valid() && Pending() == Flatten(chunks)
    {
      this.chunks := chunks;
    }

    ghost predicate Valid()
      reads this
    {
      forall i :: 0 <= i < |chunks| ==> chunks[i] != []
    }

    ghost function Pending(): seq<Byte>
      reads this
    {
      Flatten(chunks)
    }

    /** One read: at most `max` bytes, as many as the next piece has, none only at the end. */
    method Read(max: nat) returns (got: seq<Byte>)
      requires Valid() && max > 0
      modifies this
      ensures Valid() && old(Pending()) == got + Pending()
      ensures |got| <= max && (got == [] ==> Pending() == [])
    {
      if chunks == [] {
        return [];
      }
      var first := chunks[0];
      if |first| <= max {
        got, chunks := first, chunks[1..];
      } else {
        got, chunks := first[..max], [first[max..]] + chunks[1..];
        assert first == first[..max] + first[max..];
      }
    }

    /** Reads on until `n` bytes are there. */
    method ReadExact(n: nat) returns (r: Result<seq<Byte>, Error>)
      requires Valid()
      modifies this
      ensures Valid()
      ensures r == if |old(Pending())| < n then Err(UnexpectedEof) else Ok(old(Pending())[..n])
      ensures Pending() == if |old(Pending())| < n then [] else old(Pending())[n..]
    {
      var buf: seq<Byte> := [];
      while |buf| < n
        invariant Valid() && |buf| <= n && old(Pending()) == buf + Pending()
        decreases n - |buf|
      {
        var got := Read(n - |buf|);
        if got == [] {
          return Err(UnexpectedEof);
        }
        buf := buf + got;
      }
      r := Ok(buf);
    }
  }

  /** Receives one message. However the bytes arrive in pieces, the outcome is that of the whole sequence. */
  method RecvJson<T>(codec: Codec<T>, stream: Stream) returns (r: Result<T, Error>)
    requires stream.Valid()
    modifies stream
    ensures stream.Valid() && stream.Pending() == Receive(old(stream.Pending())).1
    ensures r == match Receive(old(stream.Pending())).0
                 case Err(e) => Err(e)
                 case Ok(payload) =>
                   match codec.fromBytes(payload) case Some(message) => Ok(message) case None => Err(InvalidData)
  {
    var prefix := stream.ReadExact(4);
    if prefix.Err? {
      return Err(prefix.error);
    }
    var len := FromLe32(prefix.value);
    if len > MAX_MESSAGE_LEN {
      return Err(TooLong(len));
    }
    var buf := stream.ReadExact(len);
    if buf.Err? {
      return Err(buf.error);
    }
    match codec.fromBytes(buf.value) {
      case Some(message) => r := Ok(message);
      case None => r := Err(InvalidData);
    }
  }

  /** `payloads` are short enough to be received and decode to `messages`. */
  ghost predicate Carry<T(!new)>(codec: Codec<T>, payloads: seq<seq<Byte>>, messages: seq<T>)
  {
    && |payloads| == |messages|
    && forall i :: 0 <= i < |payloads| ==> |payloads[i]| <= MAX_MESSAGE_LEN && codec.fromBytes(payloads[i]) == Some(messages[i])
  }

  /**
   * Receiving one message after the other, none of them cancelled: the messages sent come back as they were sent, from a
   * stream that delivers their bytes in any pieces, and what follows them is left unread.
   */
  method ReceiveAll<T(!new)>(codec: Codec<T>, stream: Stream, n: nat, ghost payloads: seq<seq<Byte>>, ghost rest: seq<Byte>,
                             ghost messages: seq<T>) returns (received: seq<T>)
    requires stream.Valid() && stream.Pending() == Frames(payloads) + rest
    requires Carry(codec, payloads, messages) && n == |messages|
    modifies stream
    ensures stream.Valid() && stream.Pending() == rest && received == messages
  {
    received := [];
    while |received| < n
      invariant |received| <= n && stream.Valid() && received == messages[..|received|]
      invariant stream.Pending() == Frames(payloads[|received|..]) + rest
    {
      ghost var k := |received|;
      FirstFrame(payloads[k..], rest);
      assert payloads[k..][1..] == payloads[k + 1..] && payloads[k..][0] == payloads[k];
      ReceiveFrame(payloads[k], Frames(payloads[k + 1..]) + rest);
      var r := RecvJson(codec, stream);
      assert r == Ok(messages[k]);
      received := received + [r.value];
    }
    assert Frames(payloads[n..]) + rest == rest;
  }

  class Sink {
    var written: seq<Byte>

    constructor ()
      ensures written == []
    {
      written := [];
    }

    method WriteAll(bytes: seq<Byte>)
      modifies this
      ensures written == old(written) + bytes
    {
      written := written + bytes;
    }
  }

  /** Sends one message. Its length is not checked here. */
  method SendJson<T>(codec: Codec<T>, sink: Sink, message: T) returns (r: Result<(), Error>)
    modifies sink
    ensures r == if codec.toBytes(message).None? then Err(InvalidData) else Ok(())
    ensures sink.written == old(sink.written) + (match codec.toBytes(message) case Some(b) => Frame(b) case None => [])
  {
    match codec.toBytes(message) {
      case Some(bytes) =>
        sink.WriteAll(Le32(|bytes|));
        sink.WriteAll(bytes);
        r := Ok(());
      case None =>
        r := Err(InvalidData);
    }
  }
}
