/** Reading an HTTP request line that arrives in pieces (crates/ghostport-metrics/src/http.rs). */
module RequestLine {
  import opened Common

  const MAX_REQUEST_LINE: nat := 8192
  const CHUNK: nat := 512
  const NEWLINE: Byte := 10

  datatype Error = LineTooLong

  /** What the reads return, up to the end of the stream: at least one byte each, at most a chunk. */
  ghost predicate Pieces(pieces: seq<seq<Byte>>)
  {
    forall i :: 0 <= i < |pieces| ==> 1 <= |pieces[i]| <= CHUNK
  }

  function FirstNewline(data: seq<Byte>): (r: Option<nat>)
    ensures r.Some? ==> r.value < |data| && data[r.value] == NEWLINE && NEWLINE !in data[..r.value]
    ensures r.None? ==> NEWLINE !in data
  {
    if data == [] then None
    else if data[0] == NEWLINE then Some(0)
    else
      match FirstNewline(data[1..])
      case None => None
      case Some(p) => assert data[..p + 1] == [data[0]] + data[1..][..p]; Some(p + 1)
  }

  /** The bytes of the line, read by read; `buf` is what has been read before. */
  function ReadLine(buf: seq<Byte>, pieces: seq<seq<Byte>>): Result<seq<Byte>, Error>
    decreases |pieces|
  {
    if pieces == [] then Ok(buf)
    else
      var more := buf + pieces[0];
      match FirstNewline(more)
      case Some(p) => Ok(more[..p])
      case None => if |more| > MAX_REQUEST_LINE then Err(LineTooLong) else ReadLine(more, pieces[1..])
  }

  /** The largest the buffer ever gets. */
  function Peak(buf: seq<Byte>, pieces: seq<seq<Byte>>): nat
    decreases |pieces|
  {
    if pieces == [] then |buf|
    else
      var more := buf + pieces[0];
      if FirstNewline(more).Some? || |more| > MAX_REQUEST_LINE then |more| else Peak(more, pieces[1..])
  }

  /** The read loop. `peak` is the largest size of its buffer. */
  method ReadRequestLine(pieces: seq<seq<Byte>>) returns (r: Result<seq<Byte>, Error>, ghost peak: nat)
    ensures r == ReadLine([], pieces) && peak == Peak([], pieces)
  {
    var buf: seq<Byte> := [];
    var i := 0;
    peak := 0;
    while i < |pieces|
      invariant i <= |pieces| && peak == |buf|
      invariant ReadLine(buf, pieces[i..]) == ReadLine([], pieces)
      invariant Peak(buf, pieces[i..]) == Peak([], pieces)
    {
      assert pieces[i..][1..] == pieces[i + 1..];
      buf := buf + pieces[i];
      i := i + 1;
      peak := |buf|;
      var pos := FirstNewline(buf);
      if pos.Some? {
        return Ok(buf[..pos.value]), peak;
      }
      if |buf| > MAX_REQUEST_LINE {
        return Err(LineTooLong), peak;
      }
    }
    r := Ok(buf);
  }

  lemma {:induction false} BufferBounded(buf: seq<Byte>, pieces: seq<seq<Byte>>)
    requires Pieces(pieces) && |buf| <= MAX_REQUEST_LINE
    ensures Peak(buf, pieces) <= MAX_REQUEST_LINE + CHUNK
    decreases |pieces|
  {
    if pieces != [] && |buf + pieces[0]| <= MAX_REQUEST_LINE {
      BufferBounded(buf + pieces[0], pieces[1..]);
    }
  }

  // ----- The outcome without looking at the pieces -----

  /** What a reader of the whole input would answer. */
  function WholeLine(data: seq<Byte>): Result<seq<Byte>, Error>
  {
    match FirstNewline(data)
    case Some(p) => if p <= MAX_REQUEST_LINE then Ok(data[..p]) else Err(LineTooLong)
    case None => if |data| <= MAX_REQUEST_LINE then Ok(data) else Err(LineTooLong)
  }

  /** No newline within the limit, but one that a last read may still bring in. */
  predicate Borderline(data: seq<Byte>)
  {
    match FirstNewline(data)
    case Some(p) => MAX_REQUEST_LINE < p < MAX_REQUEST_LINE + CHUNK
    case None => false
  }

  lemma {:induction false} FirstNewlineIs(data: seq<Byte>, p: nat)
    requires p < |data| && data[p] == NEWLINE && NEWLINE !in data[..p]
    ensures FirstNewline(data) == Some(p)
  {
    if p > 0 {
      assert data[..p][0] == data[0] && data[1..][..p - 1] == data[..p][1..];
      FirstNewlineIs(data[1..], p - 1);
    }
  }

  /** The first newline of a text does not depend on what follows it. */
  lemma NewlineStays(data: seq<Byte>, more: seq<Byte>)
    ensures FirstNewline(data).Some? ==>
              && FirstNewline(data + more) == FirstNewline(data)
              && data[..FirstNewline(data).value] == (data + more)[..FirstNewline(data).value]
    ensures FirstNewline(data).None? && FirstNewline(data + more).Some? ==> FirstNewline(data + more).value >= |data|
  {
    if FirstNewline(data).Some? {
      var p := FirstNewline(data).value;
      assert data[..p] == (data + more)[..p];
      FirstNewlineIs(data + more, p);
    } else {
      assert forall q :: 0 <= q < |data| ==> (data + more)[q] == data[q];
    }
  }

  lemma {:induction false} OutcomeIsWhole(buf: seq<Byte>, pieces: seq<seq<Byte>>)
    requires Pieces(pieces) && |buf| <= MAX_REQUEST_LINE && FirstNewline(buf).None?
    requires !Borderline(buf + Flatten(pieces))
    ensures ReadLine(buf, pieces) == WholeLine(buf + Flatten(pieces))
    decreases |pieces|
  {
    if pieces == [] {
      assert buf + Flatten(pieces) == buf;
    } else {
      var more, rest := buf + pieces[0], Flatten(pieces[1..]);
      assert buf + Flatten(pieces) == more + rest;
      NewlineStays(more, rest);
      if FirstNewline(more).None? && |more| <= MAX_REQUEST_LINE {
        OutcomeIsWhole(more, pieces[1..]);
      }
    }
  }

  // ----- Two ways to cut the same input -----

  function OneByOne(data: seq<Byte>): (r: seq<seq<Byte>>)
    ensures Pieces(r) && Flatten(r) == data
  {
    if data == [] then [] else [[data[0]]] + OneByOne(data[1..])
  }

  function Blocks(data: seq<Byte>): (r: seq<seq<Byte>>)
    ensures Pieces(r) && Flatten(r) == data
  {
    if data == [] then []
    else if |data| <= CHUNK then [data]
    else [data[..CHUNK]] + Blocks(data[CHUNK..])
  }

  lemma {:induction false} OneByOneFails(buf: seq<Byte>, data: seq<Byte>)
    requires |buf| <= MAX_REQUEST_LINE && FirstNewline(buf).None? && Borderline(buf + data)
    ensures ReadLine(buf, OneByOne(data)) == Err(LineTooLong)
    decreases |data|
  {
    var more, rest := buf + [data[0]], data[1..];
    assert buf + data == more + rest;
    NewlineStays(more, rest);
    if |more| <= MAX_REQUEST_LINE {
      OneByOneFails(more, rest);
    }
  }

  lemma {:induction false} BlocksSucceed(buf: seq<Byte>, data: seq<Byte>)
    requires |buf| <= MAX_REQUEST_LINE && |buf| % CHUNK == 0 && FirstNewline(buf).None? && Borderline(buf + data)
    ensures ReadLine(buf, Blocks(data)).Ok?
    decreases |data|
  {
    var first := if |data| <= CHUNK then data else data[..CHUNK];
    var more, rest := buf + first, data[|first|..];
    assert buf + data == more + rest;
    NewlineStays(more, rest);
    if FirstNewline(more).None? {
      assert |data| > CHUNK;
      BlocksSucceed(more, rest);
    }
  }

  ghost predicate CutsOf(pieces: seq<seq<Byte>>, data: seq<Byte>)
  {
    Pieces(pieces) && Flatten(pieces) == data
  }

  ghost predicate CutDoesNotMatter(data: seq<Byte>)
  {
    forall a: seq<seq<Byte>>, b: seq<seq<Byte>> :: CutsOf(a, data) && CutsOf(b, data) ==> ReadLine([], a) == ReadLine([], b)
  }

  /** Unless the first newline is in the last chunk's reach, every way to cut the input gives the whole input's outcome. */
  lemma OutcomeOfAnyCut(data: seq<Byte>, pieces: seq<seq<Byte>>)
    requires CutsOf(pieces, data) && !Borderline(data)
    ensures ReadLine([], pieces) == WholeLine(data)
  {
    assert [] + data == data;
    OutcomeIsWhole([], pieces);
  }

  /** The outcome is the same for every way to cut the input exactly when the first newline is not in that reach. */
  lemma CutDoesNotMatterIff(data: seq<Byte>)
    ensures CutDoesNotMatter(data) <==> !Borderline(data)
  {
    if Borderline(data) {
      assert [] + data == data;
      OneByOneFails([], data);
      BlocksSucceed([], data);
      assert CutsOf(OneByOne(data), data) && CutsOf(Blocks(data), data);
    } else {
      forall a: seq<seq<Byte>>, b: seq<seq<Byte>> | CutsOf(a, data) && CutsOf(b, data)
        ensures ReadLine([], a) == ReadLine([], b)
      {
        OutcomeOfAnyCut(data, a);
        OutcomeOfAnyCut(data, b);
      }
    }
  }
}
