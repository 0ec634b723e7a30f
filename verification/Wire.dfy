/** Frames on a byte stream (hub/wire.go). Bodies are the encoded messages, taken as bytes. */
module Wire {
  import opened Wrappers
  import opened Octets

  const MAX_FRAME := 0x10_0000

  datatype FrameError = TooLarge | BadLength | EndOfStream | Truncated

  /** A connection: what has been written to it and not yet been read. */
  class Stream {
    var data: seq<Octet>

    constructor ()
      ensures data == []
    {
      data := [];
    }

    method Write(b: seq<Octet>)
      modifies this
      ensures data == old(data) + b
    {
      data := data + b;
    }

    /** Reads exactly n bytes, or what is left and an error. */
    method ReadFull(n: nat) returns (r: Result<seq<Octet>, FrameError>)
      modifies this
      ensures (r, data) == TakeBytes(old(data), n)
    {
      if |data| < n {
        r := Err(if data == [] then EndOfStream else Truncated);
        data := [];
      } else {
        r := Ok(data[..n]);
        data := data[n..];
      }
    }
  }

  function TakeBytes(data: seq<Octet>, n: nat): (Result<seq<Octet>, FrameError>, seq<Octet>) {
    if |data| < n then (Err(if data == [] then EndOfStream else Truncated), [])
    else (Ok(data[..n]), data[n..])
  }

  predicate ValidBody(body: seq<Octet>) { 1 <= |body| <= MAX_FRAME }

  function Frame(body: seq<Octet>): seq<Octet> { BE32(LowWord(|body|)) + body }

  method WriteFrame(w: Stream, body: seq<Octet>) returns (r: Result<(), FrameError>)
    modifies w
    ensures |body| > 0x10_0000 ==> r == Err(TooLarge) && w.data == old(w.data)
    ensures |body| <= 0x10_0000 ==> r == Ok(()) && w.data == old(w.data) + Frame(body)
  {
    if |body| > MAX_FRAME {
      return Err(TooLarge);
    }
    var hdr := BE32(LowWord(|body|));
    w.Write(hdr);
    w.Write(body);
    r := Ok(());
  }

  /** Four bytes that spell the length of the body, and the body. */
  lemma FrameBytes(body: seq<Octet>)
    requires |body| < 0x1_0000_0000
    ensures |Frame(body)| == 4 + |body| && Number(Frame(body)[..4]) == |body| && Frame(body)[4..] == body
  {
    hide BE32, LowWord, Number;
    NumberOfLowWord(|body|);
    assert Frame(body)[..4] == BE32(LowWord(|body|));
  }

  /** One frame off the front of the stream, and the rest. */
  function ReadOne(data: seq<Octet>): (Result<seq<Octet>, FrameError>, seq<Octet>) {
    match TakeBytes(data, 4)
    case (Err(e), rest) => (Err(e), rest)
    case (Ok(hdr), rest) =>
      var n := WordValue(U32(hdr));
      if n == 0 || n > MAX_FRAME then (Err(BadLength), rest) else TakeBytes(rest, n)
  }

  method ReadFrame(r: Stream) returns (body: Result<seq<Octet>, FrameError>)
    modifies r
    ensures (body, r.data) == ReadOne(old(r.data))
  {
    var hdr := r.ReadFull(4);
    if hdr.Err? {
      return hdr;
    }
    var n := WordValue(U32(hdr.value));
    if n == 0 || n > MAX_FRAME {
      return Err(BadLength);
    }
    body := r.ReadFull(n);
  }

  /** Reads frames until one fails: the bodies read, and the error that ended it. */
  function ReadAll(data: seq<Octet>): (seq<seq<Octet>>, FrameError)
    decreases |data|
  {
    match ReadOne(data)
    case (Err(e), _) => ([], e)
    case (Ok(body), rest) =>
      var (bodies, e) := ReadAll(rest);
      ([body] + bodies, e)
  }

  /** What writing these bodies in order leaves on the stream. */
  function Frames(bodies: seq<seq<Octet>>): seq<Octet> {
    if bodies == [] then [] else Frame(bodies[0]) + Frames(bodies[1..])
  }

  /** How many whole frames the first n bytes hold. */
  function Whole(bodies: seq<seq<Octet>>, n: nat): (k: nat)
    ensures k <= |bodies|
  {
    if bodies == [] || n < 4 + |bodies[0]| then 0 else 1 + Whole(bodies[1..], n - 4 - |bodies[0]|)
  }

  lemma ReadFrameFront(body: seq<Octet>, rest: seq<Octet>)
    requires ValidBody(body)
    ensures ReadOne(Frame(body) + rest) == (Ok(body), rest)
  {
    hide BE32, U32, LowWord, WordValue;
    NumberRead(|body|);
    var s := Frame(body) + rest;
    assert s[..4] == BE32(LowWord(|body|));
    assert s[4..] == body + rest;
    assert (body + rest)[..|body|] == body && (body + rest)[|body|..] == rest;
  }

  /** A frame is read exactly when the first four bytes spell a length from 1 to 2^20 and as many bytes
      follow; it is these bytes, and what follows them stays. */
  lemma ReadOneIff(data: seq<Octet>)
    ensures ReadOne(data).0.Ok? <==> |data| >= 4 && 1 <= Number(data[..4]) <= 0x10_0000 && |data| >= 4 + Number(data[..4])
    ensures ReadOne(data).0.Ok? ==>
      var n := Number(data[..4]); ReadOne(data) == (Ok(data[4..4 + n]), data[4 + n..])
    ensures |data| >= 4 && !(1 <= Number(data[..4]) <= 0x10_0000) ==> ReadOne(data) == (Err(BadLength), data[4..])
  {
    hide U32, WordValue, Number;
    if |data| >= 4 {
      var n := WordValue(U32(data[..4]));
      WordOfBytes(data[..4]);
      if |data| >= 4 + n {
        assert data[4..][..n] == data[4..4 + n] && data[4..][n..] == data[4 + n..];
      }
    }
  }

  /** A frame that the stream cuts short is an error, and a clean end only before its first byte. */
  lemma ReadCutFrame(body: seq<Octet>, n: nat)
    requires ValidBody(body) && n < 4 + |body|
    ensures ReadOne(Frame(body)[..n]).0 == Err(if n == 0 || n == 4 then EndOfStream else Truncated)
  {
    hide BE32, U32, LowWord, WordValue;
    var s := Frame(body)[..n];
    if n >= 4 {
      NumberRead(|body|);
      assert s[..4] == BE32(LowWord(|body|));
      assert |s[4..]| == n - 4;
    }
  }

  lemma ReadNothing()
    ensures ReadOne([]).0 == Err(EndOfStream)
  {
  }

  /** Reading the first n bytes of a stream of frames gives exactly the bodies of the whole
      frames in them, never a different one, and ends for want of bytes. */
  lemma {:induction false} ReadPrefix(bodies: seq<seq<Octet>>, n: nat)
    requires forall b :: b in bodies ==> ValidBody(b)
    requires n <= |Frames(bodies)|
    ensures ReadAll(Frames(bodies)[..n]).0 == bodies[..Whole(bodies, n)]
    ensures ReadAll(Frames(bodies)[..n]).1 in {EndOfStream, Truncated}
  {
    hide BE32, U32, LowWord, WordValue, ReadOne;
    if bodies == [] {
      ReadNothing();
    } else {
      var size := 4 + |bodies[0]|;
      if n < size {
        assert Frames(bodies)[..n] == Frame(bodies[0])[..n];
        ReadCutFrame(bodies[0], n);
        assert bodies[..Whole(bodies, n)] == [];
      } else {
        assert Frames(bodies)[..n] == Frame(bodies[0]) + Frames(bodies[1..])[..n - size];
        ReadFrameFront(bodies[0], Frames(bodies[1..])[..n - size]);
        ReadPrefix(bodies[1..], n - size);
        assert bodies[..Whole(bodies, n)] == [bodies[0]] + bodies[1..][..Whole(bodies[1..], n - size)];
      }
    }
  }

  /** Reading back everything that was written. */
  lemma {:induction false} ReadBack(bodies: seq<seq<Octet>>)
    requires forall b :: b in bodies ==> ValidBody(b)
    ensures ReadAll(Frames(bodies)) == (bodies, EndOfStream)
  {
    hide BE32, U32, LowWord, WordValue;
    if bodies != [] {
      ReadFrameFront(bodies[0], Frames(bodies[1..]));
      ReadBack(bodies[1..]);
      assert [bodies[0]] + bodies[1..] == bodies;
    }
  }
}
