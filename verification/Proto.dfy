/**
 * The relay wire format: frames `kind | u32 length LE | payload` on a byte
 * stream. JSON is a parameter: an encoder with its decoder.
 */
module Proto {
  import opened Wrappers
  import opened Bytes

  const MAX_FRAME: nat := 16 * 1024 * 1024
  const KIND_CONTROL: byte := 0
  const KIND_DATA: byte := 1

  datatype ControlMsg =
    | Register(agentName: string, host: string, token: string, version: string, proto: nat)
    | SessionDone(sessionId: string, ok: bool, error: Option<string>, bytes: nat)
    | Pong
    | Registered(ok: bool, message: string)
    | StartBackup(sessionId: string, inst: Option<string>, setName: string)
    | StartRestore(sessionId: string, inst: Option<string>, setName: string)
    | Cancel(sessionId: string)
    | Ping
    | Hello(sessionId: string, token: string)
    | End(ok: bool, error: Option<string>)

  datatype Frame = Control(msg: ControlMsg) | Data(payload: seq<byte>)

  datatype IoError = InvalidInput | InvalidData | UnexpectedEof

  datatype Json = Json(encode: ControlMsg -> seq<byte>, decode: seq<byte> -> Option<ControlMsg>)

  ghost predicate JsonLaws(j: Json) {
    forall m :: j.decode(j.encode(m)) == Some(m)
  }

  function Kind(f: Frame): byte {
    if f.Control? then KIND_CONTROL else KIND_DATA
  }

  function Body(j: Json, f: Frame): seq<byte> {
    match f
    case Control(msg) => j.encode(msg)
    case Data(payload) => payload
  }

  predicate Fits(j: Json, f: Frame) {
    |Body(j, f)| <= MAX_FRAME
  }

  ghost predicate AllFit(j: Json, fs: seq<Frame>) {
    forall i :: 0 <= i < |fs| ==> Fits(j, fs[i])
  }

  function EncodeRaw(kind: byte, payload: seq<byte>): (s: seq<byte>)
    ensures |s| == 5 + |payload|
  {
    [kind] + Le32(|payload|) + payload
  }

  function Encode(j: Json, f: Frame): (s: seq<byte>) {
    EncodeRaw(Kind(f), Body(j, f))
  }

  function EncodeAll(j: Json, fs: seq<Frame>): seq<byte> {
    if fs == [] then [] else Encode(j, fs[0]) + EncodeAll(j, fs[1..])
  }

  /** One read at the front of `s`, the bytes that arrive before the peer closes. */
  datatype ReadResult = CleanEnd | Got(frame: Frame, size: nat) | Failed(error: IoError)

  function ReadOne(j: Json, s: seq<byte>): (r: ReadResult)
    ensures r.Got? ==> 5 <= r.size <= |s|
  {
    if |s| == 0 then CleanEnd
    else if |s| < 5 then Failed(UnexpectedEof)
    else
      var len := LeValue(s[1..5]);
      if len > MAX_FRAME then Failed(InvalidData)
      else if |s| < 5 + len then Failed(UnexpectedEof)
      else
        var payload := s[5..5 + len];
        if s[0] == KIND_CONTROL then
          match j.decode(payload)
          case Some(msg) => Got(Control(msg), 5 + len)
          case None => Failed(InvalidData)
        else if s[0] == KIND_DATA then Got(Data(payload), 5 + len)
        else Failed(InvalidData)
  }

  /** Every frame a reader gets from `s`, and how the stream ends for it. */
  function DecodeAll(j: Json, s: seq<byte>): (seq<Frame>, Option<IoError>)
    decreases |s|
  {
    match ReadOne(j, s)
    case CleanEnd => ([], None)
    case Failed(e) => ([], Some(e))
    case Got(f, size) =>
      var (fs, end) := DecodeAll(j, s[size..]);
      ([f] + fs, end)
  }

  /** An encoded frame at the front of any stream reads back as itself. */
  lemma ReadWhole(j: Json, f: Frame, tail: seq<byte>)
    requires JsonLaws(j) && Fits(j, f)
    ensures ReadOne(j, Encode(j, f) + tail) == Got(f, |Encode(j, f)|)
    ensures (Encode(j, f) + tail)[|Encode(j, f)|..] == tail
  {
    var body := Body(j, f);
    var s := Encode(j, f) + tail;
    Le32RoundTrip(|body|);
    assert s[1..5] == Le32(|body|);
    assert s[5..5 + |body|] == body;
    assert s[0] == Kind(f);
  }

  /**
   * A frame cut short reads as a clean end when nothing of it is there, else as a truncation, never as another
   * frame.
   */
  lemma ReadCut(j: Json, f: Frame, n: nat)
    requires Fits(j, f) && n < |Encode(j, f)|
    ensures ReadOne(j, Encode(j, f)[..n]) == if n == 0 then CleanEnd else Failed(UnexpectedEof)
  {
    var whole := Encode(j, f);
    if n >= 5 {
      Le32RoundTrip(|Body(j, f)|);
      assert whole[1..5] == Le32(|Body(j, f)|);
      assert whole[..n][1..5] == whole[1..5];
    }
  }

  lemma {:induction false} EncodeAllConcat(j: Json, a: seq<Frame>, b: seq<Frame>)
    ensures EncodeAll(j, a + b) == EncodeAll(j, a) + EncodeAll(j, b)
  {
    if a == [] {
      assert a + b == b;
    } else {
      EncodeAllConcat(j, a[1..], b);
      assert (a + b)[1..] == a[1..] + b;
      Associative(Encode(j, a[0]), EncodeAll(j, a[1..]), EncodeAll(j, b));
    }
  }

  lemma EncodeAllOne(j: Json, f: Frame)
    ensures EncodeAll(j, [f]) == Encode(j, f)
  {
    assert EncodeAll(j, [f]) == Encode(j, f) + EncodeAll(j, []);
  }

  /** How many whole frames of `fs` lie in the first `n` bytes of its encoding. */
  function WholeFrames(j: Json, fs: seq<Frame>, n: nat): (k: nat)
    ensures k <= |fs|
  {
    if fs == [] || n < |Encode(j, fs[0])| then 0
    else 1 + WholeFrames(j, fs[1..], n - |Encode(j, fs[0])|)
  }

  /** The last frame boundary at or before `n`: it fits, and one more frame does not. */
  lemma {:induction false} WholeFramesIsMaximal(j: Json, fs: seq<Frame>, n: nat)
    ensures var k := WholeFrames(j, fs, n);
            |EncodeAll(j, fs[..k])| <= n
            && (k < |fs| ==> n < |EncodeAll(j, fs[..k + 1])|)
  {
    var k := WholeFrames(j, fs, n);
    if fs == [] {
    } else if n < |Encode(j, fs[0])| {
      EncodeAllOne(j, fs[0]);
      assert fs[..1] == [fs[0]];
    } else {
      WholeFramesIsMaximal(j, fs[1..], n - |Encode(j, fs[0])|);
      assert fs[..k][1..] == fs[1..][..k - 1];
      if k < |fs| {
        assert fs[..k + 1][1..] == fs[1..][..k];
      }
    }
  }

  /** A cut past the first frame decodes as that frame followed by the rest cut. */
  lemma DecodeStep(j: Json, f: Frame, rest: seq<byte>)
    requires JsonLaws(j) && Fits(j, f)
    ensures DecodeAll(j, Encode(j, f) + rest) == ([f] + DecodeAll(j, rest).0, DecodeAll(j, rest).1)
  {
    ReadWhole(j, f, rest);
  }

  lemma SplitPrefix(a: seq<byte>, b: seq<byte>, n: nat)
    requires |a| <= n <= |a| + |b|
    ensures (a + b)[..n] == a + b[..n - |a|]
  {
  }

  /**
   * Decoding any prefix of an encoded list yields exactly the frames wholly
   * inside it; the end is clean exactly on a frame boundary and a truncation
   * error everywhere else.
   */
  lemma {:induction false} DecodePrefix(j: Json, fs: seq<Frame>, n: nat)
    requires JsonLaws(j) && AllFit(j, fs) && n <= |EncodeAll(j, fs)|
    ensures var k := WholeFrames(j, fs, n);
            DecodeAll(j, EncodeAll(j, fs)[..n])
            == (fs[..k], if |EncodeAll(j, fs[..k])| == n then None else Some(UnexpectedEof))
  {
    if fs == [] {
    } else if n < |Encode(j, fs[0])| {
      assert EncodeAll(j, fs)[..n] == Encode(j, fs[0])[..n];
      ReadCut(j, fs[0], n);
    } else {
      var first := Encode(j, fs[0]);
      var k := WholeFrames(j, fs, n);
      SplitPrefix(first, EncodeAll(j, fs[1..]), n);
      DecodeStep(j, fs[0], EncodeAll(j, fs[1..])[..n - |first|]);
      DecodePrefix(j, fs[1..], n - |first|);
      assert fs[..k][1..] == fs[1..][..k - 1];
      assert fs[..k] == [fs[0]] + fs[1..][..k - 1];
    }
  }

  lemma {:induction false} WholeFramesOfAll(j: Json, fs: seq<Frame>)
    ensures WholeFrames(j, fs, |EncodeAll(j, fs)|) == |fs|
  {
    if fs != [] { WholeFramesOfAll(j, fs[1..]); }
  }

  /** A whole list decodes to itself, ending cleanly. */
  lemma DecodeWhole(j: Json, fs: seq<Frame>)
    requires JsonLaws(j) && AllFit(j, fs)
    ensures DecodeAll(j, EncodeAll(j, fs)) == (fs, None)
  {
    var s := EncodeAll(j, fs);
    DecodePrefix(j, fs, |s|);
    WholeFramesOfAll(j, fs);
    assert s[..|s|] == s && fs[..|fs|] == fs;
  }

  /** A cut stream ends cleanly if and only if the cut is between two frames. */
  lemma CleanEndOnlyOnBoundary(j: Json, fs: seq<Frame>, n: nat)
    requires JsonLaws(j) && AllFit(j, fs) && n <= |EncodeAll(j, fs)|
    ensures DecodeAll(j, EncodeAll(j, fs)[..n]).1.None?
            <==> exists k :: 0 <= k <= |fs| && n == |EncodeAll(j, fs[..k])|
  {
    DecodePrefix(j, fs, n);
    forall k | 0 <= k <= |fs| && n == |EncodeAll(j, fs[..k])|
      ensures DecodeAll(j, EncodeAll(j, fs)[..n]).1.None?
    {
      assert fs == fs[..k] + fs[k..];
      EncodeAllConcat(j, fs[..k], fs[k..]);
      assert EncodeAll(j, fs)[..n] == EncodeAll(j, fs[..k]);
      DecodeWhole(j, fs[..k]);
    }
  }

  /** One direction of a connection: the bytes written and not yet read. */
  class ByteStream {
    var rest: seq<byte>

    constructor ()
      ensures rest == []
    {
      rest := [];
    }

    method WriteAll(bytes: seq<byte>)
      modifies this
      ensures rest == old(rest) + bytes
    {
      rest := rest + bytes;
    }

    /** Fill `buf[from..to]`, or fail when the stream ends first. */
    method ReadExact(buf: array<byte>, from: nat, to: nat) returns (ok: bool)
      requires from <= to <= buf.Length
      modifies this, buf
      ensures ok == (to - from <= |old(rest)|)
      ensures ok ==> rest == old(rest)[to - from..]
      ensures !ok ==> rest == []
      ensures ok ==> buf[..] == old(buf[..from]) + old(rest)[..to - from] + old(buf[to..])
    {
      ok := to - from <= |rest|;
      if ok {
        var i := from;
        while i < to
          invariant from <= i <= to
          invariant rest == old(rest)
          invariant buf[..] == old(buf[..from]) + rest[..i - from] + old(buf[i..])
        {
          buf[i] := rest[i - from];
          i := i + 1;
        }
        rest := rest[to - from..];
      } else {
        rest := [];
      }
    }
  }

  /** Write one frame; an oversized payload is refused before any byte goes out. */
  method WriteRaw(w: ByteStream, kind: byte, payload: seq<byte>) returns (r: Result<(), IoError>)
    modifies w
    ensures r.Ok? <==> |payload| <= MAX_FRAME
    ensures r.Ok? ==> w.rest == old(w.rest) + EncodeRaw(kind, payload)
    ensures r.Err? ==> r.error == InvalidInput && w.rest == old(w.rest)
  {
    if |payload| > MAX_FRAME {
      return Err(InvalidInput);
    }
    var header := new byte[5](_ => 0);
    header[0] := kind;
    var len := Le32(|payload|);
    for i := 0 to 4
      invariant w.rest == old(w.rest)
      invariant header[..] == [kind] + len[..i] + seq(4 - i, _ => 0)
    {
      header[1 + i] := len[i];
    }
    assert len[..4] == len;
    var head := header[..];
    assert head == [kind] + len;
    w.WriteAll(head);
    w.WriteAll(payload);
    Associative(old(w.rest), head, payload);
    r := Ok(());
  }

  /** Read one frame, `None` at a clean close between frames. */
  method ReadFrame(j: Json, r: ByteStream) returns (f: Result<Option<Frame>, IoError>)
    modifies r
    ensures match ReadOne(j, old(r.rest))
            case CleanEnd => f == Ok(None) && r.rest == []
            case Got(frame, size) => f == Ok(Some(frame)) && r.rest == old(r.rest)[size..]
            case Failed(e) => f == Err(e)
  {
    ghost var s := r.rest;
    var header := new byte[5](_ => 0);
    var any := r.ReadExact(header, 0, 1);
    if !any {
      return Ok(None);
    }
    assert header[0] == s[0];
    assert r.rest == s[1..];
    var whole := r.ReadExact(header, 1, 5);
    if !whole {
      return Err(UnexpectedEof);
    }
    assert r.rest == s[5..];
    assert header[1..5] == s[1..5];
    var kind := header[0];
    var len := LeValue(header[1..5]);
    if len > MAX_FRAME {
      return Err(InvalidData);
    }
    var payload := new byte[len](_ => 0);
    var filled := r.ReadExact(payload, 0, len);
    if !filled {
      return Err(UnexpectedEof);
    }
    assert payload[..] == s[5..5 + len];
    assert r.rest == s[5 + len..];
    if kind == KIND_CONTROL {
      match j.decode(payload[..])
      case Some(msg) => f := Ok(Some(Control(msg)));
      case None => f := Err(InvalidData);
    } else if kind == KIND_DATA {
      f := Ok(Some(Data(payload[..])));
    } else {
      f := Err(InvalidData);
    }
  }
}
