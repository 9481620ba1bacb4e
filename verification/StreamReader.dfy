/**
 * The two ends of an archive stream: the buffered writer of the tar producer and
 * the blocking reader handed to the uploader. The relay's reader has the same body.
 */
module StreamReader {
  import opened Wrappers
  import opened Bytes
  import opened Proto

  const CHUNK: nat := 256 * 1024

  /** Writer end: accumulates into chunks; `sent` is what it pushed into the channel. */
  class ChannelWriter {
    var sent: seq<seq<byte>>
    var buf: seq<byte>
    var receiverGone: bool

    ghost predicate Valid()
      reads this
    {
      |buf| < CHUNK
    }

    /** Every byte written so far. */
    function Written(): seq<byte>
      reads this
    {
      Flatten(sent) + buf
    }

    constructor (receiverGone: bool)
      ensures Valid() && Written() == [] && this.receiverGone == receiverGone
    {
      sent := [];
      buf := [];
      this.receiverGone := receiverGone;
    }

    /** Buffer `data` and push every full chunk. */
    method Write(data: seq<byte>) returns (r: Result<nat, IoError>)
      requires Valid()
      modifies this`sent, this`buf
      ensures r.Ok? ==> Valid() && r.value == |data| && Written() == old(Written()) + data
      ensures r.Ok? <==> !receiverGone || |old(buf)| + |data| < CHUNK
      ensures old(sent) <= sent && forall i :: |old(sent)| <= i < |sent| ==> |sent[i]| == CHUNK
    {
      buf := buf + data;
      Associative(Flatten(sent), old(buf), data);
      while |buf| >= CHUNK
        invariant Flatten(sent) + buf == old(Written()) + data
        invariant old(sent) <= sent && forall i :: |old(sent)| <= i < |sent| ==> |sent[i]| == CHUNK
        invariant receiverGone ==> buf == old(buf) + data
        decreases |buf|
      {
        var chunk := buf[..CHUNK];
        ghost var before := buf;
        buf := buf[CHUNK..];
        if receiverGone {
          return Err(InvalidInput);
        }
        FlattenSnoc(sent, chunk);
        Associative(Flatten(sent), chunk, buf);
        assert before == chunk + buf;
        sent := sent + [chunk];
      }
      r := Ok(|data|);
    }

    /** Push what is left over. */
    method Flush() returns (ok: bool)
      requires Valid()
      modifies this`sent, this`buf
      ensures ok <==> old(buf) == [] || !receiverGone
      ensures ok ==> buf == [] && Flatten(sent) == old(Written())
    {
      if buf != [] {
        var chunk := buf;
        buf := [];
        if receiverGone {
          return false;
        }
        FlattenSnoc(sent, chunk);
        sent := sent + [chunk];
      }
      ok := true;
    }
  }

  /**
   * Reader end. `rx` is what the data channel still delivers before it closes, and
   * `done` what the verdict channel then holds (None when its sender was dropped).
   */
  class ChannelReader {
    var rx: seq<seq<byte>>
    var done: Option<bool>
    var buf: seq<byte>
    var pos: nat
    var verdict: Option<bool>

    ghost predicate Valid()
      reads this
    {
      pos <= |buf|
    }

    /** The bytes still to be read. */
    function Pending(): seq<byte>
      reads this
      requires Valid()
    {
      buf[pos..] + Flatten(rx)
    }

    /** Whether the producer confirmed the stream; settled once and for all when first asked. */
    predicate Confirmed()
      reads this
    {
      match verdict
      case Some(v) => v
      case None => done == Some(true)
    }

    constructor (rx: seq<seq<byte>>, done: Option<bool>)
      ensures Valid() && Pending() == Flatten(rx) && (Confirmed() <==> done == Some(true))
    {
      this.rx := rx;
      this.done := done;
      buf := [];
      pos := 0;
      verdict := None;
    }

    /**
     * Copy the next bytes into `out`. Nothing left is end of file only when the
     * producer confirmed the stream, and an error otherwise - on every call.
     */
    method Read(out: array<byte>) returns (r: Result<nat, IoError>)
      requires Valid()
      modifies this, out
      ensures Valid() && Confirmed() == old(Confirmed())
      ensures r.Ok? ==> r.value <= out.Length && out[..r.value] + Pending() == old(Pending())
      ensures old(Pending()) != [] ==> r.Ok? && (out.Length > 0 ==> r.value > 0)
      ensures old(Pending()) == [] ==> Pending() == [] && r == if Confirmed() then Ok(0) else Err(UnexpectedEof)
    {
      while pos >= |buf|
        invariant Valid() && Pending() == old(Pending()) && Confirmed() == old(Confirmed())
        decreases |rx|, |buf| - pos
      {
        if rx != [] {
          assert buf[pos..] == [];
          buf := rx[0];
          pos := 0;
          rx := rx[1..];
          assert buf[0..] == buf;
          if buf == [] { assert Pending() == old(Pending()); }
        } else {
          if verdict == None {
            verdict := Some(if done.Some? then done.value else false);
          }
          if verdict.value {
            return Ok(0);
          }
          return Err(UnexpectedEof);
        }
      }
      var n := if |buf| - pos <= out.Length then |buf| - pos else out.Length;
      CopyOut(out, buf[pos..pos + n]);
      assert buf[pos..] == buf[pos..pos + n] + buf[pos + n..];
      Associative(buf[pos..pos + n], buf[pos + n..], Flatten(rx));
      pos := pos + n;
      r := Ok(n);
    }

    /** Read until end of file, as the uploader does. */
    method ReadToEnd(size: nat) returns (r: Result<seq<byte>, IoError>)
      requires Valid() && size > 0
      modifies this
      ensures r == if old(Confirmed()) then Ok(old(Pending())) else Err(UnexpectedEof)
    {
      var got: seq<byte> := [];
      var out := new byte[size](_ => 0);
      while true
        invariant Valid() && fresh(out) && out.Length == size && Confirmed() == old(Confirmed())
        invariant got + Pending() == old(Pending())
        decreases |Pending()|
      {
        ghost var pending := Pending();
        var n := Read(out);
        if n.Err? {
          return Err(n.error);
        }
        Associative(got, out[..n.value], Pending());
        got := got + out[..n.value];
        if n.value == 0 {
          assert pending == [];
          return Ok(got);
        }
      }
    }
  }

  method CopyOut(out: array<byte>, src: seq<byte>)
    requires |src| <= out.Length
    modifies out
    ensures out[..|src|] == src
  {
    for i := 0 to |src|
      invariant out[..i] == src[..i]
    {
      out[i] := src[i];
    }
  }
}
