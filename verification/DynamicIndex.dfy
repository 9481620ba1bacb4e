/**
 * The dynamic index file (`.didx`): a 4096-byte header and one 40-byte entry per
 * chunk, its cumulative end offset (u64 LE) and its digest.
 */
module DynamicIndex {
  import opened Wrappers
  import opened Bytes
  import opened DataBlob

  const DYNAMIC_MAGIC: seq<byte> := [28, 145, 78, 165, 25, 186, 179, 205]
  const HEADER_LEN: nat := 4096
  const ENTRY_LEN: nat := 8 + 32
  const RESERVED: nat := 4032

  type I64 = v: int | -0x8000_0000_0000_0000 <= v < 0x8000_0000_0000_0000

  datatype Entry = Entry(end: nat, digest: Digest)

  datatype Index = Index(ctime: I64, uuid: Block16, csum: Digest, entries: seq<Entry>)

  datatype IndexError = TooShort | BadMagic | RaggedBody

  /** Two's complement. */
  function ToU64(v: I64): (u: nat)
    ensures u < U64_LIMIT
  {
    if v < 0 then v + U64_LIMIT else v
  }

  function ToI64(u: nat): I64
    requires u < U64_LIMIT
  {
    if u >= 0x8000_0000_0000_0000 then u - U64_LIMIT else u
  }

  function Zeros(n: nat): (z: seq<byte>)
    ensures |z| == n
  {
    seq(n, _ => 0)
  }

  function EntryBytes(e: Entry): (s: seq<byte>)
    ensures |s| == ENTRY_LEN
  {
    Le64(e.end) + e.digest
  }

  function EntriesBytes(es: seq<Entry>): (s: seq<byte>)
    ensures |s| == ENTRY_LEN * |es|
  {
    if es == [] then [] else EntryBytes(es[0]) + EntriesBytes(es[1..])
  }

  /** SHA-256 over every (end offset, digest) pair. */
  function Csum(p: Primitives, es: seq<Entry>): Digest {
    p.sha256(EntriesBytes(es))
  }

  function TotalSize(es: seq<Entry>): nat {
    if es == [] then 0 else es[|es| - 1].end
  }

  function Digests(es: seq<Entry>): (ds: seq<Digest>)
    ensures |ds| == |es|
    ensures forall i :: 0 <= i < |es| ==> ds[i] == es[i].digest
  {
    seq(|es|, i requires 0 <= i < |es| => es[i].digest)
  }

  function Header(ix: Index): (s: seq<byte>)
    ensures |s| == HEADER_LEN
  {
    DYNAMIC_MAGIC + ix.uuid + Le64(ToU64(ix.ctime)) + ix.csum + Zeros(RESERVED)
  }

  /** The file an index is stored as. */
  function Layout(ix: Index): (s: seq<byte>) {
    Header(ix) + EntriesBytes(ix.entries)
  }

  function ParseEntries(body: seq<byte>): seq<Entry>
    requires |body| % ENTRY_LEN == 0
  {
    if body == [] then []
    else [Entry(LeValue(body[..8]), body[8..ENTRY_LEN])] + ParseEntries(body[ENTRY_LEN..])
  }

  function Parse(bytes: seq<byte>): Result<Index, IndexError> {
    if |bytes| < HEADER_LEN then Err(TooShort)
    else if bytes[..8] != DYNAMIC_MAGIC then Err(BadMagic)
    else
      var body := bytes[HEADER_LEN..];
      if |body| % ENTRY_LEN != 0 then Err(RaggedBody)
      else
        Pow256Values();
        Ok(Index(ToI64(LeValue(bytes[24..32])), bytes[8..24], bytes[32..64], ParseEntries(body)))
  }

  predicate VerifyCsum(p: Primitives, ix: Index) {
    Csum(p, ix.entries) == ix.csum
  }

  ghost predicate OffsetsFit(es: seq<Entry>) {
    forall i :: 0 <= i < |es| ==> es[i].end < U64_LIMIT
  }

  lemma LayoutParts(ix: Index)
    ensures var s := Layout(ix);
            |s| == HEADER_LEN + ENTRY_LEN * |ix.entries| && s[..8] == DYNAMIC_MAGIC && s[8..24] == ix.uuid
            && s[24..32] == Le64(ToU64(ix.ctime)) && s[32..64] == ix.csum
            && s[64..HEADER_LEN] == Zeros(RESERVED) && s[HEADER_LEN..] == EntriesBytes(ix.entries)
  {
    var s := Layout(ix);
    assert s[8..24] == ix.uuid;
    assert s[24..32] == Le64(ToU64(ix.ctime));
    assert s[32..64] == ix.csum;
    assert s[64..HEADER_LEN] == Zeros(RESERVED);
  }

  lemma {:induction false} ParseEntriesOfBytes(es: seq<Entry>)
    requires OffsetsFit(es)
    ensures |EntriesBytes(es)| % ENTRY_LEN == 0 && ParseEntries(EntriesBytes(es)) == es
  {
    if es != [] {
      ParseEntriesOfBytes(es[1..]);
      var s := EntriesBytes(es);
      Le64RoundTrip(es[0].end);
      assert s[..8] == Le64(es[0].end);
      assert s[8..ENTRY_LEN] == es[0].digest;
      assert s[ENTRY_LEN..] == EntriesBytes(es[1..]);
    }
  }

  lemma {:induction false} BytesOfParseEntries(body: seq<byte>)
    requires |body| % ENTRY_LEN == 0
    ensures EntriesBytes(ParseEntries(body)) == body
    ensures OffsetsFit(ParseEntries(body))
  {
    if body != [] {
      BytesOfParseEntries(body[ENTRY_LEN..]);
      Pow256Values();
      LeBytesOfLeValue(body[..8]);
      assert body == body[..8] + body[8..ENTRY_LEN] + body[ENTRY_LEN..];
      assert ParseEntries(body)[1..] == ParseEntries(body[ENTRY_LEN..]);
    }
  }

  /** A stored index parses back to itself, whatever its entries. */
  lemma ParseOfLayout(ix: Index)
    requires OffsetsFit(ix.entries)
    ensures Parse(Layout(ix)) == Ok(ix)
  {
    LayoutParts(ix);
    ParseEntriesOfBytes(ix.entries);
    Le64RoundTrip(ToU64(ix.ctime));
  }

  /**
   * Every accepted file is its index's layout except for the reserved header bytes, which parsing ignores;
   * so it is the layout exactly when those are zero.
   */
  lemma LayoutOfParse(bytes: seq<byte>)
    requires Parse(bytes).Ok?
    ensures Layout(Parse(bytes).value) == bytes[..64] + Zeros(RESERVED) + bytes[HEADER_LEN..]
    ensures Layout(Parse(bytes).value) == bytes <==> bytes[64..HEADER_LEN] == Zeros(RESERVED)
    ensures OffsetsFit(Parse(bytes).value.entries)
  {
    var ix := Parse(bytes).value;
    BytesOfParseEntries(bytes[HEADER_LEN..]);
    Pow256Values();
    LeBytesOfLeValue(bytes[24..32]);
    assert ToU64(ix.ctime) == LeValue(bytes[24..32]);
    assert bytes[..64] == bytes[..8] + bytes[8..24] + bytes[24..32] + bytes[32..64];
    HeaderSplits(bytes);
    LayoutParts(ix);
  }

  lemma HeaderSplits(bytes: seq<byte>)
    requires |bytes| >= HEADER_LEN
    ensures bytes == bytes[..64] + bytes[64..HEADER_LEN] + bytes[HEADER_LEN..]
  {
  }

  lemma {:induction false} EntriesBytesConcat(a: seq<Entry>, b: seq<Entry>)
    ensures EntriesBytes(a + b) == EntriesBytes(a) + EntriesBytes(b)
  {
    if a == [] {
      assert a + b == b;
    } else {
      EntriesBytesConcat(a[1..], b);
      assert (a + b)[1..] == a[1..] + b;
      Associative(EntryBytes(a[0]), EntriesBytes(a[1..]), EntriesBytes(b));
    }
  }

  lemma {:induction false} EntriesBytesPrefix(es: seq<Entry>, k: nat)
    requires k <= |es|
    ensures EntriesBytes(es)[..ENTRY_LEN * k] == EntriesBytes(es[..k])
  {
    EntriesBytesConcat(es[..k], es[k..]);
    assert es[..k] + es[k..] == es;
  }

  /** A cut after k whole entries parses as an index of those k under the original csum. */
  lemma ParseOfTruncated(ix: Index, k: nat)
    requires OffsetsFit(ix.entries) && k <= |ix.entries|
    ensures var n := HEADER_LEN + ENTRY_LEN * k;
            n <= |Layout(ix)| && Parse(Layout(ix)[..n]) == Ok(ix.(entries := ix.entries[..k]))
  {
    LayoutParts(ix);
    EntriesBytesPrefix(ix.entries, k);
    var cut := ix.(entries := ix.entries[..k]);
    assert Layout(ix)[..HEADER_LEN + ENTRY_LEN * k] == Layout(cut);
    ParseOfLayout(cut);
  }

  /**
   * A truncated index passes both the parse and the csum check exactly when the
   * cut keeps a whole number k of entries and those k hash to the csum of all of them.
   */
  lemma TruncatedIndexAccepted(p: Primitives, ix: Index, n: nat)
    requires OffsetsFit(ix.entries) && VerifyCsum(p, ix) && n < |Layout(ix)|
    ensures (Parse(Layout(ix)[..n]).Ok? && VerifyCsum(p, Parse(Layout(ix)[..n]).value))
            <==> exists k :: 0 <= k < |ix.entries| && n == HEADER_LEN + ENTRY_LEN * k
                             && Csum(p, ix.entries[..k]) == Csum(p, ix.entries)
  {
    LayoutParts(ix);
    if n >= HEADER_LEN && (n - HEADER_LEN) % ENTRY_LEN == 0 {
      ParseOfTruncated(ix, (n - HEADER_LEN) / ENTRY_LEN);
    }
  }

  /** Copy `src` into a buffer at `at`, just past the bytes `done` already written. */
  method CopyInto(out: array<byte>, at: nat, ghost done: seq<byte>, src: seq<byte>)
    requires |done| == at && at + |src| <= out.Length && out[..] == done + Zeros(out.Length - at)
    modifies out
    ensures out[..] == done + src + Zeros(out.Length - at - |src|)
  {
    for i := 0 to |src|
      invariant out[..] == done + src[..i] + Zeros(out.Length - at - i)
    {
      out[at + i] := src[i];
    }
    assert src[..|src|] == src;
  }

  method WriteHeader(out: array<byte>, ix: Index)
    requires out.Length >= HEADER_LEN && out[..] == Zeros(out.Length)
    modifies out
    ensures out[..] == Header(ix) + Zeros(out.Length - HEADER_LEN)
  {
    CopyInto(out, 0, [], DYNAMIC_MAGIC);
    CopyInto(out, 8, DYNAMIC_MAGIC, ix.uuid);
    CopyInto(out, 24, DYNAMIC_MAGIC + ix.uuid, Le64(ToU64(ix.ctime)));
    CopyInto(out, 32, DYNAMIC_MAGIC + ix.uuid + Le64(ToU64(ix.ctime)), ix.csum);
    assert Zeros(out.Length - 64) == Zeros(RESERVED) + Zeros(out.Length - HEADER_LEN);
  }

  /** One entry: its end offset, then its digest eight bytes on. */
  method WriteEntry(out: array<byte>, pos: nat, ghost done: seq<byte>, e: Entry)
    requires pos + ENTRY_LEN <= out.Length && |done| == pos
    requires out[..] == done + Zeros(out.Length - pos)
    modifies out
    ensures out[..] == done + EntryBytes(e) + Zeros(out.Length - pos - ENTRY_LEN)
  {
    CopyInto(out, pos, done, Le64(e.end));
    CopyInto(out, pos + 8, done + Le64(e.end), e.digest);
  }

  lemma {:induction false} EntriesBytesSnoc(es: seq<Entry>, i: nat)
    requires i < |es|
    ensures EntriesBytes(es[..i + 1]) == EntriesBytes(es[..i]) + EntryBytes(es[i])
  {
    assert es[..i + 1] == es[..i] + [es[i]];
    EntriesBytesConcat(es[..i], [es[i]]);
    assert EntriesBytes([es[i]]) == EntryBytes(es[i]) + EntriesBytes([]);
  }

  /** Collects the entries of an archive as its chunks arrive, in order. */
  class DynamicIndexBuilder {
    const ctime: I64
    const uuid: Block16
    var entries: seq<Entry>

    constructor (ctime: I64, uuid: Block16)
      ensures this.ctime == ctime && this.uuid == uuid && entries == []
    {
      this.ctime := ctime;
      this.uuid := uuid;
      entries := [];
    }

    method Push(end: nat, digest: Digest)
      modifies this
      ensures entries == old(entries) + [Entry(end, digest)]
    {
      entries := entries + [Entry(end, digest)];
    }

    function Value(p: Primitives): Index
      reads this
    {
      Index(ctime, uuid, Csum(p, entries), entries)
    }

    /** Fill a zeroed buffer field by field, then entry by entry. */
    method Serialize(p: Primitives) returns (out: array<byte>)
      ensures fresh(out) && out[..] == Layout(Value(p))
      ensures OffsetsFit(entries) ==> Parse(out[..]) == Ok(Value(p))
    {
      out := new byte[HEADER_LEN + |entries| * ENTRY_LEN](_ => 0);
      WriteHeader(out, Value(p));
      ghost var head := Header(Value(p));
      var pos := HEADER_LEN;
      for i := 0 to |entries|
        invariant pos == HEADER_LEN + i * ENTRY_LEN
        invariant out[..] == head + EntriesBytes(entries[..i]) + Zeros((|entries| - i) * ENTRY_LEN)
      {
        EntriesBytesSnoc(entries, i);
        WriteEntry(out, pos, head + EntriesBytes(entries[..i]), entries[i]);
        Associative(head, EntriesBytes(entries[..i]), EntryBytes(entries[i]));
        pos := pos + ENTRY_LEN;
      }
      assert entries[..|entries|] == entries;
      if OffsetsFit(entries) { ParseOfLayout(Value(p)); }
    }
  }
}
