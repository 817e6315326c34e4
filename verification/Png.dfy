/** The PNG rewriter of frontend/src/charts.ts: setPNGResolution replaces the pHYs chunks of an
    image by one behind every IHDR. A chunk (section 5.3 of the PNG specification, Second
    Edition) is its length, its type, that many data bytes and a check value. */
module Png {
  import opened Text

  type byte = x: int | 0 <= x < 256

  type Bytes = seq<byte>

  const SIGNATURE: Bytes := [137, 80, 78, 71, 13, 10, 26, 10]
  const IHDR: Bytes := [73, 72, 68, 82]
  const PHYS: Bytes := [112, 72, 89, 115]

  // ---- Numbers ----

  /** DataView.getUint32: big endian. */
  function U32(s: Bytes): nat
    requires |s| >= 4
  {
    (s[0] as int) * 0x100_0000 + (s[1] as int) * 0x1_0000 + (s[2] as int) * 0x100 + (s[3] as int)
  }

  /** DataView.setUint32: the number modulo 2 to the 32. */
  function U32Bytes(n: int): (s: Bytes)
    ensures |s| == 4
  {
    [n / 0x100_0000 % 0x100, n / 0x1_0000 % 0x100, n / 0x100 % 0x100, n % 0x100]
  }

  // ---- Chunks ----

  predicate IsChunk(c: Bytes) {
    |c| >= 12 && U32(c) + 12 == |c|
  }

  function TypeOf(c: Bytes): Bytes
    requires |c| >= 8
  {
    c[4..8]
  }

  predicate AllChunks(chunks: seq<Bytes>) {
    forall k :: 0 <= k < |chunks| ==> IsChunk(chunks[k])
  }

  function Join(chunks: seq<Bytes>): Bytes {
    if chunks == [] then [] else chunks[0] + Join(chunks[1..])
  }

  /** The chunks of the bytes behind the signature, if they are a sequence of chunks. */
  function Parsed(s: Bytes): Option<seq<Bytes>>
    decreases |s|
  {
    if s == [] then Some([])
    else if |s| < 12 || U32(s) + 12 > |s| then None
    else
      var rest := Parsed(s[U32(s) + 12..]);
      if rest.None? then None else Some([s[..U32(s) + 12]] + rest.value)
  }

  /** Parsing finds chunks that join to the input... */
  lemma {:induction false} ParsedJoins(s: Bytes)
    requires Parsed(s).Some?
    ensures AllChunks(Parsed(s).value) && Join(Parsed(s).value) == s
    decreases |s|
  {
    if s != [] {
      var n := U32(s) + 12;
      ParsedJoins(s[n..]);
      var first, rest := s[..n], Parsed(s[n..]).value;
      SameLength(s, n);
      ChunksCons(first, rest);
      assert first + s[n..] == s;
    }
  }

  lemma ChunksCons(first: Bytes, rest: seq<Bytes>)
    requires IsChunk(first) && AllChunks(rest)
    ensures AllChunks([first] + rest) && Join([first] + rest) == first + Join(rest)
  {
    var all := [first] + rest;
    assert all[1..] == rest;
    forall k | 0 <= k < |all| ensures IsChunk(all[k]) {
      assert k > 0 ==> all[k] == rest[k - 1];
    }
  }

  lemma SameLength(s: Bytes, n: nat)
    requires 4 <= n <= |s|
    ensures U32(s[..n]) == U32(s)
  {
  }

  /** ...and is the inverse of joining chunks. */
  lemma {:induction false} JoinParses(chunks: seq<Bytes>)
    requires AllChunks(chunks)
    ensures Parsed(Join(chunks)) == Some(chunks)
  {
    if chunks != [] {
      var first, rest := chunks[0], Join(chunks[1..]);
      assert IsChunk(first);
      JoinParses(chunks[1..]);
      var s := first + rest;
      assert s[..|first|] == first;
      SameLength(s, |first|);
      assert s[|first|..] == rest;
      assert chunks == [first] + chunks[1..];
    }
  }

  lemma {:induction false} JoinConcat(a: seq<Bytes>, b: seq<Bytes>)
    ensures Join(a + b) == Join(a) + Join(b)
  {
    if a == [] {
      assert a + b == b;
    } else {
      assert (a + b)[1..] == a[1..] + b;
      JoinConcat(a[1..], b);
    }
  }

  // ---- The resolution chunk ----

  /** Math.round(dpi / 0.0254), on real numbers. */
  function PixelsPerMeter(dpi: real): int {
    (dpi / 0.0254 + 0.5).Floor
  }

  /** pngResolutionChunk; `crc` is the check value of type and data. */
  function ResolutionChunk(dpi: real, crc: Bytes -> int): (c: Bytes)
    ensures IsChunk(c) && |c| == 21 && TypeOf(c) == PHYS
  {
    var pixels := U32Bytes(PixelsPerMeter(dpi));
    var body := PHYS + pixels + pixels + [1];
    U32Bytes(9) + body + U32Bytes(crc(body))
  }

  // ---- Rewriting ----

  /** What one chunk becomes. */
  function Replaced(c: Bytes, resolution: Bytes): seq<Bytes>
    requires IsChunk(c)
  {
    (if TypeOf(c) != PHYS then [c] else []) + (if TypeOf(c) == IHDR then [resolution] else [])
  }

  function Rewritten(chunks: seq<Bytes>, resolution: Bytes): seq<Bytes>
    requires AllChunks(chunks)
  {
    if chunks == [] then []
    else Rewritten(chunks[..|chunks| - 1], resolution) + Replaced(chunks[|chunks| - 1], resolution)
  }

  predicate HasSignature(source: Bytes) {
    |source| >= 33 && source[..8] == SIGNATURE
  }

  /** What setPNGResolution returns; None stands for its exceptions. */
  function WithResolution(source: Bytes, resolution: Bytes): Option<Bytes> {
    if !HasSignature(source) || Parsed(source[8..]).None? then None
    else
      ParsedJoins(source[8..]);
      Some(SIGNATURE + Join(Rewritten(Parsed(source[8..]).value, resolution)))
  }

  lemma {:induction false} RewrittenChunks(chunks: seq<Bytes>, resolution: Bytes)
    requires AllChunks(chunks) && IsChunk(resolution)
    ensures AllChunks(Rewritten(chunks, resolution))
  {
    if chunks != [] {
      RewrittenChunks(chunks[..|chunks| - 1], resolution);
    }
  }

  /** The chunks of other types, in order. */
  function Others(chunks: seq<Bytes>): seq<Bytes>
    requires AllChunks(chunks)
  {
    if chunks == [] then []
    else Others(chunks[..|chunks| - 1]) + if TypeOf(chunks[|chunks| - 1]) != PHYS then [chunks[|chunks| - 1]] else []
  }

  lemma {:induction false} OthersConcat(a: seq<Bytes>, b: seq<Bytes>)
    requires AllChunks(a) && AllChunks(b)
    ensures AllChunks(a + b) && Others(a + b) == Others(a) + Others(b)
  {
    if b == [] {
      assert a + b == a;
    } else {
      var n := |b| - 1;
      assert (a + b)[..|a + b| - 1] == a + b[..n];
      OthersConcat(a, b[..n]);
    }
  }

  /** Every other chunk is preserved, byte for byte and in order. */
  lemma {:induction false} OthersPreserved(chunks: seq<Bytes>, resolution: Bytes)
    requires AllChunks(chunks) && IsChunk(resolution) && TypeOf(resolution) == PHYS
    ensures AllChunks(Rewritten(chunks, resolution)) && Others(Rewritten(chunks, resolution)) == Others(chunks)
  {
    RewrittenChunks(chunks, resolution);
    if chunks != [] {
      var n := |chunks| - 1;
      OthersPreserved(chunks[..n], resolution);
      RewrittenChunks(chunks[..n], resolution);
      OthersConcat(Rewritten(chunks[..n], resolution), Replaced(chunks[n], resolution));
      OthersReplaced(chunks[n], resolution);
    }
  }

  lemma OthersReplaced(c: Bytes, resolution: Bytes)
    requires IsChunk(c) && IsChunk(resolution) && TypeOf(resolution) == PHYS
    ensures AllChunks(Replaced(c, resolution)) && Others(Replaced(c, resolution)) == if TypeOf(c) != PHYS then [c] else []
  {
    assert [c][..0] == [] && [c, resolution][..1] == [c];
    assert IHDR[0] != PHYS[0];
    if TypeOf(c) == IHDR {
      assert Replaced(c, resolution) == [c, resolution];
      assert Others([c]) == [c];
    }
  }

  function Count(chunks: seq<Bytes>, t: Bytes): nat
    requires AllChunks(chunks)
  {
    if chunks == [] then 0 else Count(chunks[..|chunks| - 1], t) + if TypeOf(chunks[|chunks| - 1]) == t then 1 else 0
  }

  lemma {:induction false} CountConcat(a: seq<Bytes>, b: seq<Bytes>, t: Bytes)
    requires AllChunks(a) && AllChunks(b)
    ensures AllChunks(a + b) && Count(a + b, t) == Count(a, t) + Count(b, t)
  {
    if b == [] {
      assert a + b == a;
    } else {
      var n := |b| - 1;
      assert (a + b)[..|a + b| - 1] == a + b[..n];
      CountConcat(a, b[..n], t);
    }
  }

  lemma CountOne(c: Bytes, t: Bytes)
    requires IsChunk(c)
    ensures AllChunks([c]) && Count([c], t) == if TypeOf(c) == t then 1 else 0
  {
    assert [c][..0] == [];
    assert Count([c], t) == Count([c][..0], t) + if TypeOf([c][0]) == t then 1 else 0;
  }

  lemma CountReplaced(c: Bytes, resolution: Bytes)
    requires IsChunk(c) && IsChunk(resolution) && TypeOf(resolution) == PHYS
    ensures AllChunks(Replaced(c, resolution))
    ensures Count(Replaced(c, resolution), IHDR) == Count(Replaced(c, resolution), PHYS) == if TypeOf(c) == IHDR then 1 else 0
  {
    assert IHDR[0] != PHYS[0];
    CountOne(c, IHDR);
    CountOne(c, PHYS);
    if TypeOf(c) == IHDR {
      assert Replaced(c, resolution) == [c, resolution];
      assert [c, resolution][..1] == [c];
    } else if TypeOf(c) != PHYS {
      assert Replaced(c, resolution) == [c];
    }
  }

  /** The result has as many pHYs chunks as the source has IHDR chunks: exactly one for one. */
  lemma {:induction false} OneResolutionPerHeader(chunks: seq<Bytes>, resolution: Bytes)
    requires AllChunks(chunks) && IsChunk(resolution) && TypeOf(resolution) == PHYS
    ensures AllChunks(Rewritten(chunks, resolution))
    ensures Count(Rewritten(chunks, resolution), PHYS) == Count(Rewritten(chunks, resolution), IHDR) == Count(chunks, IHDR)
  {
    RewrittenChunks(chunks, resolution);
    if chunks != [] {
      var n := |chunks| - 1;
      var before, last := Rewritten(chunks[..n], resolution), Replaced(chunks[n], resolution);
      OneResolutionPerHeader(chunks[..n], resolution);
      CountReplaced(chunks[n], resolution);
      CountConcat(before, last, PHYS);
      CountConcat(before, last, IHDR);
    }
  }

  /** A pHYs chunk stands exactly behind every IHDR chunk. */
  predicate ResolutionAfterHeader(chunks: seq<Bytes>, resolution: Bytes)
    requires AllChunks(chunks)
  {
    && (forall k :: 0 <= k < |chunks| && TypeOf(chunks[k]) == IHDR ==> k + 1 < |chunks| && chunks[k + 1] == resolution)
    && (forall k :: 0 <= k < |chunks| && TypeOf(chunks[k]) == PHYS ==> k > 0 && TypeOf(chunks[k - 1]) == IHDR && chunks[k] == resolution)
  }

  lemma {:induction false} RewrittenPlaces(chunks: seq<Bytes>, resolution: Bytes)
    requires AllChunks(chunks) && IsChunk(resolution) && TypeOf(resolution) == PHYS
    ensures AllChunks(Rewritten(chunks, resolution)) && ResolutionAfterHeader(Rewritten(chunks, resolution), resolution)
  {
    RewrittenChunks(chunks, resolution);
    if chunks != [] {
      var n := |chunks| - 1;
      RewrittenPlaces(chunks[..n], resolution);
      assert IHDR[0] != PHYS[0];
      PlacesAppend(Rewritten(chunks[..n], resolution), chunks[n], resolution);
    }
  }

  lemma PlacesAppend(before: seq<Bytes>, c: Bytes, resolution: Bytes)
    requires AllChunks(before) && IsChunk(c) && IsChunk(resolution) && TypeOf(resolution) == PHYS
    requires ResolutionAfterHeader(before, resolution)
    ensures AllChunks(before + Replaced(c, resolution)) && ResolutionAfterHeader(before + Replaced(c, resolution), resolution)
  {
    var all := before + Replaced(c, resolution);
    assert IHDR[0] != PHYS[0];
    forall k | 0 <= k < |all| && TypeOf(all[k]) == IHDR ensures k + 1 < |all| && all[k + 1] == resolution {
      if k < |before| {
        assert before[k + 1] == resolution;
      }
    }
    forall k | 0 <= k < |all| && TypeOf(all[k]) == PHYS ensures k > 0 && TypeOf(all[k - 1]) == IHDR && all[k] == resolution {
      if k < |before| {
        assert all[k - 1] == before[k - 1];
      }
    }
  }

  // ---- The whole operation ----

  /** The chunks of an accepted image. */
  function Pieces(source: Bytes): (chunks: seq<Bytes>)
    requires HasSignature(source) && Parsed(source[8..]).Some?
    ensures AllChunks(chunks) && source == SIGNATURE + Join(chunks)
  {
    ParsedJoins(source[8..]);
    assert source == source[..8] + source[8..];
    Parsed(source[8..]).value
  }

  predicate Accepts(source: Bytes) {
    HasSignature(source) && Parsed(source[8..]).Some?
  }

  /** The first loop: walk the chunks and collect the slices of the result. */
  method CollectSlices(source: Bytes, resolution: Bytes) returns (ok: bool, slices: seq<Bytes>)
    requires |source| >= 8 && IsChunk(resolution)
    ensures ok <==> Parsed(source[8..]).Some?
    ensures ok ==> AllChunks(Parsed(source[8..]).value) && slices == Rewritten(Parsed(source[8..]).value, resolution)
  {
    slices := [];
    var offset := 8;
    ghost var done: seq<Bytes> := [];
    NothingPrepended(Parsed(source[8..]));
    while offset + 12 <= |source|
      invariant 8 <= offset <= |source|
      invariant AllChunks(done) && slices == Rewritten(done, resolution)
      invariant Parsed(source[8..]) == Prepended(done, Parsed(source[offset..]))
    {
      var length := U32(source[offset..]);
      var end := offset + length + 12;
      if end > |source| {
        return false, slices;
      }
      var chunk := source[offset..end];
      ParsedAt(source, offset, done);
      ChunksSnoc(done, chunk, resolution);
      if TypeOf(chunk) != PHYS {
        slices := slices + [chunk];
      }
      if TypeOf(chunk) == IHDR {
        slices := slices + [resolution];
      }
      done := done + [chunk];
      offset := end;
    }
    ok := offset == |source|;
    if ok {
      assert source[offset..] == [] && done + [] == done;
    }
  }

  function Prepended(done: seq<Bytes>, rest: Option<seq<Bytes>>): Option<seq<Bytes>> {
    if rest.None? then None else Some(done + rest.value)
  }

  lemma NothingPrepended(rest: Option<seq<Bytes>>)
    ensures Prepended([], rest) == rest
  {
    if rest.Some? {
      assert [] + rest.value == rest.value;
    }
  }

  lemma ParsedAt(source: Bytes, offset: nat, done: seq<Bytes>)
    requires offset + 12 <= |source| && offset + U32(source[offset..]) + 12 <= |source|
    ensures var end := offset + U32(source[offset..]) + 12;
      && IsChunk(source[offset..end])
      && Prepended(done, Parsed(source[offset..])) == Prepended(done + [source[offset..end]], Parsed(source[end..]))
  {
    var s := source[offset..];
    var n := U32(s) + 12;
    var end := offset + n;
    assert s[..n] == source[offset..end] && s[n..] == source[end..];
    SameLength(s, n);
    if Parsed(source[end..]).Some? {
      var rest := Parsed(source[end..]).value;
      assert done + ([source[offset..end]] + rest) == (done + [source[offset..end]]) + rest;
    }
  }

  lemma ChunksSnoc(done: seq<Bytes>, chunk: Bytes, resolution: Bytes)
    requires AllChunks(done) && IsChunk(chunk)
    ensures AllChunks(done + [chunk])
    ensures Rewritten(done + [chunk], resolution) == Rewritten(done, resolution) + Replaced(chunk, resolution)
  {
    assert (done + [chunk])[..|done|] == done;
  }

  /** The second loop: copy the slices into a buffer of their total size. */
  method Concatenate(slices: seq<Bytes>) returns (result: array<byte>)
    ensures fresh(result) && result[..] == Join(slices)
  {
    var size := 0;
    for k := 0 to |slices|
      invariant size == |Join(slices[..k])|
    {
      JoinSnoc(slices, k);
      size := size + |slices[k]|;
    }
    assert slices[..|slices|] == slices;
    result := new byte[size];
    var cursor := 0;
    for k := 0 to |slices|
      invariant cursor == |Join(slices[..k])| <= size
      invariant result[..cursor] == Join(slices[..k])
    {
      JoinSnoc(slices, k);
      JoinSplit(slices, k + 1);
      CopyInto(result, cursor, slices[k]);
      cursor := cursor + |slices[k]|;
    }
    assert slices[..|slices|] == slices;
  }

  lemma JoinSnoc(slices: seq<Bytes>, k: nat)
    requires k < |slices|
    ensures Join(slices[..k + 1]) == Join(slices[..k]) + slices[k]
  {
    assert slices[..k + 1] == slices[..k] + [slices[k]];
    JoinConcat(slices[..k], [slices[k]]);
    assert Join([slices[k]]) == slices[k] + Join([slices[k]][1..]);
    assert slices[k] + Join([]) == slices[k];
  }

  lemma JoinSplit(slices: seq<Bytes>, k: nat)
    requires k <= |slices|
    ensures |Join(slices[..k])| <= |Join(slices)|
  {
    assert slices == slices[..k] + slices[k..];
    JoinConcat(slices[..k], slices[k..]);
  }

  /** Uint8Array.set. */
  method CopyInto(result: array<byte>, cursor: nat, slice: Bytes)
    requires cursor + |slice| <= result.Length
    modifies result
    ensures result[..cursor] == old(result[..cursor]) && result[cursor..cursor + |slice|] == slice
    ensures result[..cursor + |slice|] == old(result[..cursor]) + slice
  {
    for i := 0 to |slice|
      invariant result[..cursor] == old(result[..cursor])
      invariant result[cursor..cursor + i] == slice[..i]
    {
      result[cursor + i] := slice[i];
      assert result[cursor..cursor + i + 1] == result[cursor..cursor + i] + [slice[i]];
    }
    assert result[..cursor + |slice|] == result[..cursor] + result[cursor..cursor + |slice|];
  }

  /** frontend/src/charts.ts: setPNGResolution; failure stands for its exceptions. */
  method SetPNGResolution(source: Bytes, dpi: real, crc: Bytes -> int) returns (ok: bool, result: array<byte>)
    ensures fresh(result)
    ensures WithResolution(source, ResolutionChunk(dpi, crc)) == if ok then Some(result[..]) else None
  {
    if !HasSignature(source) {
      result := new byte[0];
      return false, result;
    }
    var slices;
    var resolution := ResolutionChunk(dpi, crc);
    ok, slices := CollectSlices(source, resolution);
    result := Concatenate([source[..8]] + slices);
    assert ([source[..8]] + slices)[1..] == slices;
  }

  predicate HasHeader(chunks: seq<Bytes>)
    requires AllChunks(chunks)
  {
    exists k :: 0 <= k < |chunks| && TypeOf(chunks[k]) == IHDR
  }

  /** The rewritten image is the sequence of the rewritten chunks. */
  lemma ResultParses(source: Bytes, resolution: Bytes)
    requires Accepts(source) && IsChunk(resolution)
    ensures WithResolution(source, resolution).Some?
    ensures var r := WithResolution(source, resolution).value;
      && |r| >= 8 && r[..8] == SIGNATURE && Parsed(r[8..]) == Some(Rewritten(Pieces(source), resolution))
  {
    var chunks := Rewritten(Pieces(source), resolution);
    RewrittenChunks(Pieces(source), resolution);
    JoinParses(chunks);
    var r := SIGNATURE + Join(chunks);
    assert r[..8] == SIGNATURE && r[8..] == Join(chunks);
  }

  lemma {:induction false} RewrittenTwice(chunks: seq<Bytes>, first: Bytes, second: Bytes)
    requires AllChunks(chunks) && IsChunk(first) && TypeOf(first) == PHYS
    ensures AllChunks(Rewritten(chunks, first)) && Rewritten(Rewritten(chunks, first), second) == Rewritten(chunks, second)
  {
    RewrittenChunks(chunks, first);
    if chunks != [] {
      var n := |chunks| - 1;
      RewrittenTwice(chunks[..n], first, second);
      RewrittenConcat(Rewritten(chunks[..n], first), Replaced(chunks[n], first), second);
      ReplacedTwice(chunks[n], first, second);
    }
  }

  lemma {:induction false} RewrittenConcat(a: seq<Bytes>, b: seq<Bytes>, resolution: Bytes)
    requires AllChunks(a) && AllChunks(b)
    ensures AllChunks(a + b) && Rewritten(a + b, resolution) == Rewritten(a, resolution) + Rewritten(b, resolution)
  {
    if b == [] {
      assert a + b == a;
    } else {
      var n := |b| - 1;
      assert (a + b)[..|a + b| - 1] == a + b[..n];
      RewrittenConcat(a, b[..n], resolution);
    }
  }

  lemma ReplacedTwice(c: Bytes, first: Bytes, second: Bytes)
    requires IsChunk(c) && IsChunk(first) && TypeOf(first) == PHYS
    ensures AllChunks(Replaced(c, first)) && Rewritten(Replaced(c, first), second) == Replaced(c, second)
  {
    assert IHDR[0] != PHYS[0];
    assert [c][..0] == [] && [c, first][..1] == [c];
    if TypeOf(c) == IHDR {
      assert Replaced(c, first) == [c, first];
      assert Rewritten([c], second) == [c, second];
    }
  }

  /** Setting a resolution and then another one is setting the other one, whenever the first
      result is long enough to be accepted again. */
  lemma LastResolutionWins(source: Bytes, first: Bytes, second: Bytes)
    requires Accepts(source) && IsChunk(first) && TypeOf(first) == PHYS
    ensures WithResolution(source, first).Some?
    ensures var once := WithResolution(source, first).value;
      |once| >= 33 ==> WithResolution(once, second) == WithResolution(source, second)
  {
    ResultParses(source, first);
    RewrittenTwice(Pieces(source), first, second);
  }

  lemma {:induction false} HeaderLength(chunks: seq<Bytes>, resolution: Bytes, k: nat)
    requires AllChunks(chunks) && IsChunk(resolution) && k < |chunks| && TypeOf(chunks[k]) == IHDR
    ensures |Join(Rewritten(chunks, resolution))| >= |resolution| + 12
  {
    var n := |chunks| - 1;
    JoinConcat(Rewritten(chunks[..n], resolution), Replaced(chunks[n], resolution));
    if k < n {
      HeaderLength(chunks[..n], resolution, k);
    } else {
      assert IHDR[0] != PHYS[0];
      assert Replaced(chunks[n], resolution) == [chunks[n], resolution];
      assert [chunks[n], resolution][1..] == [resolution] && [resolution][1..] == [];
    }
  }

  /** An image with a header stays acceptable. */
  lemma ResultAccepted(source: Bytes, dpi: real, crc: Bytes -> int)
    requires Accepts(source) && HasHeader(Pieces(source))
    ensures var r := WithResolution(source, ResolutionChunk(dpi, crc)); r.Some? && Accepts(r.value)
  {
    var resolution := ResolutionChunk(dpi, crc);
    ResultParses(source, resolution);
    var k :| 0 <= k < |Pieces(source)| && TypeOf(Pieces(source)[k]) == IHDR;
    HeaderLength(Pieces(source), resolution, k);
  }

  // ---- The resolution, byte by byte ----

  /** Four bytes are the number, the most significant one first. */
  predicate Reads(c: Bytes, at: nat, n: int) {
    at + 4 <= |c| && 0x100_0000 * (c[at] as int) + 0x1_0000 * (c[at + 1] as int) + 0x100 * (c[at + 2] as int) + c[at + 3] as int == n
  }

  lemma U32BytesRead(n: int)
    requires 0 <= n < 0x1_0000_0000
    ensures Reads(U32Bytes(n), 0, n)
  {
  }

  /** A pHYs chunk (section 11.3.5.3 of the PNG specification, Second Edition): nine data bytes
      behind the type, first the pixels per metre in either direction, to the nearest whole
      number, and then the metre as the unit. The check value is that of type and data. */
  lemma ResolutionBytes(dpi: real, crc: Bytes -> int) returns (pixels: int)
    ensures pixels as real - 0.5 <= dpi / 0.0254 < pixels as real + 0.5
    ensures var c := ResolutionChunk(dpi, crc);
      && |c| == 21 && Reads(c, 0, 9)
      && c[4] == 'p' as int && c[5] == 'H' as int && c[6] == 'Y' as int && c[7] == 's' as int
      && (0 <= pixels < 0x1_0000_0000 ==> Reads(c, 8, pixels) && Reads(c, 12, pixels))
      && c[16] == 1
      && (0 <= crc(c[4..17]) < 0x1_0000_0000 ==> Reads(c, 17, crc(c[4..17])))
  {
    pixels := PixelsPerMeter(dpi);
    var c, word := ResolutionChunk(dpi, crc), U32Bytes(pixels);
    var body := PHYS + word + word + [1];
    assert c[4..17] == body;
    assert c[8..12] == word && c[12..16] == word && c[17..21] == U32Bytes(crc(body)) && c[..4] == U32Bytes(9);
    U32BytesRead(9);
    ReadsSlice(c, 0, 9);
    if 0 <= pixels < 0x1_0000_0000 {
      U32BytesRead(pixels);
      ReadsSlice(c, 8, pixels);
      ReadsSlice(c, 12, pixels);
    }
    if 0 <= crc(body) < 0x1_0000_0000 {
      U32BytesRead(crc(body));
      ReadsSlice(c, 17, crc(body));
    }
  }

  lemma ReadsSlice(c: Bytes, at: nat, n: int)
    requires at + 4 <= |c| && Reads(c[at..at + 4], 0, n)
    ensures Reads(c, at, n)
  {
  }
}
