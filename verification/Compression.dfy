/**
 Block framing of an application stream: each read becomes one independent block, compressed when that
 saves enough, with a back-off after incompressible probes. The decoder checks every length it is told.
 */
module Compression {
  import opened Wrappers
  import opened Bytes
  import opened Lz4

  const MAX_BLOCK_BYTES := 65536
  const MAX_EXPANSION_RATIO := 256
  const MIN_INPUT_BYTES := 1024
  const MIN_SAVINGS_BYTES := 64
  const MIN_SAVINGS_PERCENT := 12
  const PROBES_BEFORE_BACKOFF := 2
  const BACKOFF_BLOCKS := 8
  const HEADER_BYTES := 9
  const RAW_BLOCK: byte := 0
  const LZ4_BLOCK: byte := 1
  const MAX_TOTAL := 0xffff_ffff_ffff_ffff

  type Compressor = seq<byte> -> seq<byte>

  // ---- Encoder ----------------------------------------------------------------------------------

  datatype Classification = Compressed | RawSmall | RawIncompressible | RawBackoff

  /** Probes that failed in a row, and blocks still to be sent without probing. */
  datatype Adaptive = Adaptive(probes: nat, backoff: nat)

  predicate SavesEnough(read: nat, compressed: nat) {
    var saved := if compressed <= read then read - compressed else 0;
    saved >= MIN_SAVINGS_BYTES && saved * 100 >= read * MIN_SAVINGS_PERCENT
  }

  function Classify(compress: Compressor, x: seq<byte>, a: Adaptive): Classification {
    if |x| < MIN_INPUT_BYTES then RawSmall
    else if a.backoff > 0 then RawBackoff
    else if SavesEnough(|x|, |compress(x)|) then Compressed
    else RawIncompressible
  }

  function Adapt(c: Classification, a: Adaptive): Adaptive
    requires c.RawBackoff? ==> a.backoff > 0
  {
    match c
    case RawSmall => a
    case RawBackoff => a.(backoff := a.backoff - 1)
    case Compressed => a.(probes := 0)
    case RawIncompressible =>
      if a.probes + 1 >= PROBES_BEFORE_BACKOFF then Adaptive(0, BACKOFF_BLOCKS) else a.(probes := a.probes + 1)
  }

  function Payload(compress: Compressor, x: seq<byte>, c: Classification): seq<byte> {
    if c.Compressed? then compress(x) else x
  }

  function Frame(compress: Compressor, x: seq<byte>, c: Classification): seq<byte> {
    var payload := Payload(compress, x, c);
    [if c.Compressed? then LZ4_BLOCK else RAW_BLOCK] + BigEndian(|x|, 4) + BigEndian(|payload|, 4) + payload
  }

  /** The classes of the blocks of a run, in order. */
  function Classes(compress: Compressor, chunks: seq<seq<byte>>, a: Adaptive): (r: seq<Classification>)
    ensures |r| == |chunks|
    decreases |chunks|
  {
    if chunks == [] then []
    else
      var c := Classify(compress, chunks[0], a);
      [c] + Classes(compress, chunks[1..], Adapt(c, a))
  }

  /** The stream that results from the given reads. */
  function Encode(compress: Compressor, chunks: seq<seq<byte>>, a: Adaptive): seq<byte>
    decreases |chunks|
  {
    if chunks == [] then []
    else
      var c := Classify(compress, chunks[0], a);
      Frame(compress, chunks[0], c) + Encode(compress, chunks[1..], Adapt(c, a))
  }

  const FRESH := Adaptive(0, 0)

  function Concat(chunks: seq<seq<byte>>): seq<byte> {
    if chunks == [] then [] else chunks[0] + Concat(chunks[1..])
  }

  /** A read delivers between 1 byte and a full buffer; a read of 0 bytes ends the stream. */
  predicate Reads(chunks: seq<seq<byte>>) {
    forall i :: 0 <= i < |chunks| ==> 0 < |chunks[i]| <= MAX_BLOCK_BYTES
  }

  // ---- Decoder ----------------------------------------------------------------------------------

  predicate ValidLengths(kind: byte, uncompressed: nat, payload: nat) {
    && (kind == RAW_BLOCK || kind == LZ4_BLOCK)
    && 1 <= uncompressed <= MAX_BLOCK_BYTES
    && 1 <= payload <= MAX_BLOCK_BYTES
    && (kind == RAW_BLOCK ==> payload == uncompressed)
    && (kind == LZ4_BLOCK ==> payload < uncompressed <= payload * MAX_EXPANSION_RATIO)
  }

  datatype Block = Block(data: seq<byte>, wire: nat, classification: Classification)

  function ClassifyRaw(length: nat): Classification {
    if length < MIN_INPUT_BYTES then RawSmall else RawIncompressible
  }

  /** The block a non-empty stream starts with; None is every decoding failure. */
  function ReadBlock(s: seq<byte>): (r: Option<Block>)
    requires s != []
    ensures r.Some? ==> HEADER_BYTES < r.value.wire <= |s| && 0 < |r.value.data| <= MAX_EXPANSION_RATIO * r.value.wire
  {
    if |s| < HEADER_BYTES then None
    else
      var uncompressed, payload := FromBigEndian(s[1..5]), FromBigEndian(s[5..9]);
      if !ValidLengths(s[0], uncompressed, payload) || |s| < HEADER_BYTES + payload then None
      else
        var body := s[HEADER_BYTES..HEADER_BYTES + payload];
        if s[0] == RAW_BLOCK then Some(Block(body, HEADER_BYTES + payload, ClassifyRaw(uncompressed)))
        else
          var decoded := Decompress(body, uncompressed);
          if decoded.None? || |decoded.value| != uncompressed then None
          else Some(Block(decoded.value, HEADER_BYTES + payload, Compressed))
  }

  /** What the decoder wrote, block by block, and whether it ended without an error. */
  datatype Decoded = Decoded(blocks: seq<Block>, ok: bool)

  function Decode(s: seq<byte>): Decoded
    decreases |s|
  {
    if s == [] then Decoded([], true)
    else
      match ReadBlock(s)
      case None => Decoded([], false)
      case Some(block) =>
        var rest := Decode(s[block.wire..]);
        rest.(blocks := [block] + rest.blocks)
  }

  function Written(blocks: seq<Block>): seq<byte> {
    if blocks == [] then [] else blocks[0].data + Written(blocks[1..])
  }

  // ---- Round trip -------------------------------------------------------------------------------

  lemma FrameHeader(compress: Compressor, x: seq<byte>, c: Classification, rest: seq<byte>)
    requires |x| <= MAX_BLOCK_BYTES && |Payload(compress, x, c)| <= MAX_BLOCK_BYTES
    ensures var s := Frame(compress, x, c) + rest; var payload := Payload(compress, x, c);
      && |Frame(compress, x, c)| == HEADER_BYTES + |payload|
      && s[0] == (if c.Compressed? then LZ4_BLOCK else RAW_BLOCK)
      && FromBigEndian(s[1..5]) == |x| && FromBigEndian(s[5..9]) == |payload|
      && s[HEADER_BYTES..HEADER_BYTES + |payload|] == payload
      && s[HEADER_BYTES + |payload|..] == rest
  {
    WordSizes();
    var payload := Payload(compress, x, c);
    var s := Frame(compress, x, c) + rest;
    BigEndianRoundTrip(|x|, 4);
    BigEndianRoundTrip(|payload|, 4);
    assert s[1..5] == BigEndian(|x|, 4);
    assert s[5..9] == BigEndian(|payload|, 4);
  }

  /** How the decoder classifies what the encoder sent as `c`: a back-off block looks incompressible. */
  function Seen(c: Classification): Classification {
    if c.RawBackoff? then RawIncompressible else c
  }

  /** A block that saves enough passes every length check of the decoder. */
  lemma CompressedIsValid(compress: Compressor, x: seq<byte>)
    requires Correct(compress) && 0 < |x| <= MAX_BLOCK_BYTES && SavesEnough(|x|, |compress(x)|)
    ensures ValidLengths(LZ4_BLOCK, |x|, |compress(x)|) && |compress(x)| + MIN_SAVINGS_BYTES <= |x|
  {
    CompressedSize(compress, x);
  }

  lemma ReadFrame(compress: Compressor, x: seq<byte>, a: Adaptive, rest: seq<byte>)
    requires Correct(compress) && 0 < |x| <= MAX_BLOCK_BYTES
    ensures var c := Classify(compress, x, a); var s := Frame(compress, x, c) + rest;
      && s != [] && ReadBlock(s) == Some(Block(x, |Frame(compress, x, c)|, Seen(c)))
      && s[|Frame(compress, x, c)|..] == rest
  {
    var c := Classify(compress, x, a);
    if c.Compressed? { CompressedIsValid(compress, x); }
    FrameHeader(compress, x, c, rest);
  }

  /** The blocks the decoder should see for a run of the encoder. */
  function Blocks(compress: Compressor, chunks: seq<seq<byte>>, a: Adaptive): (r: seq<Block>)
    ensures |r| == |chunks|
    decreases |chunks|
  {
    if chunks == [] then []
    else
      var c := Classify(compress, chunks[0], a);
      [Block(chunks[0], |Frame(compress, chunks[0], c)|, Seen(c))] + Blocks(compress, chunks[1..], Adapt(c, a))
  }

  /** Decoding what was encoded gives back every read, whatever the chunking and the adaptive state. */
  lemma {:induction false} RoundTrip(compress: Compressor, chunks: seq<seq<byte>>, a: Adaptive)
    requires Correct(compress) && Reads(chunks)
    ensures Decode(Encode(compress, chunks, a)) == Decoded(Blocks(compress, chunks, a), true)
    ensures Written(Blocks(compress, chunks, a)) == Concat(chunks)
    decreases |chunks|
  {
    if chunks != [] {
      var c := Classify(compress, chunks[0], a);
      ReadFrame(compress, chunks[0], a, Encode(compress, chunks[1..], Adapt(c, a)));
      RoundTrip(compress, chunks[1..], Adapt(c, a));
      assert Blocks(compress, chunks, a)[1..] == Blocks(compress, chunks[1..], Adapt(c, a));
    }
  }

  // ---- Truncated streams ------------------------------------------------------------------------

  /** How many whole frames fit in the first `k` bytes, and whether the cut falls between two frames. */
  function WholeFrames(compress: Compressor, chunks: seq<seq<byte>>, a: Adaptive, k: nat): (r: (nat, bool))
    ensures r.0 <= |chunks|
    decreases |chunks|
  {
    if chunks == [] then (0, true)
    else
      var c := Classify(compress, chunks[0], a);
      var frame := |Frame(compress, chunks[0], c)|;
      if k == 0 then (0, true)
      else if k < frame then (0, false)
      else
        var rest := WholeFrames(compress, chunks[1..], Adapt(c, a), k - frame);
        (1 + rest.0, rest.1)
  }

  /** A frame with its end missing is an error. */
  lemma CutFrame(compress: Compressor, x: seq<byte>, a: Adaptive, k: nat)
    requires Correct(compress) && 0 < |x| <= MAX_BLOCK_BYTES
    requires 0 < k < |Frame(compress, x, Classify(compress, x, a))|
    ensures Decode(Frame(compress, x, Classify(compress, x, a))[..k]) == Decoded([], false)
  {
    var c := Classify(compress, x, a);
    var frame := Frame(compress, x, c);
    if c.Compressed? { CompressedIsValid(compress, x); }
    FrameHeader(compress, x, c, []);
    assert frame + [] == frame;
    if k >= HEADER_BYTES {
      assert frame[..k][5..9] == frame[5..9];
      ShortBlock(frame[..k]);
    }
  }

  lemma ShortBlock(s: seq<byte>)
    requires HEADER_BYTES <= |s| < HEADER_BYTES + FromBigEndian(s[5..9])
    ensures ReadBlock(s) == None
  {
  }

  /** Decoding a whole frame and then the rest. */
  lemma DecodeFrame(compress: Compressor, x: seq<byte>, a: Adaptive, rest: seq<byte>)
    requires Correct(compress) && 0 < |x| <= MAX_BLOCK_BYTES
    ensures var d, e := Decode(Frame(compress, x, Classify(compress, x, a)) + rest), Decode(rest);
      Written(d.blocks) == x + Written(e.blocks) && d.ok == e.ok
  {
    ReadFrame(compress, x, a, rest);
    var block := ReadBlock(Frame(compress, x, Classify(compress, x, a)) + rest).value;
    assert ([block] + Decode(rest).blocks)[1..] == Decode(rest).blocks;
  }

  lemma ConcatTake(chunks: seq<seq<byte>>, n: nat)
    requires n < |chunks|
    ensures Concat(chunks[..n + 1]) == chunks[0] + Concat(chunks[1..][..n])
  {
    assert chunks[..n + 1][1..] == chunks[1..][..n];
  }

  lemma WholeFramesStep(compress: Compressor, chunks: seq<seq<byte>>, a: Adaptive, k: nat)
    requires chunks != [] && k > 0
    ensures var c := Classify(compress, chunks[0], a); var n := |Frame(compress, chunks[0], c)|;
      WholeFrames(compress, chunks, a, k) ==
        if k < n then (0, false)
        else (WholeFrames(compress, chunks[1..], Adapt(c, a), k - n).0
          + 1, WholeFrames(compress, chunks[1..], Adapt(c, a), k - n).1)
  {
  }

  /** The cut stream reads as a cut first frame, or as the first frame and a cut rest. */
  lemma CutSplits(frame: seq<byte>, rest: seq<byte>, k: nat)
    requires k <= |frame + rest|
    ensures (frame + rest)[..k] == if k < |frame| then frame[..k] else frame + rest[..k - |frame|]
  {
  }

  /** What a cut does to a frame and what follows it. */
  lemma CutDecode(compress: Compressor, x: seq<byte>, a: Adaptive, frame: seq<byte>, rest: seq<byte>, k: nat)
    requires Correct(compress) && 0 < |x| <= MAX_BLOCK_BYTES && frame == Frame(compress, x, Classify(compress, x, a))
    requires 0 < k <= |frame + rest|
    ensures var cut := Decode((frame + rest)[..k]);
      if k < |frame| then cut == Decoded([], false)
      else
        var tail := Decode(rest[..k - |frame|]);
        Written(cut.blocks) == x + Written(tail.blocks) && cut.ok == tail.ok
  {
    CutSplits(frame, rest, k);
    if k < |frame| {
      CutFrame(compress, x, a, k);
    } else {
      DecodeFrame(compress, x, a, rest[..k - |frame|]);
    }
  }

  /** One step of the argument below, on the first frame and the rest of the stream. */
  lemma CutStep(compress: Compressor, chunks: seq<seq<byte>>, a: Adaptive, k: nat, frame: seq<byte>, rest: seq<byte>,
      tail: (nat, bool))
    requires Correct(compress) && Reads(chunks) && chunks != [] && 0 < k <= |frame + rest|
    requires var c := Classify(compress, chunks[0], a);
      && frame == Frame(compress, chunks[0], c)
      && (k >= |frame| ==> tail == WholeFrames(compress, chunks[1..], Adapt(c, a), k - |frame|))
    requires k >= |frame| ==> var cut := Decode(rest[..k - |frame|]);
      && tail.0 <= |chunks| - 1 && Written(cut.blocks) == Concat(chunks[1..][..tail.0]) && cut.ok == tail.1
    ensures var cut := Decode((frame + rest)[..k]); var whole := WholeFrames(compress, chunks, a, k);
      && Written(cut.blocks) == Concat(chunks[..whole.0])
      && cut.ok == whole.1
  {
    CutDecode(compress, chunks[0], a, frame, rest, k);
    WholeFramesStep(compress, chunks, a, k);
    if k >= |frame| { ConcatTake(chunks, tail.0); }
  }

  /**
   Cut anywhere, the stream decodes to exactly the whole blocks before the cut, hence to a prefix of the
   original; and it decodes without an error exactly when the cut falls between two blocks.
   */
  lemma {:induction false} CutStream(compress: Compressor, chunks: seq<seq<byte>>, a: Adaptive, k: nat)
    requires Correct(compress) && Reads(chunks) && k <= |Encode(compress, chunks, a)|
    ensures var cut := Decode(Encode(compress, chunks, a)[..k]); var whole := WholeFrames(compress, chunks, a, k);
      && Written(cut.blocks) == Concat(chunks[..whole.0])
      && cut.ok == whole.1
    decreases |chunks|
  {
    if chunks != [] && k > 0 {
      var c := Classify(compress, chunks[0], a);
      var frame, rest := Frame(compress, chunks[0], c), Encode(compress, chunks[1..], Adapt(c, a));
      var tail := (0, true);
      if k >= |frame| {
        CutStream(compress, chunks[1..], Adapt(c, a), k - |frame|);
        tail := WholeFrames(compress, chunks[1..], Adapt(c, a), k - |frame|);
      }
      CutStep(compress, chunks, a, k, frame, rest, tail);
    }
  }

  lemma {:induction false} ConcatPrefix(chunks: seq<seq<byte>>, n: nat)
    requires n <= |chunks|
    ensures Concat(chunks[..n]) <= Concat(chunks)
    decreases n
  {
    if n > 0 {
      ConcatPrefix(chunks[1..], n - 1);
      assert chunks[..n][1..] == chunks[1..][..n - 1];
    }
  }

  /** The cuts between blocks are the lengths of the encodings of the first reads. */
  lemma {:induction false} BoundaryMeaning(compress: Compressor, chunks: seq<seq<byte>>, a: Adaptive, k: nat, m: nat)
    requires k <= |Encode(compress, chunks, a)| && m <= |chunks|
    ensures WholeFrames(compress, chunks, a, k).1 ==>
      k == |Encode(compress, chunks[..WholeFrames(compress, chunks, a, k).0], a)|
    ensures k == |Encode(compress, chunks[..m], a)| ==> WholeFrames(compress, chunks, a, k) == (m, true)
    decreases |chunks|
  {
    if chunks != [] {
      var c := Classify(compress, chunks[0], a);
      var frame, rest := |Frame(compress, chunks[0], c)|, chunks[1..];
      var n := WholeFrames(compress, chunks, a, k).0;
      assert n > 0 ==> chunks[..n][1..] == rest[..n - 1] && chunks[..n][0] == chunks[0];
      assert m > 0 ==> chunks[..m][1..] == rest[..m - 1] && chunks[..m][0] == chunks[0];
      if k >= frame {
        BoundaryMeaning(compress, rest, Adapt(c, a), k - frame, if m > 0 then m - 1 else 0);
      }
    }
  }

  /**
   Cutting the stream after any `k` bytes yields a prefix of the original bytes; decoding succeeds exactly
   when the first `k` bytes are the encoding of the first few reads.
   */
  lemma TruncationYieldsPrefix(compress: Compressor, chunks: seq<seq<byte>>, k: nat)
    requires Correct(compress) && Reads(chunks) && k <= |Encode(compress, chunks, FRESH)|
    ensures var cut := Decode(Encode(compress, chunks, FRESH)[..k]);
      && Written(cut.blocks) <= Concat(chunks)
      && (cut.ok <==> exists m :: 0 <= m <= |chunks| && k == |Encode(compress, chunks[..m], FRESH)|)
  {
    CutStream(compress, chunks, FRESH, k);
    var whole := WholeFrames(compress, chunks, FRESH, k);
    ConcatPrefix(chunks, whole.0);
    forall m | 0 <= m <= |chunks| && k == |Encode(compress, chunks[..m], FRESH)| ensures whole.1 {
      BoundaryMeaning(compress, chunks, FRESH, k, m);
    }
    BoundaryMeaning(compress, chunks, FRESH, k, 0);
  }

  /** On any input at all, the decoder writes at most 256 times the bytes it is given. */
  lemma {:induction false} DecoderIsBounded(s: seq<byte>)
    ensures |Written(Decode(s).blocks)| <= MAX_EXPANSION_RATIO * |s|
    decreases |s|
  {
    if s != [] && ReadBlock(s).Some? {
      var block := ReadBlock(s).value;
      DecoderIsBounded(s[block.wire..]);
      assert Decode(s).blocks[1..] == Decode(s[block.wire..]).blocks;
    }
  }

  // ---- Counters ---------------------------------------------------------------------------------

  datatype Counters = Counters(
    uncompressed: nat, wire: nat, blocks: nat, compressed: nat, small: nat, incompressible: nat, backoff: nat)

  const ZERO := Counters(0, 0, 0, 0, 0, 0, 0)

  function Record(n: Counters, uncompressed: nat, wire: nat, c: Classification): Counters {
    var m := n.(uncompressed := n.uncompressed + uncompressed, wire := n.wire + wire, blocks := n.blocks + 1);
    match c
    case Compressed => m.(compressed := m.compressed + 1)
    case RawSmall => m.(small := m.small + 1)
    case RawIncompressible => m.(incompressible := m.incompressible + 1)
    case RawBackoff => m.(backoff := m.backoff + 1)
  }

  /** The encoder's counters after the given reads. */
  function EncoderCounts(compress: Compressor, chunks: seq<seq<byte>>, a: Adaptive, n: Counters): Counters
    decreases |chunks|
  {
    if chunks == [] then n
    else
      var c := Classify(compress, chunks[0], a);
      EncoderCounts(compress, chunks[1..], Adapt(c, a), Record(n, |chunks[0]|, |Frame(compress, chunks[0], c)|, c))
  }

  function DecoderCounts(blocks: seq<Block>, n: Counters): Counters
    decreases |blocks|
  {
    if blocks == [] then n
    else DecoderCounts(blocks[1..], Record(n, |blocks[0].data|, blocks[0].wire, blocks[0].classification))
  }

  predicate Balanced(n: Counters) {
    && n.blocks == n.compressed + n.small + n.incompressible + n.backoff
    && n.uncompressed - n.wire >= 55 * n.compressed - 9 * (n.small + n.incompressible + n.backoff)
  }

  /** Blocks add up by class, a compressed block saves at least 55 bytes and a raw one costs 9. */
  lemma {:induction false} CountsBalance(compress: Compressor, chunks: seq<seq<byte>>, a: Adaptive, n: Counters)
    requires Correct(compress) && Reads(chunks) && Balanced(n)
    ensures Balanced(EncoderCounts(compress, chunks, a, n))
    decreases |chunks|
  {
    if chunks != [] {
      var c := Classify(compress, chunks[0], a);
      if c.Compressed? { CompressedIsValid(compress, chunks[0]); }
      CountsBalance(compress, chunks[1..], Adapt(c, a), Record(n, |chunks[0]|, |Frame(compress, chunks[0], c)|, c));
    }
  }

  /** The decoder's view of the encoder's counters: back-off blocks count as incompressible. */
  function SeenCounts(n: Counters): Counters {
    n.(incompressible := n.incompressible + n.backoff, backoff := 0)
  }

  /** Both ends count the same stream the same way. */
  lemma {:induction false} CountsAgree(compress: Compressor, chunks: seq<seq<byte>>, a: Adaptive, n: Counters)
    requires Correct(compress) && Reads(chunks)
    ensures DecoderCounts(Blocks(compress, chunks, a), SeenCounts(n))
      == SeenCounts(EncoderCounts(compress, chunks, a, n))
    decreases |chunks|
  {
    if chunks != [] {
      var c := Classify(compress, chunks[0], a);
      var n' := Record(n, |chunks[0]|, |Frame(compress, chunks[0], c)|, c);
      CountsAgree(compress, chunks[1..], Adapt(c, a), n');
      assert Blocks(compress, chunks, a)[1..] == Blocks(compress, chunks[1..], Adapt(c, a));
      assert SeenCounts(n') == Record(SeenCounts(n), |chunks[0]|, |Frame(compress, chunks[0], c)|, Seen(c));
    }
  }

  // ---- Back-off ---------------------------------------------------------------------------------

  /** Every read is worth probing and every probe would fail. */
  ghost predicate Incompressible(compress: Compressor, chunks: seq<seq<byte>>) {
    forall i :: 0 <= i < |chunks| ==> |chunks[i]| >= MIN_INPUT_BYTES && !SavesEnough(|chunks[i]|, |compress(chunks[i])|)
  }

  /** The adaptive state after `n` incompressible blocks: two probes, eight blocks of rest, and again. */
  function AdaptiveAfter(n: nat): Adaptive {
    var r := n % 10;
    if r < 2 then Adaptive(r, 0) else Adaptive(0, 10 - r)
  }

  function ProbesAfter(n: nat): nat {
    2 * (n / 10) + if n % 10 < 2 then n % 10 else 2
  }

  lemma AdaptStep(c: Classification, m: nat)
    requires c == if AdaptiveAfter(m).backoff > 0 then RawBackoff else RawIncompressible
    ensures Adapt(c, AdaptiveAfter(m)) == AdaptiveAfter(m + 1)
    ensures ProbesAfter(m + 1) == ProbesAfter(m) + if c.RawIncompressible? then 1 else 0
  {
    Tens(m);
  }

  lemma Tens(m: nat)
    ensures if m % 10 == 9 then (m + 1) % 10 == 0 && (m + 1) / 10 == m / 10 + 1
      else (m + 1) % 10 == m % 10 + 1 && (m + 1) / 10 == m / 10
  {
  }

  lemma RecordRaw(n: Counters, read: nat, wire: nat, c: Classification)
    requires c.RawBackoff? || c.RawIncompressible?
    ensures Record(n, read, wire, c).incompressible == n.incompressible + if c.RawIncompressible? then 1 else 0
    ensures Record(n, read, wire, c).backoff == n.backoff + if c.RawBackoff? then 1 else 0
  {
  }

  /** If every probe fails, two blocks in ten are probed and the rest are sent as they are. */
  lemma {:induction false} ProbeSchedule(compress: Compressor, chunks: seq<seq<byte>>, a: Adaptive, m: nat, n: Counters)
    requires Incompressible(compress, chunks) && a == AdaptiveAfter(m)
    requires n.incompressible == ProbesAfter(m) && n.backoff == m - ProbesAfter(m)
    ensures var after := EncoderCounts(compress, chunks, a, n);
      after.incompressible == ProbesAfter(m + |chunks|) && after.backoff == m + |chunks| - ProbesAfter(m + |chunks|)
    decreases |chunks|
  {
    if chunks != [] {
      var c := Classify(compress, chunks[0], a);
      AdaptStep(c, m);
      RecordRaw(n, |chunks[0]|, |Frame(compress, chunks[0], c)|, c);
      ProbeSchedule(compress, chunks[1..], Adapt(c, a), m
        + 1, Record(n, |chunks[0]|, |Frame(compress, chunks[0], c)|, c));
    }
  }

  // ---- The loops --------------------------------------------------------------------------------

  function SaturatingAdd(total: nat, n: nat): nat {
    if total + n > MAX_TOTAL then MAX_TOTAL else total + n
  }

  lemma SaturatingSum(total: nat, m: nat, n: nat)
    ensures SaturatingAdd(SaturatingAdd(total, m), n) == SaturatingAdd(total, m + n)
  {
  }

  /** One round of copy_compressed: the block sent for one read, and the adaptive state after it. */
  method EncodeRead(compress: Compressor, input: seq<byte>, a: Adaptive)
    returns (frame: seq<byte>, classification: Classification, probes: nat, backoff: nat)
    ensures classification == Classify(compress, input, a)
    ensures Adaptive(probes, backoff) == Adapt(classification, a)
    ensures frame == Frame(compress, input, classification)
  {
    probes, backoff := a.probes, a.backoff;
    var kind, payload := RAW_BLOCK, input;
    if |input| < MIN_INPUT_BYTES {
      classification := RawSmall;
    } else if backoff > 0 {
      backoff, classification := backoff - 1, RawBackoff;
    } else {
      var compressed := compress(input);
      if SavesEnough(|input|, |compressed|) {
        probes, kind, payload, classification := 0, LZ4_BLOCK, compressed, Compressed;
      } else {
        probes, classification := probes + 1, RawIncompressible;
        if probes >= PROBES_BEFORE_BACKOFF { probes, backoff := 0, BACKOFF_BLOCKS; }
      }
    }
    frame := [kind] + BigEndian(|input|, 4) + BigEndian(|payload|, 4) + payload;
  }

  /** What one round does to the result of the rest of the run. */
  lemma EncodeStep(compress: Compressor, chunks: seq<seq<byte>>, i: nat, a: Adaptive, out: seq<byte>, n: Counters)
    requires i < |chunks|
    ensures var c := Classify(compress, chunks[i], a); var frame := Frame(compress, chunks[i], c);
      && out + frame + Encode(compress, chunks[i + 1..], Adapt(c, a)) == out + Encode(compress, chunks[i..], a)
      && EncoderCounts(compress, chunks[i + 1..], Adapt(c, a), Record(n, |chunks[i]|, |frame|, c))
         == EncoderCounts(compress, chunks[i..], a, n)
      && |Concat(chunks[i..])| == |chunks[i]| + |Concat(chunks[i + 1..])|
  {
    assert chunks[i..][0] == chunks[i] && chunks[i..][1..] == chunks[i + 1..];
  }

  /** copy_compressed over the reads of a stream. */
  method CopyCompressed(compress: Compressor, chunks: seq<seq<byte>>)
    returns (out: seq<byte>, total: nat, counters: Counters)
    ensures out == Encode(compress, chunks, FRESH)
    ensures total == SaturatingAdd(0, |Concat(chunks)|)
    ensures counters == EncoderCounts(compress, chunks, FRESH, ZERO)
  {
    out, total, counters := [], 0, ZERO;
    var a := FRESH;
    assert chunks[0..] == chunks;
    for i := 0 to |chunks|
      invariant out + Encode(compress, chunks[i..], a) == Encode(compress, chunks, FRESH)
      invariant SaturatingAdd(total, |Concat(chunks[i..])|) == SaturatingAdd(0, |Concat(chunks)|)
      invariant EncoderCounts(compress, chunks[i..], a, counters) == EncoderCounts(compress, chunks, FRESH, ZERO)
      invariant total <= MAX_TOTAL
    {
      EncodeStep(compress, chunks, i, a, out, counters);
      SaturatingSum(total, |chunks[i]|, |Concat(chunks[i + 1..])|);
      var frame, classification, probes, backoff := EncodeRead(compress, chunks[i], a);
      counters := Record(counters, |chunks[i]|, |frame|, classification);
      out, total, a := out + frame, SaturatingAdd(total, |chunks[i]|), Adaptive(probes, backoff);
    }
  }

  /** The first `index` bytes were decoded into `blocks`. */
  ghost predicate Progress(s: seq<byte>, index: nat, blocks: seq<Block>) {
    && index <= |s|
    && Decode(s).blocks == blocks + Decode(s[index..]).blocks
    && Decode(s).ok == Decode(s[index..]).ok
  }

  lemma ProgressStep(s: seq<byte>, index: nat, blocks: seq<Block>, block: Block)
    requires Progress(s, index, blocks) && index < |s| && ReadBlock(s[index..]) == Some(block)
    ensures Progress(s, index + block.wire, blocks + [block])
  {
    assert s[index..][block.wire..] == s[index + block.wire..];
  }

  lemma {:induction false} WrittenAppend(blocks: seq<Block>, block: Block, n: Counters)
    ensures Written(blocks + [block]) == Written(blocks) + block.data
    ensures DecoderCounts(blocks + [block], n)
         == Record(DecoderCounts(blocks, n), |block.data|, block.wire, block.classification)
    decreases |blocks|
  {
    if blocks != [] {
      assert (blocks + [block])[1..] == blocks[1..] + [block];
      WrittenAppend(blocks[1..], block, Record(n, |blocks[0].data|, blocks[0].wire, blocks[0].classification));
    } else {
      assert (blocks + [block])[1..] == [];
    }
  }

  /** copy_decompressed: reads blocks until the stream ends or a block is refused. */
  method CopyDecompressed(s: seq<byte>) returns (out: seq<byte>, ok: bool, counters: Counters, failures: nat)
    ensures out == Written(Decode(s).blocks) && ok == Decode(s).ok
    ensures counters == DecoderCounts(Decode(s).blocks, ZERO)
    ensures failures == if ok then 0 else 1
  {
    out, counters, failures := [], ZERO, 0;
    var index := 0;
    ghost var blocks: seq<Block> := [];
    assert s[0..] == s;
    while index < |s|
      invariant index <= |s|
      invariant Progress(s, index, blocks)
      invariant out == Written(blocks) && counters == DecoderCounts(blocks, ZERO)
    {
      var block := ReadBlock(s[index..]);
      if block.None? {
        assert blocks + [] == blocks;
        return out, false, counters, 1;
      }
      ProgressStep(s, index, blocks, block.value);
      WrittenAppend(blocks, block.value, ZERO);
      blocks := blocks + [block.value];
      out := out + block.value.data;
      counters := Record(counters, |block.value.data|, block.value.wire, block.value.classification);
      index := index + block.value.wire;
    }
    assert blocks + [] == blocks;
    ok := true;
  }
}
