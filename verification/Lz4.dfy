/**
 The LZ4 block format as a decoder over byte sequences. It is what fixes the expansion limit: no block
 decodes to more than 255 times its size.
 */
module Lz4 {
  import opened Wrappers
  import opened Bytes

  /** Length bytes after a nibble of 15: every 255 continues, the first other byte ends. Value and bytes used. */
  function ExtraLength(s: seq<byte>): (r: Option<(nat, nat)>)
    ensures r.Some? ==> r.value.1 <= |s| && r.value.0 <= 255 * r.value.1
  {
    if s == [] then None
    else if s[0] < 255 then Some((s[0], 1))
    else
      var rest := ExtraLength(s[1..]);
      if rest.Some? then Some((255 + rest.value.0, 1 + rest.value.1)) else None
  }

  function Length(s: seq<byte>, nibble: nat): (r: Option<(nat, nat)>)
    requires nibble < 16
    ensures r.Some? ==> r.value.1 <= |s| && r.value.0 <= nibble + 255 * r.value.1
  {
    if nibble < 15 then Some((nibble, 0))
    else
      var extra := ExtraLength(s);
      if extra.Some? then Some((15 + extra.value.0, extra.value.1)) else None
  }

  /** Appends `n` bytes, each copied from `offset` bytes back; source and target may overlap. */
  function CopyMatch(out: seq<byte>, offset: nat, n: nat): (r: seq<byte>)
    requires 0 < offset <= |out|
    ensures |r| == |out| + n
    decreases n
  {
    if n == 0 then out else CopyMatch(out + [out[|out| - offset]], offset, n - 1)
  }

  /** One sequence: literals, and unless it is the last one a match of `run` bytes; `used` bytes long. */
  datatype Sequence = Last(literals: seq<byte>) | Match(literals: seq<byte>, offset: nat, run: nat, used: nat)

  function ParseSequence(s: seq<byte>): (r: Option<Sequence>)
    ensures r.Some? ==> s != [] && |r.value.literals| <= |s|
    ensures r.Some? && r.value.Match? ==> 0 < r.value.used <= |s|
    ensures r.Some? && r.value.Match? ==> |r.value.literals| + r.value.run <= 255 * r.value.used
  {
    if s == [] then None
    else
      var literals := Length(s[1..], s[0] / 16);
      if literals.None? || 1 + literals.value.1 + literals.value.0 > |s| then None
      else
        var end := 1 + literals.value.1 + literals.value.0;
        var text := s[1 + literals.value.1..end];
        if end == |s| then Some(Last(text))
        else if end + 2 > |s| then None
        else
          var run := Length(s[end + 2..], s[0] % 16);
          if run.None? then None
          else Some(Match(text, s[end] as int + 256 * (s[end + 1] as int), run.value.0 + 4, end + 2 + run.value.1))
  }

  /** Decodes the sequences of `s` after `out`. */
  function DecodeFrom(s: seq<byte>, out: seq<byte>): Option<seq<byte>>
    decreases |s|
  {
    match ParseSequence(s)
    case None => None
    case Some(Last(literals)) => Some(out + literals)
    case Some(Match(literals, offset, run, used)) =>
      if offset == 0 || offset > |out + literals| then None
      else DecodeFrom(s[used..], CopyMatch(out + literals, offset, run))
  }

  /** Decoding into a buffer of `size` bytes. */
  function Decompress(s: seq<byte>, size: nat): Option<seq<byte>> {
    var decoded := DecodeFrom(s, []);
    if decoded.Some? && |decoded.value| <= size then decoded else None
  }

  /** Each block byte stands for at most 255 bytes of output. */
  lemma {:induction false} ExpansionLimit(s: seq<byte>, out: seq<byte>)
    requires DecodeFrom(s, out).Some?
    ensures |DecodeFrom(s, out).value| <= |out| + 255 * |s|
    decreases |s|
  {
    var first := ParseSequence(s).value;
    if first.Match? {
      ExpansionLimit(s[first.used..], CopyMatch(out + first.literals, first.offset, first.run));
    }
  }

  /** What is assumed of the compressor: the format decodes its output to its input. */
  ghost predicate Correct(compress: seq<byte> -> seq<byte>) {
    forall x: seq<byte> :: x != [] ==> DecodeFrom(compress(x), []) == Some(x)
  }

  /** A correct compressor emits at least one byte, and one for every 255 it is given. */
  lemma CompressedSize(compress: seq<byte> -> seq<byte>, x: seq<byte>)
    requires Correct(compress) && x != []
    ensures compress(x) != [] && |x| <= 255 * |compress(x)|
  {
    ExpansionLimit(compress(x), []);
  }
}
