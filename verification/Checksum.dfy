/**
 Order-independent table checksums: a 256-bit sum with carry and an exclusive-or over row digests, and the
 canonical encoding of rows they digest. The digest function is a parameter.
 */
module Checksum {
  import opened Wrappers
  import opened Bytes
  import opened Sequences

  type Value = Option<seq<byte>>

  const WIDTH := 32

  type Sha = seq<byte> -> seq<byte>

  /** The digest of a value. */
  type Hash = Value -> seq<byte>

  function Saturate(n: nat): nat {
    if n > MAX_U64 then MAX_U64 else n
  }

  // ---- Canonical encoding -------------------------------------------------------------------------

  /** A NULL is one zero byte; a value is a one, its length in eight bytes, and itself. */
  function Canonical(v: Value): seq<byte> {
    match v
    case None => [0]
    case Some(bytes) => [1] + BigEndian(Saturate(|bytes|), 8) + bytes
  }

  /** Values are digested through their encoding. Everything below that takes a hash holds for this one. */
  function Digests(sha: Sha): Hash {
    v => sha(Canonical(v))
  }

  function CanonicalRow(row: seq<Value>): seq<byte> {
    if row == [] then [] else Canonical(row[0]) + CanonicalRow(row[1..])
  }

  predicate Fits(v: Value) {
    v.Some? ==> |v.value| <= MAX_U64
  }

  lemma Slices(length: seq<byte>, bytes: seq<byte>, rest: seq<byte>)
    requires |length| == 8
    ensures var u := ([1] + length + bytes) + rest;
      u[0] == 1 && u[1..9] == length && u[9..9 + |bytes|] == bytes && u[9 + |bytes|..] == rest
  {
  }

  lemma PresentIsPrefixFree(a: seq<byte>, b: seq<byte>, la: seq<byte>, lb: seq<byte>, s: seq<byte>, t: seq<byte>)
    requires |la| == |lb| == 8 && (la == lb ==> |a| == |b|)
    requires ([1] + la + a) + s == ([1] + lb + b) + t
    ensures a == b && s == t
  {
    Slices(la, a, s);
    Slices(lb, b, t);
  }

  /** No encoded value is a proper prefix of another: what follows does not change how it reads. */
  lemma CanonicalIsPrefixFree(a: Value, b: Value, s: seq<byte>, t: seq<byte>)
    requires Fits(a) && Fits(b) && Canonical(a) + s == Canonical(b) + t
    ensures a == b && s == t
  {
    var u := Canonical(a) + s;
    assert u[0] == Canonical(a)[0] && u[0] == Canonical(b)[0];
    if a.Some? {
      var la, lb := BigEndian(|a.value|, 8), BigEndian(|b.value|, 8);
      if la == lb {
        WordSizes();
        BigEndianIsInjective(|a.value|, |b.value|, 8);
      }
      PresentIsPrefixFree(a.value, b.value, la, lb, s, t);
    } else {
      assert u[1..] == s && u[1..] == t;
    }
  }

  /** Rows with the same number of columns and the same encoding are equal, value by value. */
  lemma {:induction false} CanonicalRowIsInjective(a: seq<Value>, b: seq<Value>)
    requires |a| == |b| && CanonicalRow(a) == CanonicalRow(b)
    requires forall i :: 0 <= i < |a| ==> Fits(a[i]) && Fits(b[i])
    ensures a == b
    decreases |a|
  {
    if a != [] {
      CanonicalIsPrefixFree(a[0], b[0], CanonicalRow(a[1..]), CanonicalRow(b[1..]));
      CanonicalRowIsInjective(a[1..], b[1..]);
    }
  }

  // ---- Arithmetic ---------------------------------------------------------------------------------

  lemma Distribute(x: int, p: int, m: int)
    ensures 256 * (x * p + m) == x * (256 * p) + 256 * m
  {
  }

  lemma {:induction false} HighByte(s: seq<byte>)
    requires s != []
    ensures FromBigEndian(s) == s[0] as int * Pow256(|s| - 1) + FromBigEndian(s[1..])
    decreases |s|
  {
    if |s| > 1 {
      var front := s[..|s| - 1];
      HighByte(front);
      assert front[1..] == s[1..][..|s| - 2];
      assert s[1..][|s| - 2] == s[|s| - 1];
      Distribute(s[0], Pow256(|s| - 2), FromBigEndian(front[1..]));
    }
  }

  /** The sum is kept modulo 256 to the width of a digest: 2^256 for 32 bytes. */
  type Modulus = m: nat | m > 0 witness 1

  /** The remainder, by repeated subtraction. */
  function Mod(x: nat, m: Modulus): (r: nat)
    ensures r < m
  {
    if x < m then x else Mod(x - m, m)
  }

  lemma Subtract(x: nat, m: Modulus)
    requires x >= m
    ensures x % m == (x - m) % m
  {
    var q, r := (x - m) / m, (x - m) % m;
    assert x == m * (q + 1) + r;
    Quotient(m, x / m - (q + 1), x % m, r);
  }

  lemma Quotient(m: Modulus, k: int, r: nat, t: nat)
    requires r < m && t < m && m * k + r == t
    ensures k == 0
  {
  }

  lemma {:induction false} ModIsRemainder(x: nat, m: Modulus)
    ensures Mod(x, m) == x % m
    decreases x
  {
    if x >= m {
      ModIsRemainder(x - m, m);
      Subtract(x, m);
    }
  }

  lemma {:induction false} ModShift(a: nat, b: nat, m: Modulus)
    ensures Mod(Mod(a, m) + b, m) == Mod(a + b, m)
    decreases a
  {
    if a >= m { ModShift(a - m, b, m); }
  }

  lemma AddModuloCommutes(a: nat, b: nat, c: nat, m: Modulus)
    ensures Mod(Mod(a + b, m) + c, m) == Mod(Mod(a + c, m) + b, m)
  {
    ModShift(a + b, c, m);
    ModShift(a + c, b, m);
  }

  function XorBits(a: nat, b: nat, k: nat): nat {
    if k == 0 then 0 else 2 * XorBits(a / 2, b / 2, k - 1) + (a + b) % 2
  }

  function Pow2(k: nat): nat {
    if k == 0 then 1 else 2 * Pow2(k - 1)
  }

  lemma {:induction false} XorBound(a: nat, b: nat, k: nat)
    ensures XorBits(a, b, k) < Pow2(k)
    decreases k
  {
    if k > 0 { XorBound(a / 2, b / 2, k - 1); }
  }

  lemma EightBits()
    ensures Pow2(8) == 256
  {
    assert Pow2(4) == 16;
  }

  function Xor(a: byte, b: byte): byte {
    XorBound(a, b, 8);
    EightBits();
    XorBits(a, b, 8)
  }

  lemma Parity(x: nat, n: nat, c: nat)
    ensures (2 * x + n % 2 + c) % 2 == (n + c) % 2
  {
  }

  /** The exclusive-or with `c` of a number given by its upper bits and a parity. */
  lemma XorStep(x: nat, n: nat, c: nat, k: nat)
    requires k > 0
    ensures XorBits(2 * x + n % 2, c, k) == 2 * XorBits(x, c / 2, k - 1) + (n + c) % 2
  {
    assert (2 * x + n % 2) / 2 == x;
    Parity(x, n, c);
  }

  lemma XorTwice(a: nat, b: nat, c: nat, k: nat)
    requires k > 0
    ensures XorBits(XorBits(a, b, k), c, k) == 2 * XorBits(XorBits(a / 2, b / 2, k - 1), c / 2, k - 1) + (a + b + c) % 2
  {
    XorStep(XorBits(a / 2, b / 2, k - 1), a + b, c, k);
  }

  lemma {:induction false} XorBitsCommutes(a: nat, b: nat, c: nat, k: nat)
    ensures XorBits(XorBits(a, b, k), c, k) == XorBits(XorBits(a, c, k), b, k)
    decreases k
  {
    if k > 0 {
      XorBitsCommutes(a / 2, b / 2, c / 2, k - 1);
      XorTwice(a, b, c, k);
      XorTwice(a, c, b, k);
      assert a + b + c == a + c + b;
    }
  }

  /** Bit `i` of a number, counted from the lowest. */
  function Bit(n: nat, i: nat): nat {
    if i == 0 then n % 2 else Bit(n / 2, i - 1)
  }

  lemma Halves(x: nat, p: nat)
    requires p < 2
    ensures (2 * x + p) % 2 == p && (2 * x + p) / 2 == x
  {
  }

  lemma ParitySum(a: nat, b: nat)
    ensures (a + b) % 2 == (a % 2 + b % 2) % 2
  {
  }

  lemma XorHalves(a: nat, b: nat, k: nat)
    requires k > 0
    ensures var n := XorBits(a, b, k); n % 2 == (a % 2 + b % 2) % 2 && n / 2 == XorBits(a / 2, b / 2, k - 1)
  {
    Halves(XorBits(a / 2, b / 2, k - 1), (a + b) % 2);
    ParitySum(a, b);
  }

  lemma {:induction false} XorBit(a: nat, b: nat, k: nat, i: nat)
    requires i < k
    ensures Bit(XorBits(a, b, k), i) == (Bit(a, i) + Bit(b, i)) % 2
    decreases k
  {
    XorHalves(a, b, k);
    if i > 0 { XorBit(a / 2, b / 2, k - 1, i - 1); }
  }

  function ByteAt(s: seq<byte>, j: nat): byte {
    if j < |s| then s[j] else 0
  }

  function XorAll(a: seq<byte>, b: seq<byte>): (r: seq<byte>)
    ensures |r| == |a|
  {
    seq(|a|, i requires 0 <= i < |a| => Xor(a[i], ByteAt(b, i)))
  }

  lemma XorAllCommutes(a: seq<byte>, b: seq<byte>, c: seq<byte>)
    ensures XorAll(XorAll(a, b), c) == XorAll(XorAll(a, c), b)
  {
    forall i | 0 <= i < |a| ensures XorAll(XorAll(a, b), c)[i] == XorAll(XorAll(a, c), b)[i] {
      XorBitsCommutes(a[i], ByteAt(b, i), ByteAt(c, i), 8);
    }
  }

  // ---- The accumulator ----------------------------------------------------------------------------

  /** The running digest: how many values and NULLs, the sum of their digests as a number, and their exclusive-or. */
  datatype Accumulator = Accumulator(count: nat, nulls: nat, sum: nat, xor: seq<byte>)

  function Zeros(n: nat): seq<byte> {
    seq(n, i => 0)
  }

  const EMPTY := Accumulator(0, 0, 0, Zeros(WIDTH))

  function Update(m: Modulus, acc: Accumulator, absent: bool, digest: seq<byte>): Accumulator {
    Accumulator(Saturate(acc.count + 1), if absent then Saturate(acc.nulls + 1) else acc.nulls,
                Mod(acc.sum + FromBigEndian(digest), m), XorAll(acc.xor, digest))
  }

  lemma {:induction false} ZerosAreZero(s: seq<byte>)
    requires forall i :: 0 <= i < |s| ==> s[i] == 0
    ensures FromBigEndian(s) == 0
    decreases |s|
  {
    if s != [] { ZerosAreZero(s[..|s| - 1]); }
  }

  class MultisetChecksum {
    var count: nat
    var nulls: nat
    const width: nat
    const sum: array<byte>
    const xor: array<byte>

    ghost predicate Valid()
      reads this
    {
      sum.Length == width && xor.Length == width && sum != xor
    }

    ghost function View(): Accumulator
      requires Valid()
      reads this, sum, xor
    {
      Accumulator(count, nulls, FromBigEndian(sum[..]), xor[..])
    }

    constructor ()
      ensures Valid() && width == WIDTH && fresh(sum) && fresh(xor) && View() == EMPTY
    {
      count, nulls, width := 0, 0, WIDTH;
      sum := new byte[WIDTH](i => 0);
      xor := new byte[WIDTH](i => 0);
      new;
      assert xor[..] == Zeros(WIDTH);
      ZerosAreZero(sum[..]);
    }

    /** One round of the carry loop. */
    method AddByte(i: nat, digit: byte, carry: nat) returns (carry': nat)
      requires Valid() && i < width && carry <= 1
      modifies sum, xor
      ensures var total := old(sum[i]) as int + digit as int + carry; var low: byte := total % 256;
        sum[..] == old(sum[..])[i := low] && carry' == total / 256 <= 1
      ensures xor[..] == old(xor[..])[i := Xor(old(xor[i]), digit)]
    {
      var total := sum[i] as int + digit as int + carry;
      sum[i] := total % 256;
      carry' := total / 256;
      xor[i] := Xor(xor[i], digit);
    }

    /** The same round, as a part of the sum with `a` and the exclusive-or with `x` that were there before. */
    method AddNext(ghost a: seq<byte>, ghost x: seq<byte>, digest: seq<byte>, i: nat, carry: nat) returns (carry': nat)
      requires Valid() && |digest| == width && i < width && carry <= 1
      requires SumDone(sum[..], a, digest, i + 1, carry) && XorDone(xor[..], x, digest, i + 1)
      modifies sum, xor
      ensures carry' <= 1 && SumDone(sum[..], a, digest, i, carry') && XorDone(xor[..], x, digest, i)
    {
      SumRound(sum[..], a, digest, i, carry);
      XorRound(xor[..], x, digest, i);
      carry' := AddByte(i, digest[i], carry);
    }

    /** The carry loop, from the last byte to the first. */
    method Accumulate(digest: seq<byte>)
      requires Valid() && |digest| == width
      modifies sum, xor
      ensures FromBigEndian(sum[..]) == Mod(FromBigEndian(old(sum[..])) + FromBigEndian(digest), Pow256(width))
      ensures xor[..] == XorAll(old(xor[..]), digest)
    {
      ghost var a, x := sum[..], xor[..];
      var carry, i := 0, width;
      while i > 0
        invariant 0 <= i <= width && 0 <= carry <= 1
        invariant SumDone(sum[..], a, digest, i, carry) && XorDone(xor[..], x, digest, i)
      {
        i := i - 1;
        carry := AddNext(a, x, digest, i, carry);
      }
      SumFinished(sum[..], a, digest, carry);
      XorFinished(xor[..], x, digest);
    }

    method Insert(hash: Hash, value: Value)
      requires Valid() && |hash(value)| == width
      modifies this, sum, xor
      ensures Valid() && View() == Update(Pow256(width), old(View()), value.None?, hash(value))
    {
      count := Saturate(count + 1);
      if value.None? { nulls := Saturate(nulls + 1); }
      Accumulate(hash(value));
    }
  }

  lemma CarryAlgebra(x: int, y: int, carry: int, q: int, r: int, p: int)
    requires x + y + carry == 256 * q + r && 0 <= carry <= 1 && 0 <= q <= 1
    ensures r * p + Carried(q, 256 * p) == x * p + y * p + Carried(carry, p)
  {
    assert (x + y + carry) * p == (256 * q + r) * p;
  }

  /** What a carry of 0 or 1 is worth in front of bytes below `p`. */
  function Carried(carry: int, p: int): int {
    if carry == 0 then 0 else p
  }

  /** The tail computed so far, with the carry in front of it, is the sum of the two tails. */
  ghost predicate PartialSum(tail: seq<byte>, carry: nat, a: seq<byte>, d: seq<byte>) {
    FromBigEndian(tail) + Carried(carry, Pow256(|tail|)) == FromBigEndian(a) + FromBigEndian(d)
  }

  /** One round of the carry loop extends the partial sum by one byte. */
  lemma CarryStep(a: seq<byte>, d: seq<byte>, tail: seq<byte>, carry: nat, q: nat, r: byte)
    requires |a| == |d| == |tail| + 1 && a[0] as int + d[0] as int + carry == 256 * q + r as int
    requires carry <= 1 && q <= 1 && PartialSum(tail, carry, a[1..], d[1..])
    ensures PartialSum([r] + tail, q, a, d)
  {
    HighByte(a);
    HighByte(d);
    HighByte([r] + tail);
    assert ([r] + tail)[1..] == tail;
    CarryAlgebra(a[0], d[0], carry, q, r, Pow256(|tail|));
  }

  /** The bytes from `i` on are those of the sum, and the ones before are untouched. */
  ghost predicate SumDone(s: seq<byte>, a: seq<byte>, d: seq<byte>, i: nat, carry: nat) {
    i <= |s| == |a| == |d| && s[..i] == a[..i] && PartialSum(s[i..], carry, a[i..], d[i..])
  }

  lemma SumRound(s: seq<byte>, a: seq<byte>, d: seq<byte>, i: nat, carry: nat)
    requires i < |s| && carry <= 1 && SumDone(s, a, d, i + 1, carry)
    ensures var total := s[i] as int + d[i] as int + carry; var low: byte := total % 256;
      SumDone(s[i := low], a, d, i, total / 256)
  {
    var total := s[i] as int + d[i] as int + carry;
    var low: byte := total % 256;
    assert s[..i + 1][i] == a[..i + 1][i];
    assert a[i..][1..] == a[i + 1..] && d[i..][1..] == d[i + 1..];
    CarryStep(a[i..], d[i..], s[i + 1..], carry, total / 256, low);
    assert s[i := low][i..] == [low] + s[i + 1..];
    assert s[i := low][..i] == s[..i + 1][..i] && a[..i] == a[..i + 1][..i];
  }

  lemma SumFinished(s: seq<byte>, a: seq<byte>, d: seq<byte>, carry: nat)
    requires SumDone(s, a, d, 0, carry)
    ensures FromBigEndian(s) == Mod(FromBigEndian(a) + FromBigEndian(d), Pow256(|s|))
  {
    assert s[0..] == s && a[0..] == a && d[0..] == d;
    CarryOut(s, carry, a, d);
  }

  ghost predicate XorDone(y: seq<byte>, x: seq<byte>, d: seq<byte>, i: nat) {
    && i <= |y| == |x| == |d|
    && (forall k :: i <= k < |x| ==> y[k] == Xor(x[k], d[k]))
    && forall k :: 0 <= k < i ==> y[k] == x[k]
  }

  lemma XorRound(y: seq<byte>, x: seq<byte>, d: seq<byte>, i: nat)
    requires i < |y| && XorDone(y, x, d, i + 1)
    ensures XorDone(y[i := Xor(y[i], d[i])], x, d, i)
  {
  }

  lemma XorFinished(y: seq<byte>, x: seq<byte>, d: seq<byte>)
    requires XorDone(y, x, d, 0)
    ensures y == XorAll(x, d)
  {
  }

  lemma CarryOut(s: seq<byte>, carry: nat, a: seq<byte>, d: seq<byte>)
    requires |s| == |a| == |d| && PartialSum(s, carry, a, d)
    ensures FromBigEndian(s) == Mod(FromBigEndian(a) + FromBigEndian(d), Pow256(|s|))
  {
    FromBigEndianBound(s);
    var low, total, m := FromBigEndian(s), FromBigEndian(a) + FromBigEndian(d), Pow256(|s|);
    assert low + Carried(carry, m) == total;
    DropCarry(low, carry, total, m);
  }

  lemma DropCarry(low: nat, carry: nat, total: nat, m: Modulus)
    requires low < m && low + Carried(carry, m) == total
    ensures low == Mod(total, m)
  {
  }

  // ---- Order does not matter ----------------------------------------------------------------------

  /** The state after folding in the rows one by one. */
  function Fold<S, T>(step: (S, T) -> S, rows: seq<T>, state: S): S
    decreases |rows|
  {
    if rows == [] then state else Fold(step, rows[1..], step(state, rows[0]))
  }

  ghost predicate Commutes<S(!new), T(!new)>(step: (S, T) -> S) {
    forall s: S, u: T, v: T :: step(step(s, u), v) == step(step(s, v), u)
  }

  /** A row may be taken out of the middle and folded in first. */
  lemma {:induction false} FoldMovesFront<S(!new), T(!new)>(step: (S, T) -> S, rows: seq<T>, i: nat, state: S)
    requires Commutes(step) && i < |rows|
    ensures Fold(step, rows, state) == Fold(step, rows[..i] + rows[i + 1..], step(state, rows[i]))
    decreases i
  {
    var others := rows[..i] + rows[i + 1..];
    if i == 0 {
      assert others == rows[1..];
    } else {
      var rest := rows[1..];
      FoldMovesFront(step, rest, i - 1, step(state, rows[0]));
      assert others[0] == rows[0] && others[1..] == rest[..i - 1] + rest[i..];
    }
  }

  lemma RemoveAt<T>(s: seq<T>, i: nat)
    requires i < |s|
    ensures multiset(s[..i] + s[i + 1..]) == multiset(s) - multiset{s[i]}
  {
    assert s == s[..i] + ([s[i]] + s[i + 1..]);
    assert multiset(s) == multiset(s[..i]) + (multiset{s[i]} + multiset(s[i + 1..]));
  }

  lemma RemoveFirst<T>(s: seq<T>)
    requires s != []
    ensures s[0] in multiset(s) && multiset(s[1..]) == multiset(s) - multiset{s[0]}
  {
    assert s == [s[0]] + s[1..];
  }

  /** The first element of one of two permutations, found in the other. */
  lemma FindFirst<T>(a: seq<T>, b: seq<T>) returns (i: nat)
    requires a != [] && multiset(a) == multiset(b)
    ensures i < |b| && b[i] == a[0] && multiset(a[1..]) == multiset(b[..i] + b[i + 1..])
  {
    RemoveFirst(a);
    i :| 0 <= i < |b| && b[i] == a[0];
    RemoveAt(b, i);
  }

  /** What is folded depends on the multiset of rows only. */
  lemma {:induction false} FoldIsOrderFree<S(!new), T(!new)>(step: (S, T) -> S, a: seq<T>, b: seq<T>, state: S)
    requires Commutes(step) && multiset(a) == multiset(b)
    ensures Fold(step, a, state) == Fold(step, b, state)
    decreases |a|
  {
    if a == [] {
      assert |multiset(b)| == 0;
    } else {
      var i := FindFirst(a, b);
      FoldMovesFront(step, b, i, state);
      FoldIsOrderFree(step, a[1..], b[..i] + b[i + 1..], step(state, a[0]));
    }
  }

  function Add(hash: Hash, m: Modulus, acc: Accumulator, v: Value): Accumulator {
    Update(m, acc, v.None?, hash(v))
  }

  lemma AddsCommute(hash: Hash, m: Modulus, acc: Accumulator, u: Value, v: Value)
    ensures Add(hash, m, Add(hash, m, acc, u), v) == Add(hash, m, Add(hash, m, acc, v), u)
  {
    AddModuloCommutes(acc.sum, FromBigEndian(hash(u)), FromBigEndian(hash(v)), m);
    XorAllCommutes(acc.xor, hash(u), hash(v));
  }

  /** What one accumulator of a table scan reads from each row. */
  type Reading = seq<Value> -> Value

  function WholeRow(): Reading {
    row => Some(CanonicalRow(row))
  }

  function OneColumn(i: nat): Reading {
    row => if i < |row| then row[i] else None
  }

  /** The accumulator after the rows of a scan. */
  function Accumulate(hash: Hash, m: Modulus, reading: Reading, rows: seq<seq<Value>>, acc: Accumulator): Accumulator
    decreases |rows|
  {
    if rows == [] then acc else Accumulate(hash, m, reading, rows[1..], Add(hash, m, acc, reading(rows[0])))
  }

  type Step = (Accumulator, seq<Value>) -> Accumulator

  lemma {:induction false} AccumulateIsFold(
      hash: Hash, m: Modulus, reading: Reading, step: Step, rows: seq<seq<Value>>, acc: Accumulator)
    requires forall s: Accumulator, row: seq<Value> :: step(s, row) == Add(hash, m, s, reading(row))
    ensures Accumulate(hash, m, reading, rows, acc) == Fold(step, rows, acc)
    decreases |rows|
  {
    if rows != [] { AccumulateIsFold(hash, m, reading, step, rows[1..], step(acc, rows[0])); }
  }

  /** Every permutation of the rows gives the same count, null count, sum and exclusive-or. */
  lemma ChecksumIsOrderFree(
      hash: Hash, m: Modulus, reading: Reading, a: seq<seq<Value>>, b: seq<seq<Value>>, acc: Accumulator)
    requires multiset(a) == multiset(b)
    ensures Accumulate(hash, m, reading, a, acc) == Accumulate(hash, m, reading, b, acc)
  {
    var step := (s: Accumulator, row: seq<Value>) => Add(hash, m, s, reading(row));
    forall s: Accumulator, u: seq<Value>, v: seq<Value> ensures step(step(s, u), v) == step(step(s, v), u) {
      AddsCommute(hash, m, s, reading(u), reading(v));
    }
    AccumulateIsFold(hash, m, reading, step, a, acc);
    AccumulateIsFold(hash, m, reading, step, b, acc);
    FoldIsOrderFree(step, a, b, acc);
  }

  // ---- Closed form --------------------------------------------------------------------------------

  function RowDigest(hash: Hash, reading: Reading, row: seq<Value>): nat {
    FromBigEndian(hash(reading(row)))
  }

  /** The digests of what is read from the rows, added up as numbers. */
  function DigestTotal(hash: Hash, reading: Reading, rows: seq<seq<Value>>): nat {
    if rows == [] then 0 else RowDigest(hash, reading, rows[0]) + DigestTotal(hash, reading, rows[1..])
  }

  function NullTotal(reading: Reading, rows: seq<seq<Value>>): nat {
    if rows == [] then 0 else (if reading(rows[0]).None? then 1 else 0) + NullTotal(reading, rows[1..])
  }

  /** The scan goes on from the accumulator after the first row. */
  lemma FirstRow(hash: Hash, m: Modulus, reading: Reading, rows: seq<seq<Value>>, acc: Accumulator)
    returns (next: Accumulator)
    requires rows != []
    ensures Accumulate(hash, m, reading, rows, acc) == Accumulate(hash, m, reading, rows[1..], next)
    ensures next.count == Saturate(acc.count + 1)
    ensures next.nulls == if reading(rows[0]).None? then Saturate(acc.nulls + 1) else acc.nulls
    ensures next.sum == Mod(acc.sum + RowDigest(hash, reading, rows[0]), m)
    ensures next.xor == XorAll(acc.xor, hash(reading(rows[0])))
  {
    next := Add(hash, m, acc, reading(rows[0]));
  }

  lemma {:induction false} CountClosedForm(hash: Hash, m: Modulus, reading: Reading, rows: seq<seq<Value>>,
      acc: Accumulator)
    requires acc.count <= MAX_U64 && acc.nulls <= MAX_U64
    ensures Accumulate(hash, m, reading, rows, acc).count == Saturate(acc.count + |rows|)
    ensures Accumulate(hash, m, reading, rows, acc).nulls == Saturate(acc.nulls + NullTotal(reading, rows))
    decreases |rows|
  {
    if rows != [] {
      var next := FirstRow(hash, m, reading, rows, acc);
      CountClosedForm(hash, m, reading, rows[1..], next);
    }
  }

  lemma SumJoins(sum: nat, next: nat, first: nat, rest: nat, total: nat, m: Modulus, result: nat)
    requires next == Mod(sum + first, m) && total == first + rest && result == Mod(next + rest, m)
    ensures result == Mod(sum + total, m)
  {
    ModShift(sum + first, rest, m);
  }

  lemma {:induction false} SumClosedForm(hash: Hash, m: Modulus, reading: Reading, rows: seq<seq<Value>>,
      acc: Accumulator)
    requires acc.sum < m
    ensures Accumulate(hash, m, reading, rows, acc).sum == Mod(acc.sum + DigestTotal(hash, reading, rows), m)
    decreases |rows|
  {
    if rows != [] {
      var next := FirstRow(hash, m, reading, rows, acc);
      SumClosedForm(hash, m, reading, rows[1..], next);
      var first, rest := RowDigest(hash, reading, rows[0]), DigestTotal(hash, reading, rows[1..]);
      var total := DigestTotal(hash, reading, rows);
      assert total == first + rest;
      SumJoins(acc.sum, next.sum, first, rest, total, m, Accumulate(hash, m, reading, rows[1..], next).sum);
    }
  }

  /** In how many of the row digests bit `i` of byte `j` is set. */
  function BitTotal(hash: Hash, reading: Reading, rows: seq<seq<Value>>, j: nat, i: nat): nat {
    if rows == [] then 0 else Bit(ByteAt(hash(reading(rows[0])), j), i) + BitTotal(hash, reading, rows[1..], j, i)
  }

  lemma ParityAdds(a: nat, b: nat, t: nat)
    ensures ((a + b) % 2 + t) % 2 == (a + (b + t)) % 2
  {
  }

  lemma {:induction false} XorClosedForm(
      hash: Hash, m: Modulus, reading: Reading, rows: seq<seq<Value>>, acc: Accumulator, j: nat, i: nat)
    requires j < |acc.xor| && i < 8
    ensures var r := Accumulate(hash, m, reading, rows, acc);
      |r.xor| == |acc.xor| && Bit(r.xor[j], i) % 2 == (Bit(acc.xor[j], i) + BitTotal(hash, reading, rows, j, i)) % 2
    decreases |rows|
  {
    if rows != [] {
      var next := FirstRow(hash, m, reading, rows, acc);
      XorClosedForm(hash, m, reading, rows[1..], next, j, i);
      var digit := Bit(ByteAt(hash(reading(rows[0])), j), i);
      XorBit(acc.xor[j], ByteAt(hash(reading(rows[0])), j), 8, i);
      ParityAdds(Bit(acc.xor[j], i), digit, BitTotal(hash, reading, rows[1..], j, i));
    }
  }

  lemma {:induction false} BitBound(n: nat, i: nat)
    ensures Bit(n, i) < 2 && (n == 0 ==> Bit(n, i) == 0)
    decreases i
  {
    if i > 0 { BitBound(n / 2, i - 1); }
  }

  /** Every bit of the exclusive-or is the parity of that bit over the row digests. */
  lemma XorIsParity(hash: Hash, m: Modulus, reading: Reading, rows: seq<seq<Value>>, j: nat, i: nat)
    requires j < WIDTH && i < 8
    ensures var r := Accumulate(hash, m, reading, rows, EMPTY);
      |r.xor| == WIDTH && Bit(r.xor[j], i) == BitTotal(hash, reading, rows, j, i) % 2
  {
    var empty := EMPTY;
    assert empty.xor[j] == 0 && |empty.xor| == WIDTH;
    BitBound(0, i);
    XorClosedForm(hash, m, reading, rows, empty, j, i);
    BitBound(Accumulate(hash, m, reading, rows, empty).xor[j], i);
  }

  /**
   The accumulator in closed form: the number of rows and of NULLs, saturating at 64 bits, the sum of the row
   digests as numbers modulo 2^256, and bit by bit the parity of the row digests.
   */
  lemma ChecksumClosedForm(hash: Hash, m: Modulus, reading: Reading, rows: seq<seq<Value>>)
    ensures var r := Accumulate(hash, m, reading, rows, EMPTY);
      && r.count == Saturate(|rows|)
      && r.nulls == Saturate(NullTotal(reading, rows))
      && r.sum == Mod(DigestTotal(hash, reading, rows), m)
      && |r.xor| == WIDTH
      && forall j, i :: 0 <= j < WIDTH && 0 <= i < 8 ==> Bit(r.xor[j], i) == BitTotal(hash, reading, rows, j, i) % 2
  {
    var empty := EMPTY;
    assert empty.count == 0 && empty.nulls == 0 && empty.sum == 0;
    CountClosedForm(hash, m, reading, rows, empty);
    SumClosedForm(hash, m, reading, rows, empty);
    XorIsParity(hash, m, reading, rows, 0, 0);
    forall j, i | 0 <= j < WIDTH && 0 <= i < 8
      ensures Bit(Accumulate(hash, m, reading, rows, empty).xor[j], i) == BitTotal(hash, reading, rows, j, i) % 2
    {
      XorIsParity(hash, m, reading, rows, j, i);
    }
  }

  // ---- Whole tables -------------------------------------------------------------------------------

  datatype TableChecksums = TableChecksums(table: Accumulator, columns: seq<Accumulator>)

  /** The loop over the columns of one row. */
  method ChecksumRow(hash: Hash, m: Modulus, row: seq<Value>, before: seq<Accumulator>)
    returns (canonical: seq<byte>, columns: seq<Accumulator>)
    requires |row| == |before|
    ensures canonical == CanonicalRow(row) && |columns| == |before|
    ensures forall k :: 0 <= k < |before| ==> columns[k] == Add(hash, m, before[k], row[k])
  {
    canonical, columns := [], before;
    assert row[0..] == row;
    for i := 0 to |row|
      invariant |columns| == |before| && EncodedUpTo(row, i, canonical)
      invariant forall k :: 0 <= k < i ==> columns[k] == Add(hash, m, before[k], row[k])
      invariant forall k :: i <= k < |row| ==> columns[k] == before[k]
    {
      EncodeNext(row, i, canonical);
      columns := columns[i := Add(hash, m, columns[i], row[i])];
      canonical := canonical + Canonical(row[i]);
    }
    EncodedAll(row, canonical);
  }

  /** What is encoded so far, followed by the rest, is the row's encoding. */
  ghost predicate EncodedUpTo(row: seq<Value>, i: nat, canonical: seq<byte>) {
    i <= |row| && canonical + CanonicalRow(row[i..]) == CanonicalRow(row)
  }

  lemma EncodeNext(row: seq<Value>, i: nat, canonical: seq<byte>)
    requires i < |row| && EncodedUpTo(row, i, canonical)
    ensures EncodedUpTo(row, i + 1, canonical + Canonical(row[i]))
  {
    assert row[i..][0] == row[i] && row[i..][1..] == row[i + 1..];
    Regroup(canonical, Canonical(row[i]), CanonicalRow(row[i + 1..]));
  }

  lemma EncodedAll(row: seq<Value>, canonical: seq<byte>)
    requires EncodedUpTo(row, |row|, canonical)
    ensures canonical == CanonicalRow(row)
  {
  }

  lemma ScanStep(hash: Hash, m: Modulus, reading: Reading, rows: seq<seq<Value>>, n: nat, acc: Accumulator)
    requires n < |rows|
    ensures Accumulate(hash, m, reading, rows[n + 1..], Add(hash, m, acc, reading(rows[n])))
         == Accumulate(hash, m, reading, rows[n..], acc)
  {
    assert rows[n..][0] == rows[n] && rows[n..][1..] == rows[n + 1..];
  }

  /** checksum_table: one accumulator over whole rows and one per column. */
  method ChecksumTable(hash: Hash, m: Modulus, rows: seq<seq<Value>>, width: nat) returns (r: TableChecksums)
    requires forall i :: 0 <= i < |rows| ==> |rows[i]| == width
    ensures r.table == Accumulate(hash, m, WholeRow(), rows, EMPTY)
    ensures |r.columns| == width
    ensures forall i :: 0 <= i < width ==> r.columns[i] == Accumulate(hash, m, OneColumn(i), rows, EMPTY)
  {
    var table, columns := EMPTY, seq(width, i => EMPTY);
    assert rows[0..] == rows;
    for n := 0 to |rows|
      invariant |columns| == width
      invariant Accumulate(hash, m, WholeRow(), rows[n..], table) == Accumulate(hash, m, WholeRow(), rows, EMPTY)
      invariant forall i :: 0 <= i < width ==>
        Accumulate(hash, m, OneColumn(i), rows[n..], columns[i]) == Accumulate(hash, m, OneColumn(i), rows, EMPTY)
    {
      ghost var before := columns;
      var canonical;
      canonical, columns := ChecksumRow(hash, m, rows[n], columns);
      ScanStep(hash, m, WholeRow(), rows, n, table);
      forall i | 0 <= i < width
        ensures Accumulate(hash, m, OneColumn(i), rows[n + 1..], columns[i])
          == Accumulate(hash, m, OneColumn(i), rows, EMPTY)
      {
        ScanStep(hash, m, OneColumn(i), rows, n, before[i]);
      }
      table := Add(hash, m, table, Some(canonical));
    }
    r := TableChecksums(table, columns);
  }

  // ---- The final digest ---------------------------------------------------------------------------

  /** What finish() digests after its fixed label, with the sum in `n` bytes. */
  function FinishInput(acc: Accumulator, n: nat): seq<byte> {
    BigEndian(acc.count, 8) + BigEndian(acc.nulls, 8) + BigEndian(acc.sum, n) + acc.xor
  }

  ghost predicate InRange(acc: Accumulator, n: nat) {
    acc.count <= MAX_U64 && acc.nulls <= MAX_U64 && acc.sum < Pow256(n) && |acc.xor| == n
  }

  /** The final digest is taken of all four parts: different accumulators are different inputs to it. */
  lemma FinishIsInjective(a: Accumulator, b: Accumulator, n: nat)
    requires FinishInput(a, n) == FinishInput(b, n) && InRange(a, n) && InRange(b, n)
    ensures a == b
  {
    FinishSlices(a, n);
    FinishSlices(b, n);
    WordSizes();
    BigEndianIsInjective(a.count, b.count, 8);
    BigEndianIsInjective(a.nulls, b.nulls, 8);
    BigEndianIsInjective(a.sum, b.sum, n);
  }

  lemma FinishSlices(a: Accumulator, n: nat)
    ensures var s := FinishInput(a, n);
      && |s| >= 16 + n && s[..8] == BigEndian(a.count, 8) && s[8..16] == BigEndian(a.nulls, 8)
      && s[16..16 + n] == BigEndian(a.sum, n) && s[16 + n..] == a.xor
  {
    FourSlices(BigEndian(a.count, 8), BigEndian(a.nulls, 8), BigEndian(a.sum, n), a.xor);
  }

  lemma FourSlices(a: seq<byte>, b: seq<byte>, c: seq<byte>, d: seq<byte>)
    requires |a| == 8 && |b| == 8
    ensures var s := a + b + c + d;
      s[..8] == a && s[8..16] == b && s[16..16 + |c|] == c && s[16 + |c|..] == d
  {
  }
}
