/** The rolling checksum of the block store (`calculate_checksum` in
    `rw_partition.c`): start from 0x12345678 and, for every byte in order, rotate
    the 32-bit accumulator left by 5 and XOR the byte in. An empty input has
    checksum 0. */
module RwChecksum {

  const Seed: bv32 := 0x12345678

  /** `(c << 5) | (c >> 27)` on a `uint32_t`. */
  function Rotl5(c: bv32): bv32 {
    (c << 5) | (c >> 27)
  }

  /** The shift-and-or step is exactly a 32-bit rotation, so it loses no bits. */
  lemma Rotl5IsRotation(c: bv32)
    ensures Rotl5(c) == c.RotateLeft(5)
    ensures Rotl5(c).RotateRight(5) == c
  {
  }

  /** One step of the loop: fold byte `b` into accumulator `acc`. */
  function Step(acc: bv32, b: bv8): bv32 {
    Rotl5(acc) ^ (b as bv32)
  }

  /** The left fold of `Step` over `s`, from accumulator `acc`. */
  function Fold(acc: bv32, s: seq<bv8>): bv32
    decreases |s|
  {
    if s == [] then acc else Fold(Step(acc, s[0]), s[1..])
  }

  /** The checksum of a byte string. Read from the back it is the loop's
      invariant: the last byte is XORed into the rotated fold of the bytes
      before it, and the fold of no bytes is the seed. */
  function Checksum(s: seq<bv8>): (r: bv32)
    ensures |s| == 0 ==> r == 0
    ensures |s| > 0 ==> r == Step(Fold(Seed, s[..|s| - 1]), s[|s| - 1])
  {
    if |s| == 0 then 0
    else
      var init := s[..|s| - 1];
      assert s == init + [s[|s| - 1]];
      FoldSnoc(Seed, init, s[|s| - 1]);
      Fold(Seed, s)
  }

  /** Folding one more byte onto the end is one more step on the result. */
  lemma {:induction false} FoldSnoc(acc: bv32, s: seq<bv8>, b: bv8)
    ensures Fold(acc, s + [b]) == Step(Fold(acc, s), b)
    decreases |s|
  {
    if s != [] {
      assert (s + [b])[1..] == s[1..] + [b];
      FoldSnoc(Step(acc, s[0]), s[1..], b);
    }
  }

  /** Fold of a concatenation: checksum the front, then carry on over the back. */
  lemma {:induction false} FoldAppend(acc: bv32, s: seq<bv8>, t: seq<bv8>)
    ensures Fold(acc, s + t) == Fold(Fold(acc, s), t)
    decreases |s|
  {
    if s != [] {
      assert (s + t)[1..] == s[1..] + t;
      FoldAppend(Step(acc, s[0]), s[1..], t);
    } else {
      assert s + t == t;
    }
  }

  /** `calculate_checksum(a + at, n)`: the loop over the bytes, proved to compute `Checksum`. */
  method CalculateChecksum(a: array<bv8>, at: nat, n: nat) returns (c: bv32)
    requires at + n <= a.Length
    ensures c == Checksum(a[at..at + n])
  {
    if n == 0 {
      return 0;
    }
    c := Seed;
    var i := 0;
    while i < n
      invariant i <= n
      invariant c == Fold(Seed, a[at..at + i])
    {
      assert a[at..at + i + 1] == a[at..at + i] + [a[at + i]];
      FoldSnoc(Seed, a[at..at + i], a[at + i]);
      c := Rotl5(c) ^ (a[at + i] as bv32);
      i := i + 1;
    }
  }

  /** Reference vectors: three zero bytes rotate the seed by 15 bits; "hello". */
  lemma ChecksumVectors()
    ensures Checksum([]) == 0
    ensures Checksum([0, 0, 0]) == Seed.RotateLeft(15)
    ensures Checksum([0, 0, 0]) == 0x2B3C091A
    ensures Checksum([0x12, 0x34]) == 0xD159E23C
    ensures Checksum([0x68, 0x65, 0x6C, 0x6C, 0x6F]) == 0xF6975543
  {
  }
}
