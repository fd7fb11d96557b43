/**
 The Internet checksum (section 1 of RFC 1071): the complement of the one's-complement
 sum of 16-bit words, computed in 32 bits.
 */
module Checksum {
  import opened Bytes

  const WORD: int := 0x1_0000_0000
  const MAX_CHECKED: nat := 131072

  /** The sum of the big-endian 16-bit words; a last odd byte counts as a high byte. */
  function WordSum(data: seq<byte>): (r: nat) {
    if |data| == 0 then 0
    else if |data| == 1 then data[0] as int * 256
    else FromU16(data[..2]) + WordSum(data[2..])
  }

  /** One's-complement value of a sum: zero only for zero, otherwise in 1..65535. */
  function Fold(sum: nat): (r: uint16) {
    if sum == 0 then 0 else (sum - 1) % 65535 + 1
  }

  function ChecksumOf(data: seq<byte>): (r: uint16) {
    65535 - Fold(WordSum(data) % WORD)
  }

  lemma FoldStep(sum: nat)
    ensures Fold(sum) == Fold(sum % 0x1_0000 + sum / 0x1_0000)
  {
    var hi, lo := sum / 0x1_0000, sum % 0x1_0000;
    if sum > 0 {
      assert sum - 1 == hi + lo - 1 + 65535 * hi;
      Periodic(hi + lo - 1, hi);
    }
  }

  lemma Periodic(x: nat, k: nat)
    ensures (x + 65535 * k) % 65535 == x % 65535
  {
  }

  lemma SumStep(whole: nat, word: nat, rest: nat)
    requires rest <= whole && word <= rest
    ensures ((whole - rest) % WORD + word) % WORD == (whole - (rest - word)) % WORD
  {
  }

  /** Computes the checksum in 32-bit arithmetic that may wrap around. */
  method InternetChecksum(input: seq<byte>) returns (r: uint16)
    ensures r == ChecksumOf(input)
  {
    hide FromU16;
    var data := input;
    var sum: uint32 := 0;
    while |data| > 1
      invariant WordSum(data) <= WordSum(input)
      invariant sum == (WordSum(input) - WordSum(data)) % WORD
      decreases |data|
    {
      SumStep(WordSum(input), FromU16(data[..2]), WordSum(data));
      sum := (sum + FromU16(data[..2])) % WORD;
      data := data[2..];
    }
    if |data| == 1 {
      SumStep(WordSum(input), data[0] as int * 256, WordSum(data));
      sum := (sum + data[0] as int * 256) % WORD;
    }
    while sum / 0x1_0000 != 0
      invariant Fold(sum) == Fold(WordSum(input) % WORD)
      decreases sum
    {
      FoldStep(sum);
      sum := sum % 0x1_0000 + sum / 0x1_0000;
    }
    return 65535 - sum;
  }

  lemma {:induction false} SumBound(data: seq<byte>)
    ensures WordSum(data) <= 65535 * ((|data| + 1) / 2)
  {
    if |data| > 1 {
      SumBound(data[2..]);
    }
  }

  /** Up to 131072 bytes the 32-bit sum does not wrap around. */
  lemma NoOverflow(data: seq<byte>)
    requires |data| <= MAX_CHECKED
    ensures WordSum(data) < WORD
  {
    SumBound(data);
  }

  /** Data of odd length is summed as if a zero byte followed. */
  lemma {:induction false} OddIsPadded(data: seq<byte>)
    requires |data| % 2 == 1
    ensures WordSum(data + [0]) == WordSum(data) && ChecksumOf(data + [0]) == ChecksumOf(data)
  {
    var padded := data + [0];
    if |data| == 1 {
      assert padded[2..] == [];
    } else {
      assert padded[..2] == data[..2] && padded[2..] == data[2..] + [0];
      OddIsPadded(data[2..]);
    }
  }

  /** Overwrites two bytes with a 16-bit number. */
  function Stored(data: seq<byte>, at: nat, v: uint16): (r: seq<byte>)
    requires at + 2 <= |data|
    ensures |r| == |data|
  {
    data[..at] + U16(v) + data[at + 2..]
  }

  lemma {:induction false} SumStored(data: seq<byte>, at: nat, v: uint16)
    requires at + 2 <= |data| && at % 2 == 0 && data[at] == 0 && data[at + 1] == 0
    ensures WordSum(Stored(data, at, v)) == WordSum(data) + v
  {
    var r := Stored(data, at, v);
    if at == 0 {
      assert r[..2] == U16(v) && r[2..] == data[2..];
      U16RoundTrip(v);
    } else {
      assert r[..2] == data[..2];
      assert r[2..] == Stored(data[2..], at - 2, v);
      SumStored(data[2..], at - 2, v);
    }
  }

  lemma FoldComplement(sum: nat)
    ensures Fold(sum + (65535 - Fold(sum))) == 65535
  {
    if sum > 0 {
      var q := (sum - 1) / 65535;
      assert sum - 1 == 65535 * q + (sum - 1) % 65535;
      assert sum + (65535 - Fold(sum)) - 1 == 65534 + 65535 * q;
      Periodic(65534, q);
    }
  }

  /** Storing the checksum in its zeroed, even-aligned field makes the data verify: the
      checksum of the result is zero. */
  lemma StoredVerifies(data: seq<byte>, at: nat)
    requires |data| <= MAX_CHECKED
    requires at + 2 <= |data| && at % 2 == 0 && data[at] == 0 && data[at + 1] == 0
    ensures ChecksumOf(Stored(data, at, ChecksumOf(data))) == 0
  {
    hide Fold;
    NoOverflow(data);
    var r := Stored(data, at, ChecksumOf(data));
    SumStored(data, at, ChecksumOf(data));
    NoOverflow(r);
    FoldComplement(WordSum(data));
  }

  /** Data verifies if and only if its words sum to a positive multiple of 65535. */
  lemma VerifiesIff(data: seq<byte>)
    requires |data| <= MAX_CHECKED
    ensures ChecksumOf(data) == 0 <==> WordSum(data) > 0 && WordSum(data) % 65535 == 0
  {
    hide WordSum;
    NoOverflow(data);
  }

  lemma CloseMultiples(x: nat, d: int)
    requires x % 65535 == 0 && -65535 <= d <= 65535
    ensures (x + d) % 65535 == 0 <==> d == 0 || d == 65535 || d == -65535
  {
  }

  /** A change of one aligned word of data that verifies goes unnoticed if and only if it
      exchanges the two zeros of one's-complement arithmetic. */
  lemma ChangeNoticed(data: seq<byte>, at: nat, u: uint16, v: uint16)
    requires |data| <= MAX_CHECKED && at + 2 <= |data| && at % 2 == 0 && data[at] == 0 && data[at + 1] == 0
    requires ChecksumOf(Stored(data, at, u)) == 0
    ensures ChecksumOf(Stored(data, at, v)) == 0 <==>
            u == v || (u == 0 && v == 65535) || (WordSum(data) > 0 && u == 65535 && v == 0)
  {
    hide ChecksumOf, WordSum, Stored;
    SumStored(data, at, u);
    SumStored(data, at, v);
    VerifiesIff(Stored(data, at, u));
    VerifiesIff(Stored(data, at, v));
    CloseMultiples(WordSum(data) + u, v - u);
  }
}
