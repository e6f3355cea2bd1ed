/** The Internet checksum (RFC 1071): sums of 16-bit words in 32-bit arithmetic, folded to 16 bits. */
module Checksums {
  import opened Common
  import opened BigEndian

  const WRAP := 0x1_0000_0000
  const ONES := 0xffff

  /** The 16-bit words from position `from` on, an odd last byte counting as a high byte. */
  function WordSum(data: Bytes, from: nat): nat
    requires from <= |data|
    decreases |data| - from
  {
    if from == |data| then 0
    else if from + 1 == |data| then data[from] * 256
    else data[from] * 256 + data[from + 1] + WordSum(data, from + 2)
  }

  function Sum(data: Bytes): nat {
    WordSum(data, 0)
  }

  lemma {:induction false} WordSumBound(data: Bytes, from: nat)
    requires from <= |data|
    ensures WordSum(data, from) <= ONES * ((|data| - from + 1) / 2)
    decreases |data| - from
  {
    if from + 1 < |data| {
      WordSumBound(data, from + 2);
    }
  }

  lemma {:induction false} WordSumShift(a: Bytes, b: Bytes, from: nat)
    requires from <= |b| && |a| % 2 == 0
    ensures WordSum(a + b, |a| + from) == WordSum(b, from)
    decreases |b| - from
  {
    if from + 1 < |b| {
      WordSumShift(a, b, from + 2);
    }
  }

  lemma {:induction false} WordSumSplit(a: Bytes, b: Bytes, from: nat)
    requires from <= |a| && |a| % 2 == 0 && from % 2 == 0
    ensures WordSum(a + b, from) == WordSum(a, from) + Sum(b)
    decreases |a| - from
  {
    if from == |a| {
      WordSumShift(a, b, 0);
    } else {
      WordSumSplit(a, b, from + 2);
    }
  }

  /** Sums add up over any split at an even position. */
  lemma SumAppend(a: Bytes, b: Bytes)
    requires |a| % 2 == 0
    ensures Sum(a + b) == Sum(a) + Sum(b)
  {
    WordSumSplit(a, b, 0);
  }

  /** A word is its high byte times 256 and its low byte; an odd last byte is the high one of a word that a
      zero completes. */
  lemma WordsAreBigEndian(data: Bytes, hi: Byte, lo: Byte)
    ensures Sum([hi, lo]) == hi * 256 + lo
    ensures |data| % 2 == 1 ==> Sum(data + [0]) == Sum(data)
  {
    assert WordSum([hi, lo], 2) == 0;
    if |data| % 2 == 1 {
      var n := |data| - 1;
      SumAppend(data[..n], data[n..]);
      SumAppend(data[..n], data[n..] + [0]);
      assert data[..n] + data[n..] == data && data[..n] + (data[n..] + [0]) == data + [0];
      assert WordSum(data[n..] + [0], 2) == 0;
    }
  }

  /** Bytes as one big-endian number, a zero completing the last word. */
  ghost function Number(data: Bytes): nat {
    Get(if |data| % 2 == 0 then data else data + [0])
  }

  /** A multiple of 65535 other than zero: what RFC 1071 asks of data with its checksum in it. */
  ghost predicate Balanced(data: Bytes) {
    0 < Number(data) && Number(data) % ONES == 0
  }

  /** The word sum differs from the number by a multiple of 65535. */
  lemma {:induction false} EvenNumber(data: Bytes) returns (q: nat)
    requires |data| % 2 == 0
    ensures Get(data) == q * ONES + Sum(data)
    ensures Sum(data) == 0 ==> Get(data) == 0
  {
    q := 0;
    if data != [] {
      var n := |data| - 2;
      var front, hi, lo := data[..n], data[n], data[n + 1];
      var q' := EvenNumber(front);
      assert data == front + [hi, lo];
      SumAppend(front, [hi, lo]);
      WordsAreBigEndian([], hi, lo);
      GetConcat(front, [hi, lo]);
      GetTwo(hi, lo);
      assert Pow256(2) == 65536;
      q := q' * 65536 + Sum(front);
    }
  }

  lemma NumberIsSum(data: Bytes) returns (q: nat)
    ensures Number(data) == q * ONES + Sum(data)
    ensures Sum(data) == 0 ==> Number(data) == 0
  {
    WordsAreBigEndian(data, 0, 0);
    q := EvenNumber(if |data| % 2 == 0 then data else data + [0]);
  }

  /** What verifies is balanced, and nothing else. */
  lemma VerifiesMeansBalanced(data: Bytes)
    ensures Verifies(Sum(data)) <==> Balanced(data)
  {
    var q := NumberIsSum(data);
    var q' := FoldIsRemainder(Sum(data));
    var fold := Fold(Sum(data));
    ResidueShift(fold, q + q');
    assert Number(data) == fold + (q + q') * ONES;
    assert fold % ONES == 0 <==> fold == 0 || fold == ONES;
    if Sum(data) > 0 {
      assert Number(data) > 0;
    }
  }

  /** The complement of the folded sum is what the number lacks of a multiple of 65535. */
  lemma ComplementCompletes(data: Bytes)
    ensures (Number(data) + (ONES - Fold(Sum(data)))) % ONES == 0
    ensures Fold(Sum(data)) == 0 <==> Number(data) == 0
  {
    var q := NumberIsSum(data);
    var q' := FoldIsRemainder(Sum(data));
    ResidueShift(0, q + q' + 1);
    assert Number(data) + (ONES - Fold(Sum(data))) == 0 + (q + q' + 1) * ONES;
  }

  function U16(n: nat): (b: Bytes)
    requires n <= ONES
    ensures |b| == 2
  {
    [n / 256, n % 256]
  }

  lemma U16IsItsSum(n: nat)
    requires n <= ONES
    ensures Sum(U16(n)) == n
  {
    assert WordSum(U16(n), 2) == 0;
  }

  function FromU16(hi: Byte, lo: Byte): nat {
    hi * 256 + lo
  }

  /** The loop over the words, in 32-bit arithmetic. */
  method AddWords(start: nat, data: Bytes) returns (sum: nat)
    requires start < WRAP
    ensures sum == (start + Sum(data)) % WRAP
  {
    sum := start;
    var at := 0;
    while |data| - at >= 2
      invariant at <= |data| && at % 2 == 0 && sum < WRAP
      invariant (sum + WordSum(data, at)) % WRAP == (start + Sum(data)) % WRAP
    {
      var word := FromU16(data[at], data[at + 1]);
      AddMod(sum, word, WordSum(data, at + 2));
      sum := (sum + word) % WRAP;
      at := at + 2;
    }
    if |data| - at == 1 {
      var high: nat := data[at];
      AddMod(sum, high * 256, 0);
      sum := (sum + high * 256) % WRAP;
    }
  }

  lemma AddMod(sum: nat, word: nat, rest: nat)
    ensures ((sum + word) % WRAP + rest) % WRAP == (sum + (word + rest)) % WRAP
  {
    var q := (sum + word) / WRAP;
    assert sum + word == q * WRAP + (sum + word) % WRAP;
    ModShift((sum + word) % WRAP + rest, q);
  }

  lemma {:induction false} ModShift(n: nat, q: nat)
    ensures (n + q * WRAP) % WRAP == n % WRAP
  {
    if q > 0 {
      ModShift(n, q - 1);
      assert n + q * WRAP == (n + (q - 1) * WRAP) + WRAP;
    }
  }

  // ----- folding -----

  /** End-around carry until the sum fits in 16 bits. */
  function Fold(sum: nat): (f: nat)
    ensures f <= ONES
    decreases sum
  {
    if sum <= ONES then sum else Fold(sum % 65536 + sum / 65536)
  }

  /** Folding takes away a multiple of 65535. */
  lemma {:induction false} FoldIsRemainder(sum: nat) returns (q: nat)
    ensures sum == q * ONES + Fold(sum)
    ensures Fold(sum) == 0 <==> sum == 0
    decreases sum
  {
    q := 0;
    if sum > ONES {
      var high, low := sum / 65536, sum % 65536;
      q := FoldIsRemainder(low + high);
      q := q + high;
    }
  }

  lemma {:induction false} ResidueShift(n: nat, q: nat)
    ensures (n + q * ONES) % ONES == n % ONES
  {
    if q > 0 {
      ResidueShift(n, q - 1);
      assert n + q * ONES == (n + (q - 1) * ONES) + ONES;
    }
  }

  /** Folding keeps the value modulo 65535, and only zero folds to zero. */
  lemma FoldKeepsResidue(sum: nat)
    ensures Fold(sum) % ONES == sum % ONES
    ensures Fold(sum) == 0 <==> sum == 0
  {
    var q := FoldIsRemainder(sum);
    ResidueShift(Fold(sum), q);
  }

  method Finish(sum: nat) returns (checksum: nat)
    requires sum < WRAP
    ensures checksum == ONES - Fold(sum) && checksum <= ONES
  {
    var folded: nat := sum;
    while folded > ONES
      invariant Fold(folded) == Fold(sum)
      decreases folded
    {
      folded := folded % 65536 + folded / 65536;
    }
    checksum := ONES - folded;
  }

  /** What a receiver checks: everything, checksum included, folds to all ones. */
  predicate Verifies(total: nat) {
    Fold(total) == ONES
  }

  lemma MultipleVerifies(total: nat, q: nat)
    requires q > 0 && total == q * ONES
    ensures Verifies(total)
  {
    var q' := FoldIsRemainder(total);
    assert (q - q') * ONES == Fold(total);
  }

  lemma OneMultipleMore(q: nat)
    ensures (q + 1) * ONES == q * ONES + ONES
  {
  }

  /** Adding the complement of the folded sum makes everything verify, and so does all ones in place of a
      zero complement. */
  lemma ComplementVerifies(sum: nat)
    requires sum > 0
    ensures Verifies(sum + (ONES - Fold(sum)))
    ensures Fold(sum) == ONES ==> Verifies(sum + ONES)
  {
    var q := FoldIsRemainder(sum);
    OneMultipleMore(q);
    OneMultipleMore(q + 1);
    MultipleVerifies(sum + (ONES - Fold(sum)), q + 1);
    if Fold(sum) == ONES {
      MultipleVerifies(sum + ONES, q + 2);
    }
  }
}
