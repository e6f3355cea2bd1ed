/** Two lawful codes: what the results on forward error correction ask of a code can be met, for any number of
    data shards and for any number of parity shards. */
module LawfulCodes {
  import opened Common
  import opened FecCodec

  // ----- one parity shard, any number of data shards -----

  /** The sum of the bytes at one position of all shards. */
  function Column(shards: seq<Bytes>, j: nat): nat {
    if shards == [] then 0
    else
      var last := shards[|shards| - 1];
      Column(shards[..|shards| - 1], j) + if j < |last| then last[j] else 0
  }

  /** The shard that makes every column sum to zero modulo 256. */
  function Balance(shards: seq<Bytes>, size: nat): Bytes {
    seq(size, j requires 0 <= j < size => (-(Column(shards, j) as int)) % 256)
  }

  function BalanceCodec(): Codec {
    Codec(
      (data: seq<Bytes>, n: nat) => Repeat(Balance(data, LongestShard(data)), n),
      (shards: seq<Bytes>, k: nat, n: nat) => Some(Balanced(shards)))
  }

  function Balanced(shards: seq<Bytes>): seq<Bytes> {
    seq(|shards|, i requires 0 <= i < |shards| =>
      if shards[i] == [] then Balance(shards, LongestShard(shards)) else shards[i])
  }

  lemma {:induction false} PresentAtMost(shards: seq<Bytes>)
    ensures Present(shards) <= |shards|
    ensures (exists i :: 0 <= i < |shards| && shards[i] == []) ==> Present(shards) < |shards|
  {
    if shards != [] {
      var front := shards[..|shards| - 1];
      PresentAtMost(front);
      forall i | 0 <= i < |shards| && shards[i] == []
        ensures Present(shards) < |shards|
      {
        assert i < |front| ==> front[i] == [];
      }
    }
  }

  /** If at most one shard is missing and this one is, the others are there. */
  lemma {:induction false} OthersPresent(shards: seq<Bytes>, i: nat, j: nat)
    requires i < |shards| && j < |shards| && i != j && shards[i] == [] && Present(shards) >= |shards| - 1
    ensures shards[j] != []
  {
    var front := shards[..|shards| - 1];
    PresentAtMost(front);
    if i < |front| && j < |front| {
      assert front[i] == [];
      OthersPresent(front, i, j);
    } else if i < |front| {
      assert front[i] == [];
    } else {
      assert front[j] == shards[j];
    }
  }

  /** A missing shard takes its byte out of the sum. */
  lemma {:induction false} ColumnWithout(shards: seq<Bytes>, word: seq<Bytes>, i: nat, j: nat)
    requires |shards| == |word| && i < |word| && shards[i] == [] && j < |word[i]|
    requires forall n :: 0 <= n < |word| && n != i ==> shards[n] == word[n]
    ensures Column(word, j) == Column(shards, j) + word[i][j]
  {
    var n := |word| - 1;
    if i < n {
      ColumnWithout(shards[..n], word[..n], i, j);
    } else {
      assert shards[..n] == word[..n];
    }
  }

  lemma Complement(sum: nat, x: Byte)
    requires (sum + x) % 256 == 0
    ensures (-(sum as int)) % 256 == x
  {
  }

  lemma BalancedWord(data: seq<Bytes>, size: nat, j: nat)
    requires data != [] && Uniform(data, size) && j < size
    ensures var word := Word(BalanceCodec(), data, 1);
            |word| == |data| + 1 && Uniform(word, size) && Column(word, j) % 256 == 0
  {
    var _ := LongestShardBounds(data);
    var parity := Balance(data, size);
    assert Repeat(parity, 1) == [parity];
    assert Word(BalanceCodec(), data, 1) == data + [parity];
    assert (data + [parity])[..|data|] == data;
    assert parity[j] == (-(Column(data, j) as int)) % 256;
  }

  /** Every column of the word sums to zero. */
  ghost predicate InBalance(word: seq<Bytes>, size: nat) {
    Uniform(word, size) && forall j :: 0 <= j < size ==> Column(word, j) % 256 == 0
  }

  /** The one missing shard of a word in balance is what the others need to balance. */
  lemma MissingBalances(word: seq<Bytes>, size: nat, shards: seq<Bytes>, i: nat)
    requires InBalance(word, size) && |shards| == |word| && i < |word| && shards[i] == []
    requires forall n :: 0 <= n < |word| && n != i ==> shards[n] == word[n]
    ensures Balance(shards, size) == word[i]
  {
    forall j | 0 <= j < size
      ensures Balance(shards, size)[j] == word[i][j]
    {
      ColumnWithout(shards, word, i, j);
      Complement(Column(shards, j), word[i][j]);
    }
  }

  lemma BalanceRebuilds(word: seq<Bytes>, size: nat, shards: seq<Bytes>, i: nat)
    requires InBalance(word, size) && size > 0 && |word| >= 2 && i < |word|
    requires PartOf(shards, word) && Present(shards) >= |word| - 1
    ensures Balanced(shards)[i] == word[i]
  {
    if shards[i] == [] {
      forall n | 0 <= n < |word| && n != i
        ensures shards[n] == word[n]
      {
        OthersPresent(shards, i, n);
      }
      var at := LongestShardBounds(shards);
      assert |shards[if i == 0 then 1 else 0]| == size;
      assert LongestShard(shards) == size;
      MissingBalances(word, size, shards, i);
    }
  }

  /** One parity shard that balances every column is a lawful code for any k. */
  lemma BalanceIsLawful(k: nat)
    requires k >= 1
    ensures Lawful(BalanceCodec(), k, 1)
  {
    var c := BalanceCodec();
    forall data: seq<Bytes>, size: nat | |data| == k && Uniform(data, size) && size > 0
      ensures |c.parity(data, 1)| == 1 && Uniform(c.parity(data, 1), size)
    {
      var _ := LongestShardBounds(data);
    }
    forall data: seq<Bytes>, size: nat, shards: seq<Bytes>
      | |data| == k && Uniform(data, size) && size > 0 && PartOf(shards, Word(c, data, 1)) && Present(shards) >= k
      ensures c.rebuild(shards, k, 1) == Some(Word(c, data, 1))
    {
      var word := Word(c, data, 1);
      BalancedWord(data, size, 0);
      forall j | 0 <= j < size
        ensures Column(word, j) % 256 == 0
      {
        BalancedWord(data, size, j);
      }
      forall i | 0 <= i < |shards|
        ensures Balanced(shards)[i] == word[i]
      {
        BalanceRebuilds(word, size, shards, i);
      }
      assert Balanced(shards) == word;
    }
  }

  // ----- one data shard, any number of parity shards -----

  function RepetitionCodec(): Codec {
    Codec(
      (data: seq<Bytes>, n: nat) => Repeat(if data == [] then [] else data[0], n),
      (shards: seq<Bytes>, k: nat, n: nat) => Some(Repeat(FirstPresent(shards), |shards|)))
  }

  lemma RepetitionRebuilds(data: seq<Bytes>, m: nat, shards: seq<Bytes>)
    requires |data| == 1 && PartOf(shards, Word(RepetitionCodec(), data, m)) && Present(shards) >= 1
    ensures RepetitionCodec().rebuild(shards, 1, m) == Some(Word(RepetitionCodec(), data, m))
  {
    var word := Word(RepetitionCodec(), data, m);
    assert word == data + Repeat(data[0], m);
    assert |word| == 1 + m && forall i :: 0 <= i < |word| ==> word[i] == data[0];
    var j := FirstPresentIsPresent(shards);
    assert shards[j] == data[0];
    assert Repeat(FirstPresent(shards), |shards|) == word;
  }

  /** Repeating the single data shard is a lawful code for any m. */
  lemma RepetitionIsLawful(m: nat)
    ensures Lawful(RepetitionCodec(), 1, m)
  {
    var c := RepetitionCodec();
    forall data: seq<Bytes>, size: nat | |data| == 1 && Uniform(data, size)
      ensures |c.parity(data, m)| == m && Uniform(c.parity(data, m), size)
    {
      assert c.parity(data, m) == Repeat(data[0], m);
    }
    forall data: seq<Bytes>, size: nat, shards: seq<Bytes>
      | |data| == 1 && Uniform(data, size) && size > 0 && PartOf(shards, Word(c, data, m)) && Present(shards) >= 1
      ensures c.rebuild(shards, 1, m) == Some(Word(c, data, m))
    {
      RepetitionRebuilds(data, m, shards);
    }
  }

  function FirstPresent(shards: seq<Bytes>): Bytes {
    if shards == [] then [] else if shards[0] != [] then shards[0] else FirstPresent(shards[1..])
  }

  lemma {:induction false} FirstPresentIsPresent(shards: seq<Bytes>) returns (i: nat)
    requires Present(shards) >= 1
    ensures i < |shards| && shards[i] == FirstPresent(shards) != []
  {
    i := 0;
    if shards[0] == [] {
      PresentCons(shards);
      i := FirstPresentIsPresent(shards[1..]);
      i := i + 1;
    }
  }

  lemma {:induction false} PresentCons(shards: seq<Bytes>)
    requires shards != []
    ensures Present(shards) == Present(shards[1..]) + if shards[0] != [] then 1 else 0
  {
    if |shards| > 1 {
      var front := shards[..|shards| - 1];
      PresentCons(front);
      assert front[1..] == shards[1..][..|shards| - 2];
    }
  }
}
