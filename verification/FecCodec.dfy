/** Forward error correction: shard framing, the encoder and the reconstruction wrapper.

    Reed-Solomon itself is a parameter: a `Codec` is the pair of functions the wrapper calls, and
    `Lawful` is the one law used of it, that any k shards of a codeword determine the codeword. */
module FecCodec {
  import opened Common

  const LENGTH_PREFIX := 2
  const MAX_DATA_SHARDS := 32
  const MAX_PARITY_SHARDS := 16
  const MAX_TOTAL_SHARDS := MAX_DATA_SHARDS + MAX_PARITY_SHARDS
  /** The largest TGP data payload: 1452 - 13 - 43 - 16. */
  const MAX_PAYLOAD := 1380

  /** `parity(data, m)` computes m parity shards; `rebuild(shards, k, m)` fills in the empty shards and
      verifies the result. An empty sequence stands for a shard that has not arrived. */
  datatype Codec = Codec(
    parity: (seq<Bytes>, nat) -> seq<Bytes>,
    rebuild: (seq<Bytes>, nat, nat) -> Option<seq<Bytes>>)

  predicate Uniform(shards: seq<Bytes>, size: nat) {
    forall i :: 0 <= i < |shards| ==> |shards[i]| == size
  }

  function Word(c: Codec, data: seq<Bytes>, m: nat): seq<Bytes> {
    data + c.parity(data, m)
  }

  function Present(shards: seq<Bytes>): nat {
    if shards == [] then 0
    else Present(shards[..|shards| - 1]) + if shards[|shards| - 1] != [] then 1 else 0
  }

  /** What survived of a codeword: every shard that is there is the right one. */
  predicate PartOf(shards: seq<Bytes>, word: seq<Bytes>) {
    |shards| == |word| && forall i :: 0 <= i < |word| ==> shards[i] == [] || shards[i] == word[i]
  }

  ghost predicate Lawful(c: Codec, k: nat, m: nat) {
    && (forall data: seq<Bytes>, size: nat :: |data| == k && Uniform(data, size) && size > 0 ==>
          |c.parity(data, m)| == m && Uniform(c.parity(data, m), size))
    && (forall data: seq<Bytes>, size: nat, shards: seq<Bytes> ::
          |data| == k && Uniform(data, size) && size > 0 && PartOf(shards, Word(c, data, m)) && Present(shards) >= k ==>
            c.rebuild(shards, k, m) == Some(Word(c, data, m)))
  }

  predicate ValidParams(k: int, m: int) {
    1 <= k <= MAX_DATA_SHARDS && 1 <= m <= MAX_PARITY_SHARDS && k + m <= MAX_TOTAL_SHARDS
  }

  function Zeros(n: nat): (z: Bytes)
    ensures |z| == n && forall i :: 0 <= i < n ==> z[i] == 0
  {
    seq(n, _ => 0)
  }

  /** A payload with its two-byte length in front, padded with zeros to the shard size. */
  function FrameData(payload: Bytes, size: nat): Option<Bytes> {
    if |payload| + LENGTH_PREFIX > MAX_PAYLOAD || size > MAX_PAYLOAD then None
    else if size < |payload| + LENGTH_PREFIX then None
    else Some([|payload| / 256, |payload| % 256] + payload + Zeros(size - |payload| - LENGTH_PREFIX))
  }

  function DecodeShard(shard: Bytes): Option<Bytes> {
    if |shard| < LENGTH_PREFIX then None
    else
      var n: int := shard[0] as int * 256 + shard[1] as int;
      if n > |shard| - LENGTH_PREFIX then None else Some(shard[LENGTH_PREFIX..LENGTH_PREFIX + n])
  }

  function Pad(shard: Bytes, size: nat): Bytes {
    if |shard| >= size then shard else shard + Zeros(size - |shard|)
  }

  /** What a frame is: big-endian length, payload, zeros; it is there when the payload fits the shard and the shard a
      datagram. */
  lemma FrameMeans(payload: Bytes, size: nat)
    ensures FrameData(payload, size).Some? <==> |payload| + 2 <= size <= 1380
    ensures FrameData(payload, size).Some? ==>
              var shard, n := FrameData(payload, size).value, |payload|;
              && |shard| == size && shard[..2 + n] == [n / 256, n % 256] + payload
              && forall i :: 2 + n <= i < size ==> shard[i] == 0
  {
  }

  /** What a shard decodes to: as many bytes behind the length as it says, if they are there. */
  lemma DecodeMeans(shard: Bytes, payload: Bytes)
    ensures DecodeShard(shard) == Some(payload) <==>
              |payload| < 65536 && [|payload| / 256, |payload| % 256] + payload <= shard
  {
    if |payload| < 65536 {
      var n: nat := |payload|;
      var hi: Byte, lo: Byte := n / 256, n % 256;
      if [hi, lo] + payload <= shard {
        assert shard[..2 + n] == [hi, lo] + payload;
        assert shard[0] == hi && shard[1] == lo && shard[2..2 + n] == payload;
      }
    }
  }

  /** Framing loses nothing, whatever padding the shard carries. */
  lemma FrameRoundTrip(payload: Bytes, size: nat)
    requires FrameData(payload, size).Some?
    ensures DecodeShard(FrameData(payload, size).value) == Some(payload)
    ensures |FrameData(payload, size).value| == size
  {
    var shard := FrameData(payload, size).value;
    assert shard[LENGTH_PREFIX..LENGTH_PREFIX + |payload|] == payload;
  }

  /** Zero-padding a short data shard to the group's shard size gives back the shard that was encoded. */
  lemma PaddingIsFraming(payload: Bytes, short: nat, size: nat)
    requires FrameData(payload, short).Some? && short <= size <= MAX_PAYLOAD
    ensures FrameData(payload, size) == Some(Pad(FrameData(payload, short).value, size))
  {
    var head: Bytes := [|payload| / 256, |payload| % 256] + payload;
    var tail := Zeros(short - |head|);
    assert Zeros(size - |head|) == tail + Zeros(size - short);
    assert (head + tail) + Zeros(size - short) == head + (tail + Zeros(size - short));
  }

  // ----- encoding -----

  function ShardSize(payloads: seq<Bytes>): nat {
    if payloads == [] then LENGTH_PREFIX
    else Max(ShardSize(payloads[..|payloads| - 1]), |payloads[|payloads| - 1]| + LENGTH_PREFIX)
  }

  function PayloadAt(payloads: seq<Bytes>, i: nat): Bytes {
    if i < |payloads| then payloads[i] else []
  }

  predicate Encodable(payloads: seq<Bytes>, k: int, m: int) {
    && ValidParams(k, m) && |payloads| <= k
    && forall i :: 0 <= i < |payloads| ==> |payloads[i]| + LENGTH_PREFIX <= MAX_PAYLOAD
  }

  lemma {:induction false} ShardSizeBounds(payloads: seq<Bytes>)
    ensures ShardSize(payloads) >= LENGTH_PREFIX
    ensures forall i :: 0 <= i < |payloads| ==> |payloads[i]| + LENGTH_PREFIX <= ShardSize(payloads)
    ensures ShardSize(payloads) == LENGTH_PREFIX
            || exists i :: 0 <= i < |payloads| && ShardSize(payloads) == |payloads[i]| + LENGTH_PREFIX
  {
    if payloads != [] {
      ShardSizeBounds(payloads[..|payloads| - 1]);
      assert payloads == payloads[..|payloads| - 1] + [payloads[|payloads| - 1]];
    }
  }

  /** The data shards of a group: every payload framed to the common size, then empty padding frames. */
  function DataShards(payloads: seq<Bytes>, k: nat): (shards: seq<Bytes>)
    requires forall i :: 0 <= i < |payloads| ==> |payloads[i]| + LENGTH_PREFIX <= MAX_PAYLOAD
    ensures |shards| == k && Uniform(shards, ShardSize(payloads))
    ensures forall i :: 0 <= i < k ==> FrameData(PayloadAt(payloads, i), ShardSize(payloads)) == Some(shards[i])
  {
    ShardSizeBounds(payloads);
    seq(k, i requires 0 <= i < k =>
      FrameRoundTrip(PayloadAt(payloads, i), ShardSize(payloads));
      FrameData(PayloadAt(payloads, i), ShardSize(payloads)).value)
  }

  /** The codeword of a group. */
  function GroupWord(c: Codec, payloads: seq<Bytes>, k: nat, m: nat): seq<Bytes>
    requires forall i :: 0 <= i < |payloads| ==> |payloads[i]| + LENGTH_PREFIX <= MAX_PAYLOAD
  {
    Word(c, DataShards(payloads, k), m)
  }

  /** Which groups can be encoded, and what the data shards of their codewords are: the payloads in order, each
      behind its length, and then empty ones. */
  lemma WordMeans(c: Codec, payloads: seq<Bytes>, k: int, m: int)
    ensures Encodable(payloads, k, m) <==>
              && 1 <= k <= 32 && 1 <= m <= 16 && |payloads| <= k
              && forall i :: 0 <= i < |payloads| ==> |payloads[i]| <= 1378
    ensures Encodable(payloads, k, m) ==> |GroupWord(c, payloads, k, m)| >= k
    ensures Encodable(payloads, k, m) ==> forall i :: 0 <= i < k ==>
              var p := if i < |payloads| then payloads[i] else [];
              [|p| / 256, |p| % 256] + p <= GroupWord(c, payloads, k, m)[i]
  {
    if Encodable(payloads, k, m) {
      forall i | 0 <= i < k
        ensures var p := if i < |payloads| then payloads[i] else [];
                [|p| / 256, |p| % 256] + p <= GroupWord(c, payloads, k, m)[i]
      {
        FrameMeans(PayloadAt(payloads, i), ShardSize(payloads));
      }
    }
  }

  method Encode(c: Codec, payloads: seq<Bytes>, k: int, m: int) returns (r: Option<seq<Bytes>>)
    ensures r.Some? <==> Encodable(payloads, k, m)
    ensures r.Some? ==> r.value == GroupWord(c, payloads, k, m)
  {
    if !ValidParams(k, m) || |payloads| > k {
      return None;
    }
    var size := LENGTH_PREFIX;
    for i := 0 to |payloads|
      invariant size == ShardSize(payloads[..i])
      invariant forall j :: 0 <= j < i ==> |payloads[j]| + LENGTH_PREFIX <= MAX_PAYLOAD
    {
      assert payloads[..i + 1][..i] == payloads[..i];
      if |payloads[i]| + LENGTH_PREFIX > MAX_PAYLOAD {
        return None;
      }
      if |payloads[i]| + LENGTH_PREFIX > size {
        size := |payloads[i]| + LENGTH_PREFIX;
      }
    }
    assert payloads[..|payloads|] == payloads;
    var data: seq<Bytes> := [];
    for i := 0 to k
      invariant data == DataShards(payloads, k)[..i]
    {
      var shard := FrameData(PayloadAt(payloads, i), size);
      data := data + [shard.value];
    }
    assert DataShards(payloads, k)[..k] == DataShards(payloads, k);
    r := Some(data + c.parity(data, m));
  }

  // ----- reconstruction -----

  function LongestShard(shards: seq<Bytes>): nat {
    if shards == [] then 0 else Max(LongestShard(shards[..|shards| - 1]), |shards[|shards| - 1]|)
  }

  /** Every shard that is there, padded to the longest one. */
  function Normalized(shards: seq<Bytes>): seq<Bytes> {
    seq(|shards|, i requires 0 <= i < |shards| =>
      if shards[i] == [] then [] else Pad(shards[i], LongestShard(shards)))
  }

  /** The longest shard is at least as long as each, and is one of them. */
  lemma {:induction false} LongestShardBounds(shards: seq<Bytes>) returns (at: nat)
    ensures forall i :: 0 <= i < |shards| ==> |shards[i]| <= LongestShard(shards)
    ensures shards != [] ==> at < |shards| && LongestShard(shards) == |shards[at]|
  {
    at := 0;
    if shards != [] {
      var front, last := shards[..|shards| - 1], |shards| - 1;
      at := LongestShardBounds(front);
      assert forall i :: 0 <= i < last ==> shards[i] == front[i];
      if front == [] || LongestShard(front) < |shards[last]| {
        at := last;
      }
    }
  }

  /** Reconstruction writes only the shards that were missing. */
  function Filled(shards: seq<Bytes>, rebuilt: seq<Bytes>): seq<Bytes>
    requires |rebuilt| == |shards|
  {
    seq(|shards|, i requires 0 <= i < |shards| => if shards[i] == [] then rebuilt[i] else shards[i])
  }

  /** Normalises the shards in place and, if they determine a codeword, completes them. */
  method Reconstruct(c: Codec, shards: seq<Bytes>, k: int, m: int) returns (ok: bool, shards': seq<Bytes>)
    ensures |shards'| == |shards|
    ensures !ok ==> shards' == shards || shards' == Normalized(shards)
    ensures ok <==> ValidParams(k, m) && |shards| == k + m
                    && (forall i :: 0 <= i < |shards| ==> |shards[i]| <= MAX_PAYLOAD)
                    && c.rebuild(Normalized(shards), k, m).Some?
                    && |c.rebuild(Normalized(shards), k, m).value| == k + m
    ensures ok ==> shards' == Filled(Normalized(shards), c.rebuild(Normalized(shards), k, m).value)
  {
    if !ValidParams(k, m) || |shards| != k + m {
      return false, shards;
    }
    for i := 0 to |shards|
      invariant forall j :: 0 <= j < i ==> |shards[j]| <= MAX_PAYLOAD
    {
      if |shards[i]| > MAX_PAYLOAD {
        return false, shards;
      }
    }
    var longest := 0;
    for i := 0 to |shards|
      invariant longest == LongestShard(shards[..i])
    {
      assert shards[..i + 1][..i] == shards[..i];
      if |shards[i]| > longest {
        longest := |shards[i]|;
      }
    }
    assert shards[..|shards|] == shards;
    ghost var _ := LongestShardBounds(shards);
    shards' := shards;
    for i := 0 to |shards|
      invariant |shards'| == |shards|
      invariant forall j :: 0 <= j < i ==> shards'[j] == Normalized(shards)[j]
      invariant forall j :: i <= j < |shards| ==> shards'[j] == shards[j]
    {
      if shards[i] != [] && |shards[i]| != longest {
        shards' := shards'[i := Pad(shards[i], longest)];
      }
    }
    assert shards' == Normalized(shards);
    var rebuilt := c.rebuild(shards', k, m);
    if rebuilt.None? || |rebuilt.value| != k + m {
      return false, shards';
    }
    return true, Filled(shards', rebuilt.value);
  }

  lemma {:induction false} PresentIgnoresContents(a: seq<Bytes>, b: seq<Bytes>)
    requires |a| == |b| && forall i :: 0 <= i < |a| ==> (a[i] == [] <==> b[i] == [])
    ensures Present(a) == Present(b)
  {
    if a != [] {
      PresentIgnoresContents(a[..|a| - 1], b[..|b| - 1]);
    }
  }

  /** A shard as the network delivers it: the repair shards of the codeword, and each data shard framed
      to its own length only. */
  ghost predicate Arrived(c: Codec, payloads: seq<Bytes>, k: nat, m: nat, shards: seq<Bytes>)
    requires forall i :: 0 <= i < |payloads| ==> |payloads[i]| + LENGTH_PREFIX <= MAX_PAYLOAD
    requires |GroupWord(c, payloads, k, m)| == k + m
  {
    && |shards| == k + m
    && (forall i :: 0 <= i < k + m && shards[i] != [] ==>
          || shards[i] == GroupWord(c, payloads, k, m)[i]
          || (i < |payloads| && i < k && FrameData(payloads[i], |payloads[i]| + LENGTH_PREFIX) == Some(shards[i])))
    && (exists i :: 0 <= i < k + m && |shards[i]| == ShardSize(payloads))
  }

  /** Recovery: once one full-size shard and k shards in all are there, reconstruction yields the codeword. */
  lemma ReconstructionRecovers(c: Codec, payloads: seq<Bytes>, k: nat, m: nat, shards: seq<Bytes>)
    requires ValidParams(k, m) && Lawful(c, k, m) && Encodable(payloads, k, m)
    requires |GroupWord(c, payloads, k, m)| == k + m && Arrived(c, payloads, k, m, shards)
    requires Present(shards) >= k
    ensures c.rebuild(Normalized(shards), k, m) == Some(GroupWord(c, payloads, k, m))
    ensures Filled(Normalized(shards), GroupWord(c, payloads, k, m)) == GroupWord(c, payloads, k, m)
    ensures forall i :: 0 <= i < |shards| ==> |shards[i]| <= MAX_PAYLOAD
  {
    var word, size := GroupWord(c, payloads, k, m), ShardSize(payloads);
    ShardSizeBounds(payloads);
    var data := DataShards(payloads, k);
    assert Uniform(data, size) && Uniform(c.parity(data, m), size);
    assert forall i :: 0 <= i < k + m ==> |word[i]| == size;
    forall i | 0 <= i < k + m && shards[i] != []
      ensures |shards[i]| <= size && Pad(shards[i], size) == word[i]
    {
      if shards[i] != word[i] {
        FrameRoundTrip(payloads[i], |payloads[i]| + LENGTH_PREFIX);
        PaddingIsFraming(payloads[i], |payloads[i]| + LENGTH_PREFIX, size);
      }
    }
    var _ := LongestShardBounds(shards);
    assert LongestShard(shards) == size;
    var normal := Normalized(shards);
    assert PartOf(normal, word);
    PresentIgnoresContents(shards, normal);
    assert c.rebuild(normal, k, m) == Some(Word(c, data, m));
  }
}
