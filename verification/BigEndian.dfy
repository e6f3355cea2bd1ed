/** Big-endian numbers. */
module BigEndian {
  import opened Common

  function Pow256(width: nat): (p: nat)
    ensures p > 0
  {
    if width == 0 then 1 else 256 * Pow256(width - 1)
  }

  function Put(n: nat, width: nat): (b: Bytes)
    ensures |b| == width
  {
    if width == 0 then [] else Put(n / 256, width - 1) + [n % 256]
  }

  function Get(b: Bytes): nat {
    if b == [] then 0 else Get(b[..|b| - 1]) * 256 + b[|b| - 1]
  }

  /** One byte is its own number, and bytes in front count as many times more as those behind them can tell
      apart: so the first byte is the highest. */
  lemma {:induction false} GetConcat(a: Bytes, b: Bytes)
    ensures forall x: Byte :: Get([x]) == x
    ensures Get(a + b) == Get(a) * Pow256(|b|) + Get(b)
  {
    if b == [] {
      assert a + b == a;
    } else {
      var front := b[..|b| - 1];
      GetConcat(a, front);
      assert (a + b)[..|a + b| - 1] == a + front;
      Carries(Get(a), Pow256(|front|), Get(front));
    }
  }

  lemma Carries(high: nat, p: nat, low: nat)
    ensures (high * p + low) * 256 == high * (256 * p) + low * 256
  {
  }

  /** Two bytes are the high and the low one. */
  lemma GetTwo(hi: Byte, lo: Byte)
    ensures Get([hi, lo]) == hi * 256 + lo
  {
    GetConcat([hi], [lo]);
    assert [hi] + [lo] == [hi, lo] && Pow256(1) == 256;
  }

  lemma {:induction false} GetPut(n: nat, width: nat)
    requires n < Pow256(width)
    ensures Get(Put(n, width)) == n
  {
    if width > 0 {
      GetPut(n / 256, width - 1);
      assert Put(n, width)[..width - 1] == Put(n / 256, width - 1);
    }
  }

  lemma {:induction false} PutGet(b: Bytes)
    ensures Get(b) < Pow256(|b|) && Put(Get(b), |b|) == b
  {
    if b != [] {
      PutGet(b[..|b| - 1]);
      assert b == b[..|b| - 1] + [b[|b| - 1]];
    }
  }
}
