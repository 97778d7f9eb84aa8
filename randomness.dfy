/** A deterministic stand-in for `System.Random`. The real algorithm is
    not modelled: the state advances by a fixed linear congruential step
    on every draw, and each draw is a function of the state it leaves
    behind. What the model keeps is that every value is a function of
    the seed and of the sequence of draws before it. */
module Randomness {

  /** The generator's state. */
  datatype Rng = Rng(state: int)

  type Byte = b: int | 0 <= b < 256

  /** `new Random(seed)`. */
  function Seeded(seed: int): Rng
  {
    Rng(seed)
  }

  /** One step of the generator. */
  function Step(r: Rng): Rng
  {
    Rng((r.state * 1103515245 + 12345) % 2147483648)
  }

  /** `Next(lo, hi)` (and `Next()`, `Next(hi)`, `NextInt64(lo, hi)` with
      their implicit bounds): a value in the half-open range `[lo, hi)`,
      or `lo` itself when the range is empty; every call is one step. */
  function Draw(r: Rng, lo: int, hi: int): (d: (int, Rng))
    requires lo <= hi
    ensures d.1 == Step(r)
    ensures lo == hi ==> d.0 == lo
    ensures lo < hi ==> lo <= d.0 < hi
  {
    var next := Step(r);
    (if lo == hi then lo else lo + next.state % (hi - lo), next)
  }

  /** `NextDouble()`: the sample is kept as the opaque state it came from. */
  function Sample(r: Rng): (d: (int, Rng))
    ensures d.1 == Step(r)
  {
    var next := Step(r);
    (next.state, next)
  }

  /** `Next(0, 256)` as one byte. */
  function DrawByte(r: Rng): (d: (Byte, Rng))
    ensures d.1 == Step(r)
  {
    var (b, next) := Draw(r, 0, 256);
    (b, next)
  }

  /** `NextBytes` on a buffer of `n` bytes: one byte per step, in order. */
  function DrawBytes(r: Rng, n: nat): (d: (seq<Byte>, Rng))
    ensures |d.0| == n
  {
    if n == 0 then ([], r)
    else
      var (bytes, r1) := DrawBytes(r, n - 1);
      var (b, r2) := DrawByte(r1);
      (bytes + [b], r2)
  }

  /** The state after `n` steps. */
  function Steps(r: Rng, n: nat): Rng
  {
    if n == 0 then r else Step(Steps(r, n - 1))
  }

  /** Filling `n` bytes advances the state by exactly `n` steps. */
  lemma {:induction false} DrawBytesSteps(r: Rng, n: nat)
    ensures DrawBytes(r, n).1 == Steps(r, n)
  {
    if n > 0 {
      DrawBytesSteps(r, n - 1);
    }
  }

  /** `System.Random`: a mutable object whose state every draw advances.
      Several owners may share one instance. */
  class RandomSource {
    var rng: Rng

    /** `new Random(seed)`. */
    constructor(seed: int)
      ensures rng == Seeded(seed)
    {
      rng := Seeded(seed);
    }

    /** `Next(lo, hi)`. */
    method Next(lo: int, hi: int) returns (value: int)
      requires lo <= hi
      modifies this
      ensures (value, rng) == Draw(old(rng), lo, hi)
    {
      var d := Draw(rng, lo, hi);
      value, rng := d.0, d.1;
    }

    /** `NextDouble()`. */
    method NextDouble() returns (sample: int)
      modifies this
      ensures (sample, rng) == Sample(old(rng))
    {
      var d := Sample(rng);
      sample, rng := d.0, d.1;
    }

    /** `NextBytes(buffer)`: fills the buffer in place, front to back. */
    method NextBytes(buffer: array<Byte>)
      modifies this, buffer
      ensures (buffer[..], rng) == DrawBytes(old(rng), buffer.Length)
    {
      ghost var start := rng;
      for i := 0 to buffer.Length
        invariant DrawBytes(start, i) == (buffer[..i], rng)
      {
        var b := Next(0, 256);
        buffer[i] := b;
        assert buffer[..i + 1] == buffer[..i] + [b];
      }
      assert buffer[..buffer.Length] == buffer[..];
    }
  }
}
