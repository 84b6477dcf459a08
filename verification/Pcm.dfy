/** Sixteen-bit little-endian mono samples and their saturating sum (backend/app/modules/voice/_audioop_shim.py). */
module Pcm {
  import opened Common

  type byte = b: int | 0 <= b < 256

  const MIN_SAMPLE: int := -32768
  const MAX_SAMPLE: int := 32767

  type sample = s: int | MIN_SAMPLE <= s <= MAX_SAMPLE

  function Decode(lo: byte, hi: byte): sample {
    var n := lo + 256 * hi;
    if n > MAX_SAMPLE then n - 65536 else n
  }

  /** Two bytes, the low one first, in two's complement. */
  lemma DecodedExactly(lo: byte, hi: byte)
    ensures (Decode(lo, hi) - (lo + 256 * hi)) % 65536 == 0
  {
  }

  function Low(s: sample): byte { s % 256 }

  function High(s: sample): byte { (if s < 0 then s + 65536 else s) / 256 }

  lemma EncodedDecodes(s: sample)
    ensures Decode(Low(s), High(s)) == s
  {
  }

  lemma DecodedEncodes(lo: byte, hi: byte)
    ensures Low(Decode(lo, hi)) == lo && High(Decode(lo, hi)) == hi
  {
  }

  function Samples(bytes: seq<byte>): (r: seq<sample>)
    ensures |r| == |bytes| / 2
  {
    seq(|bytes| / 2, i requires 0 <= i < |bytes| / 2 => Decode(bytes[2 * i], bytes[2 * i + 1]))
  }

  function Bytes(samples: seq<sample>): (r: seq<byte>)
    ensures |r| == 2 * |samples|
  {
    seq(2 * |samples|, i requires 0 <= i < 2 * |samples| =>
      if i % 2 == 0 then Low(samples[i / 2]) else High(samples[i / 2]))
  }

  lemma BytesOfSamples(bytes: seq<byte>)
    requires |bytes| % 2 == 0
    ensures Bytes(Samples(bytes)) == bytes
  {
    forall i | 0 <= i < |bytes|
      ensures Bytes(Samples(bytes))[i] == bytes[i]
    {
      DecodedEncodes(bytes[2 * (i / 2)], bytes[2 * (i / 2) + 1]);
    }
  }

  lemma SamplesOfBytes(samples: seq<sample>)
    ensures Samples(Bytes(samples)) == samples
  {
    forall i | 0 <= i < |samples|
      ensures Samples(Bytes(samples))[i] == samples[i]
    {
      EncodedDecodes(samples[i]);
    }
  }

  /** The sum of two samples, clipped to the range. */
  function Mixed(x: int, y: int): sample { Max(MIN_SAMPLE, Min(MAX_SAMPLE, x + y)) }

  /** `r` is `x + y`, or the end of the range it lies beyond. */
  ghost predicate IsMix(r: int, x: int, y: int) {
    && (MIN_SAMPLE <= x + y <= MAX_SAMPLE ==> r == x + y)
    && (x + y > MAX_SAMPLE ==> r == MAX_SAMPLE)
    && (x + y < MIN_SAMPLE ==> r == MIN_SAMPLE)
  }

  /** The samplewise sum, each sample clipped to the range; the first fragment sets the length. */
  function Sum(a: seq<sample>, b: seq<sample>): (r: seq<sample>)
    ensures |r| == |a|
  {
    seq(|a|, i requires 0 <= i < |a| => if i < |b| then Mixed(a[i], b[i]) else 0)
  }

  /** `add`: what a listener hears of two fragments at once. */
  method Add(fragment1: seq<byte>, fragment2: seq<byte>) returns (out: seq<byte>)
    requires |fragment1| % 2 == 0 && |fragment2| % 2 == 0
    ensures |out| == |fragment1|
    ensures forall k :: 0 <= k < |fragment1| / 2 && k < |fragment2| / 2 ==>
              IsMix(Samples(out)[k], Samples(fragment1)[k], Samples(fragment2)[k])
    ensures forall k :: |fragment2| / 2 <= k < |fragment1| / 2 ==> Samples(out)[k] == 0
    ensures Samples(out) == Sum(Samples(fragment1), Samples(fragment2))
  {
    var a, b := Samples(fragment1), Samples(fragment2);
    var mixed: array<sample> := new sample[|a|](_ => 0);
    for i := 0 to Min(|a|, |b|)
      invariant forall k :: 0 <= k < |a| ==> mixed[k] == if k < i then Mixed(a[k], b[k]) else 0
    {
      var x: int, y: int := a[i], b[i];
      mixed[i] := Max(MIN_SAMPLE, Min(MAX_SAMPLE, x + y));
    }
    out := Bytes(mixed[..]);
    SamplesOfBytes(mixed[..]);
  }

  /** Adding silence changes nothing, which is what lets the mixer skip the addition. */
  lemma SilenceIsNeutral(bytes: seq<byte>, silence: seq<byte>)
    requires |bytes| % 2 == 0 && |silence| == |bytes|
    requires forall i :: 0 <= i < |silence| ==> silence[i] == 0
    ensures Bytes(Sum(Samples(bytes), Samples(silence))) == bytes
    ensures Bytes(Sum(Samples(silence), Samples(bytes))) == bytes
  {
    assert Sum(Samples(bytes), Samples(silence)) == Samples(bytes);
    assert Sum(Samples(silence), Samples(bytes)) == Samples(bytes);
    BytesOfSamples(bytes);
  }
}
