/** The receiver's Hilbert transformer: a ring of past samples that computes a direct convolution,
    however the stream is cut into packets. */
module HilbertFir {
  import opened Bytes

  const NTAPS := 127

  const DELAY := 63

  datatype Iq = Iq(re: real, im: real)

  /** Sample n of a stream; silence before its start. */
  function At(stream: seq<real>, n: int): real { if 0 <= n < |stream| then stream[n] else 0.0 }

  /** The first k taps' part of the convolution at n. */
  function Convolution(h: seq<real>, stream: seq<real>, n: int, k: nat): real
    requires k <= |h|
  {
    if k == 0 then 0.0 else Convolution(h, stream, n, k - 1) + h[k - 1] * At(stream, n - (k - 1))
  }

  /** Direct convolution for the imaginary part, a plain delay for the real one. */
  function Direct(h: seq<real>, delay: nat, stream: seq<real>, n: int): Iq {
    Iq(At(stream, n - delay), Convolution(h, stream, n, |h|))
  }

  /** The outputs for the samples of a packet that follows others. */
  function Outputs(h: seq<real>, delay: nat, before: seq<real>, packet: seq<real>): (r: seq<Iq>)
    ensures |r| == |packet|
  {
    seq(|packet|, i requires 0 <= i < |packet| => Direct(h, delay, before + packet, |before| + i))
  }

  /** k places back in a ring of n. */
  function Back(index: nat, k: nat, n: nat): (r: nat)
    requires index < n && k <= n
    ensures r < n
  {
    if index >= k then index - k else index + n - k
  }

  /** What comes out does not depend on what comes after. */
  lemma {:induction false} ConvolutionCausal(h: seq<real>, stream: seq<real>, more: seq<real>, n: int, k: nat)
    requires k <= |h| && n < |stream|
    ensures Convolution(h, stream + more, n, k) == Convolution(h, stream, n, k)
  {
    if k > 0 {
      ConvolutionCausal(h, stream, more, n, k - 1);
    }
  }

  lemma OutputsAppend(h: seq<real>, delay: nat, before: seq<real>, a: seq<real>, b: seq<real>)
    ensures Outputs(h, delay, before, a + b) == Outputs(h, delay, before, a) + Outputs(h, delay, before + a, b)
  {
    var whole, one, two := before + (a + b), Outputs(h, delay, before, a), Outputs(h, delay, before + a, b);
    Assoc(before, a, b);
    var all := Outputs(h, delay, before, a + b);
    forall i | 0 <= i < |a + b|
      ensures all[i] == (one + two)[i]
    {
      assert all[i] == Direct(h, delay, whole, |before| + i);
      if i < |a| {
        ConvolutionCausal(h, before + a, b, |before| + i, |h|);
        assert one[i] == Direct(h, delay, before + a, |before| + i);
      } else {
        assert two[i - |a|] == Direct(h, delay, whole, |before + a| + (i - |a|));
      }
    }
  }

  lemma OneMore(h: seq<real>, delay: nat, before: seq<real>, done: seq<real>, x: real, out: Iq)
    requires out == Direct(h, delay, before + done + [x], |before + done|)
    ensures before + (done + [x]) == before + done + [x]
    ensures Outputs(h, delay, before, done + [x]) == Outputs(h, delay, before, done) + [out]
  {
    Assoc(before, done, [x]);
    OutputsAppend(h, delay, before, done, [x]);
    assert Outputs(h, delay, before + done, [x]) == [out];
  }

  /** The next place to write. */
  function Turned(index: nat, n: nat): (r: nat)
    requires index < n
    ensures r < n
  {
    if index + 1 == n then 0 else index + 1
  }

  /** Going back from the next place to write, the ring holds the latest samples. */
  ghost predicate Ring(ring: seq<real>, index: nat, heard: seq<real>) {
    index < |ring| && forall k :: 1 <= k <= |ring| ==> ring[Back(index, k, |ring|)] == At(heard, |heard| - k)
  }

  lemma RingNext(ring: seq<real>, index: nat, heard: seq<real>, x: real)
    requires Ring(ring, index, heard)
    ensures Ring(ring[index := x], Turned(index, |ring|), heard + [x])
  {
    var n, next := |ring|, ring[index := x];
    forall k | 1 <= k <= n
      ensures next[Back(Turned(index, n), k, n)] == At(heard + [x], |heard| + 1 - k)
    {
      if k > 1 {
        assert Back(Turned(index, n), k, n) == Back(index, k - 1, n) != index;
      }
    }
  }

  /** Seen from the place just written. */
  lemma RingAt(ring: seq<real>, index: nat, heard: seq<real>, k: nat)
    requires index < |ring| && Ring(ring, Turned(index, |ring|), heard) && k < |ring|
    ensures ring[Back(index, k, |ring|)] == At(heard, |heard| - 1 - k)
  {
    assert Back(Turned(index, |ring|), k + 1, |ring|) == Back(index, k, |ring|);
  }

  lemma RingAtAll(ring: seq<real>, index: nat, heard: seq<real>)
    requires index < |ring| && Ring(ring, Turned(index, |ring|), heard)
    ensures forall k :: 0 <= k < |ring| ==> ring[Back(index, k, |ring|)] == At(heard, |heard| - 1 - k)
  {
    forall k | 0 <= k < |ring| ensures ring[Back(index, k, |ring|)] == At(heard, |heard| - 1 - k) {
      RingAt(ring, index, heard, k);
    }
  }

  /** Where a packet's loop stands. */
  ghost predicate Sofar(h: seq<real>, delay: nat, before: seq<real>, done: seq<real>, heard: seq<real>, iq: seq<Iq>) {
    heard == before + done && iq == Outputs(h, delay, before, done)
  }

  class Transformer {
    const coeffs: seq<real>
    const delay: nat
    const history: array<real>
    var index: nat
    ghost var heard: seq<real>

    ghost predicate Valid()
      reads this, history
    {
      history.Length == |coeffs| && delay < |coeffs| && Ring(history[..], index, heard)
    }

    constructor (coeffs: seq<real>, delay: nat)
      requires delay < |coeffs|
      ensures Valid() && heard == [] && this.coeffs == coeffs && this.delay == delay && fresh(history)
    {
      this.coeffs, this.delay := coeffs, delay;
      history := new real[|coeffs|](_ => 0.0);
      index, heard := 0, [];
    }

    /** One sample in, one out. */
    method Next(sample: real) returns (out: Iq)
      requires Valid()
      modifies this, history
      ensures Valid() && heard == old(heard) + [sample]
      ensures out == Direct(coeffs, delay, heard, |heard| - 1)
    {
      var n := |coeffs|;
      assert index < n == |history[..]|;
      RingNext(history[..], index, heard, sample);
      ghost var ring := history[..][index := sample];
      history[index] := sample;
      assert history[..] == ring;
      heard := heard + [sample];
      RingAtAll(ring, index, heard);
      var imag := 0.0;
      var at := index;
      var k := 0;
      while k < n
        invariant 0 <= k <= n && at == Back(index, k, n)
        invariant imag == Convolution(coeffs, heard, |heard| - 1, k)
      {
        assert history[at] == ring[at];
        imag := imag + coeffs[k] * history[at];
        at := if at == 0 then n - 1 else at - 1;
        k := k + 1;
      }
      var delayed := if index < delay then index - delay + n else index - delay;
      assert delayed == Back(index, delay, n) && history[delayed] == ring[delayed];
      out := Iq(history[delayed], imag);
      index := if index + 1 == n then 0 else index + 1;
    }

    /** One more output behind those of a packet so far. */
    method Extend(sample: real, iq: seq<Iq>, ghost before: seq<real>, ghost done: seq<real>) returns (more: seq<Iq>)
      requires Valid() && Sofar(coeffs, delay, before, done, heard, iq)
      modifies this, history
      ensures Valid() && Sofar(coeffs, delay, before, done + [sample], heard, more)
    {
      var out := Next(sample);
      OneMore(coeffs, delay, before, done, sample, out);
      more := iq + [out];
    }

    /** A packet in, as many outputs out. */
    method Process(packet: seq<real>) returns (iq: seq<Iq>)
      requires Valid()
      modifies this, history
      ensures Valid() && heard == old(heard) + packet
      ensures iq == Outputs(coeffs, delay, old(heard), packet)
    {
      iq := [];
      ghost var before := heard;
      Unit(before);
      PrefixEnds(packet);
      for i := 0 to |packet|
        invariant Valid() && Sofar(coeffs, delay, before, packet[..i], heard, iq)
      {
        PrefixNext(packet, i);
        iq := Extend(packet[i], iq, before, packet[..i]);
      }
    }
  }

  function Joined(packets: seq<seq<real>>): seq<real> {
    if packets == [] then [] else Joined(packets[..|packets| - 1]) + packets[|packets| - 1]
  }

  /** The outputs for a run of packets, packet by packet. */
  function PacketOutputs(h: seq<real>, delay: nat, packets: seq<seq<real>>): seq<Iq> {
    if packets == [] then []
    else
      var init := packets[..|packets| - 1];
      PacketOutputs(h, delay, init) + Outputs(h, delay, Joined(init), packets[|packets| - 1])
  }

  /** Packets do not matter: cut anywhere, the outputs are those of the whole stream at once. */
  lemma {:induction false} PacketsDoNotMatter(h: seq<real>, delay: nat, packets: seq<seq<real>>)
    ensures PacketOutputs(h, delay, packets) == Outputs(h, delay, [], Joined(packets))
  {
    if packets != [] {
      var init := packets[..|packets| - 1];
      PacketsDoNotMatter(h, delay, init);
      OutputsAppend(h, delay, [], Joined(init), packets[|packets| - 1]);
      Unit(Joined(init));
    }
  }

  lemma PacketNext(h: seq<real>, delay: nat, packets: seq<seq<real>>, i: nat)
    requires i < |packets|
    ensures Joined(packets[..i + 1]) == Joined(packets[..i]) + packets[i]
    ensures PacketOutputs(h, delay, packets[..i + 1])
         == PacketOutputs(h, delay, packets[..i]) + Outputs(h, delay, Joined(packets[..i]), packets[i])
  {
    assert packets[..i + 1][..i] == packets[..i];
  }

  lemma StreamOutputs(h: seq<real>, delay: nat, packets: seq<seq<real>>)
    ensures var stream, iq := Joined(packets), PacketOutputs(h, delay, packets);
            |iq| == |stream| && forall n :: 0 <= n < |stream| ==> iq[n] == Direct(h, delay, stream, n)
  {
    PacketsDoNotMatter(h, delay, packets);
    Unit(Joined(packets));
  }

  /** From the start of reception: output n of any stream in any packets is the convolution of the
      127 taps with the samples up to n, and the sample 63 back. */
  method Receive(coeffs: seq<real>, packets: seq<seq<real>>) returns (iq: seq<Iq>)
    requires |coeffs| == NTAPS
    ensures var stream := Joined(packets);
            && |iq| == |stream|
            && forall n :: 0 <= n < |stream| ==>
                 iq[n] == Iq(At(stream, n - DELAY), Convolution(coeffs, stream, n, NTAPS))
  {
    var t := new Transformer(coeffs, DELAY);
    iq := [];
    var i := 0;
    while i < |packets|
      invariant 0 <= i <= |packets| && t.Valid() && fresh(t) && fresh(t.history)
      invariant t.coeffs == coeffs && t.delay == DELAY
      invariant t.heard == Joined(packets[..i]) && iq == PacketOutputs(coeffs, DELAY, packets[..i])
    {
      var more := t.Process(packets[i]);
      PacketNext(coeffs, DELAY, packets, i);
      iq := iq + more;
      i := i + 1;
    }
    PrefixEnds(packets);
    StreamOutputs(coeffs, DELAY, packets);
  }

  // ---------------------------------------------------------------- what the transformer is

  function Impulse(m: nat, n: nat): (r: seq<real>)
    ensures |r| == n
  {
    seq(n, i => if i == m then 1.0 else 0.0)
  }

  lemma {:induction false} ConvolvedImpulse(h: seq<real>, m: nat, n: nat, i: nat, k: nat)
    requires m < n && i < n && k <= |h|
    ensures Convolution(h, Impulse(m, n), i, k) == if m <= i < m + k then h[i - m] else 0.0
  {
    if k > 0 {
      ConvolvedImpulse(h, m, n, i, k - 1);
    }
  }

  /** A single one at place m: the taps come out one after the other from there on, and the one itself 63
      later. */
  lemma ImpulseResponse(h: seq<real>, m: nat, n: nat, i: nat)
    requires |h| == NTAPS && m < n && i < n
    ensures Direct(h, DELAY, Impulse(m, n), i)
         == Iq(if i == m + 63 then 1.0 else 0.0, if m <= i < m + 127 then h[i - m] else 0.0)
  {
    ConvolvedImpulse(h, m, n, i, |h|);
  }

  /** x, and a times y added to it. */
  function Mixed(x: seq<real>, a: real, y: seq<real>): (r: seq<real>)
    requires |x| == |y|
    ensures |r| == |x|
  {
    seq(|x|, i requires 0 <= i < |x| => x[i] + a * y[i])
  }

  lemma Distributes(h: real, x: real, a: real, y: real)
    ensures h * (x + a * y) == h * x + a * (h * y)
  {
    assert h * (a * y) == (h * a) * y == a * (h * y);
  }

  lemma {:induction false} ConvolvedMix(h: seq<real>, x: seq<real>, a: real, y: seq<real>, n: int, k: nat)
    requires |x| == |y| && k <= |h|
    ensures Convolution(h, Mixed(x, a, y), n, k) == Convolution(h, x, n, k) + a * Convolution(h, y, n, k)
  {
    if k > 0 {
      var i := n - (k - 1);
      ConvolvedMix(h, x, a, y, n, k - 1);
      assert At(Mixed(x, a, y), i) == At(x, i) + a * At(y, i);
      Distributes(h[k - 1], At(x, i), a, At(y, i));
      Distributes(a, Convolution(h, y, n, k - 1), 1.0, h[k - 1] * At(y, i));
    }
  }

  /** And it is linear, so that its answers to single ones decide all others. */
  lemma Linear(h: seq<real>, delay: nat, x: seq<real>, a: real, y: seq<real>, n: int)
    requires |x| == |y|
    ensures var p, q, r := Direct(h, delay, x, n), Direct(h, delay, y, n), Direct(h, delay, Mixed(x, a, y), n);
            r.re == p.re + a * q.re && r.im == p.im + a * q.im
  {
    ConvolvedMix(h, x, a, y, n, |h|);
  }
}
