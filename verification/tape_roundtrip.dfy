/** From the samples of a recording back to its data: signal edges, the edge interrupt, and `load`. */

/** The pin-change interrupt that measures half pulses and rebuilds bytes. */
module TapeReceiver {
  import opened Bits
  import opened Rings

  /** The interrupt's `ain_sync`, `bit` and `byte`. */
  datatype Edges = Edges(sync: nat, bit: nat, b: byte) {
    predicate Valid() {
      sync <= 4 && bit < 8
    }
  }

  const IDLE := Edges(0, 0, 0)
  const LOCKED := Edges(4, 0, 0)

  /** `pulse_length > SHORT_TIME`, where SHORT_TIME is 62500 / 2760 + 16. */
  predicate Long(ticks: byte) {
    2760 * ticks > 62500 + 16 * 2760
  }

  function WithBit(b: byte, i: nat): byte
    requires i < 8
  {
    Pow2Below(i, 7);
    assert Pow2(7) == 128;
    Or(b, Pow2(i))
  }

  /** One edge: the new state, and the byte it completes, if any. */
  function EdgeStep(e: Edges, ticks: byte): (r: (Edges, seq<byte>))
    requires e.Valid()
    ensures r.0.Valid() && |r.1| <= 1
  {
    if e.sync < 4 then
      (Edges(e.sync + 1, 0, 0), [])
    else
      var b := if Long(ticks) then WithBit(e.b, e.bit) else e.b;
      if e.bit + 1 == 8 then (Edges(e.sync, 0, 0), [b]) else (Edges(e.sync, e.bit + 1, b), [])
  }

  /** All edges of a signal. */
  function Receive(e: Edges, ticks: seq<byte>): (r: (Edges, seq<byte>))
    requires e.Valid()
    ensures r.0.Valid()
    decreases |ticks|
  {
    if ticks == [] then (e, [])
    else
      var (e', out) := EdgeStep(e, ticks[0]);
      var rest := Receive(e', ticks[1..]);
      if out == [] then rest else (rest.0, out + rest.1)
  }

  class AudioIn {
    const ring: RingBuffer<byte>
    var sync: nat
    var bit: nat
    var b: byte

    ghost function State(): Edges
      reads this
    {
      Edges(sync, bit, b)
    }

    /** `ain_on` */
    constructor ()
      ensures ring.Valid() && fresh(ring) && fresh(ring.data)
      ensures State() == IDLE && ring.State().Contents() == [] && ring.data.Length == 32
    {
      ring := new RingBuffer<byte>(32);
      sync, bit, b := 0, 0, 0;
    }

    method PinChange(pulseLength: byte)
      requires ring.Valid() && State().Valid()
      modifies this, ring, ring.data
      ensures ring.Valid() && State().Valid()
      ensures var (e, out) := EdgeStep(old(State()), pulseLength);
              && State() == e
              && ring.State() == if out == [] then old(ring.State()) else old(ring.State()).Put(out[0])
    {
      if sync < 4 {
        bit := 0;
        b := 0;
        sync := sync + 1;
        return;
      }
      if Long(pulseLength) {
        b := WithBit(b, bit);
      }
      bit := bit + 1;
      if bit == 8 {
        ring.Put(b);
        bit := 0;
        b := 0;
      }
    }
  }

  // --- Bits that arrive are the bits of bytes ---------------------------------------

  /** The remaining bits of a byte whose lowest `i` bits are already in. */
  lemma {:induction false} ReceiveByte(t: seq<byte>, j: nat, b: byte, i: nat)
    requires i < 8 && j + 8 - i <= |t|
    requires forall k | i <= k < 8 :: Long(t[j + k - i]) <==> BitAt(b, k) == 1
    requires LowBits(b, i) < 256
    ensures var r := Receive(LOCKED, t[j + 8 - i..]);
            Receive(Edges(4, i, LowBits(b, i)), t[j..]) == (r.0, [b] + r.1)
    decreases 8 - i
  {
    hide Long, BitAt, LowBits, Or;
    var e := Edges(4, i, LowBits(b, i));
    assert t[j..][1..] == t[j + 1..] && t[j..][0] == t[j];
    NextBit(b, i);
    assert Long(t[j]) <==> BitAt(b, i) == 1;
    if i == 7 {
      assert EdgeStep(e, t[j]) == (LOCKED, [b]);
    } else {
      assert EdgeStep(e, t[j]) == (Edges(4, i + 1, LowBits(b, i + 1)), []);
      assert forall k | i + 1 <= k < 8 :: Long(t[j + 1 + k - (i + 1)]) <==> BitAt(b, k) == 1;
      ReceiveByte(t, j + 1, b, i + 1);
    }
  }

  lemma NextBit(b: byte, i: nat)
    requires i < 8 && LowBits(b, i) < 256
    ensures LowBits(b, i + 1) < 256
    ensures LowBits(b, i + 1) == if BitAt(b, i) == 1 then WithBit(LowBits(b, i), i) else LowBits(b, i)
    ensures i == 7 ==> LowBits(b, i + 1) == b
  {
    LowBitsStep(b, i);
    OrAddsBit(LowBits(b, i), i);
    Pow2Below(i, 7);
    assert Pow2(7) == 128 && Pow2(8) == 256;
    LowBitsAll(b, 8);
  }

  /** Too few edges for another byte. */
  lemma {:induction false} ReceiveRemainder(e: Edges, t: seq<byte>)
    requires e.Valid() && e.sync == 4 && e.bit + |t| < 8
    ensures var r := Receive(e, t); r.0.sync == 4 && r.0.bit == e.bit + |t| && r.1 == []
    decreases |t|
  {
    hide WithBit, Long;
    if t != [] {
      ReceiveRemainder(EdgeStep(e, t[0]).0, t[1..]);
    }
  }

  /** The first four edges only count. */
  lemma ReceiveSync(t: seq<byte>)
    requires |t| >= 4
    ensures Receive(IDLE, t) == Receive(LOCKED, t[4..])
  {
    hide WithBit, Long;
    assert t[1..][1..] == t[2..] && t[2..][1..] == t[3..] && t[3..][1..] == t[4..];
    var e1, e2, e3 := Edges(1, 0, 0), Edges(2, 0, 0), Edges(3, 0, 0);
    assert Receive(IDLE, t) == Receive(e1, t[1..]);
    assert Receive(e1, t[1..]) == Receive(e2, t[2..]);
    assert Receive(e2, t[2..]) == Receive(e3, t[3..]);
    assert Receive(e3, t[3..]) == Receive(LOCKED, t[4..]);
  }
}

/** Playing samples back: runs of equal samples, edges between them, timer readings. */
module TapePlayback {
  import opened Bits
  import opened TapeFormat
  import opened TapeWave
  import opened TapeReceiver
  import TapeDecoder

  /** Lengths of the maximal runs of equal samples. */
  function RunLengths(s: seq<int>): (r: seq<nat>)
    ensures s != [] ==> r != []
    decreases |s|
  {
    if s == [] then []
    else
      var rest := RunLengths(s[1..]);
      if |s| > 1 && s[1] == s[0] then [rest[0] + 1] + rest[1..] else [1] + rest
  }

  function Counts(build: Build, pulses: seq<bool>): (c: seq<nat>)
    ensures |c| == |pulses|
  {
    seq(|pulses|, (i: nat) requires i < |pulses| => SampleCount(build, pulses[i]))
  }

  lemma {:induction false} RunOfRepeat(v: int, n: nat, rest: seq<int>)
    requires n > 0 && (rest != [] ==> rest[0] != v)
    ensures RunLengths(Repeat(v, n) + rest) == [n] + RunLengths(rest)
  {
    var s := Repeat(v, n) + rest;
    assert s[1..] == Repeat(v, n - 1) + rest;
    if n > 1 {
      RunOfRepeat(v, n - 1, rest);
    } else {
      assert s[1..] == rest;
    }
  }

  /** Half pulses of different levels never merge. */
  lemma {:induction false} RunsOfWave(build: Build, now: int, next: int, pulses: seq<bool>)
    requires now != next
    ensures RunLengths(Wave(build, now, next, pulses)) == Counts(build, pulses)
    ensures pulses != [] ==> Wave(build, now, next, pulses) != [] && Wave(build, now, next, pulses)[0] == now
    decreases |pulses|
  {
    hide SampleCount;
    if pulses != [] {
      RunsOfWave(build, next, now, pulses[1..]);
      RunOfRepeat(now, SampleCount(build, pulses[0]), Wave(build, next, now, pulses[1..]));
    }
  }

  /** Timer ticks of 16 microseconds per sample, as a fraction: the output interrupt writes a sample every
      5 ticks, the desktop tool's files play at 44100 samples a second. */
  function TicksPerSample(build: Build): (int, int) {
    if build.Avr? then (5, 1) else (62500, 44100)
  }

  /** A timer reading of a run of `n` samples that is off by at most `tolerance` ticks. */
  predicate Measured(build: Build, tolerance: nat, n: nat, ticks: byte) {
    var (num, den) := TicksPerSample(build);
    n * num <= (ticks + tolerance) * den && ticks * den <= n * num + tolerance * den
  }

  /** Long and short half pulses can be told apart whatever the error if and only if it stays within 13 ticks. */
  lemma ToleranceIsThirteen(tolerance: nat)
    ensures (forall build, long, ticks | Measured(build, tolerance, SampleCount(build, long), ticks) ::
               Long(ticks) <==> long)
            <==> tolerance <= 13
  {
    if tolerance > 13 {
      assert Measured(Avr, tolerance, SampleCount(Avr, false), 39);
      assert Long(39);
    }
  }

  /** The readings of the edge interrupt while a recording plays: four that are discarded, the fourth at
      the start of the first data bit, then one per run. The last run may or may not end in an edge. */
  predicate Heard(build: Build, tolerance: nat, samples: seq<int>, ticks: seq<byte>) {
    var lengths := RunLengths(samples);
    var first := |Sync(build)|;
    var measured := |lengths| - first;
    && measured > 0
    && (|ticks| == 4 + measured || |ticks| == 3 + measured)
    && forall j | 4 <= j < |ticks| :: Measured(build, tolerance, lengths[first + j - 4], ticks[j])
  }

  /** Readings that classify as the bits of `bytes` are received as `bytes`. */
  lemma {:induction false} ReceiveBytes(t: seq<byte>, j: nat, bytes: seq<byte>)
    requires j + 8 * |bytes| <= |t| && |AllBits(bytes)| == 8 * |bytes|
    requires forall m | 0 <= m < 8 * |bytes| :: Long(t[j + m]) <==> AllBits(bytes)[m]
    ensures var r := Receive(LOCKED, t[j + 8 * |bytes|..]);
            Receive(LOCKED, t[j..]) == (r.0, bytes + r.1)
    decreases |bytes|
  {
    hide Long, BitAt, Receive;
    if bytes != [] {
      var b, rest := bytes[0], bytes[1..];
      var bits := AllBits(bytes);
      assert bits == ByteBits(b) + AllBits(rest);
      assert LowBits(b, 0) == 0;
      forall k | 0 <= k < 8 ensures Long(t[j + k - 0]) <==> BitAt(b, k) == 1 {
        assert bits[k] == ByteBits(b)[k];
      }
      ReceiveByte(t, j, b, 0);
      forall m | 0 <= m < 8 * |rest| ensures Long(t[j + 8 + m]) <==> AllBits(rest)[m] {
        assert bits[8 + m] == AllBits(rest)[m];
        assert Long(t[j + (8 + m)]) <==> bits[8 + m];
      }
      ReceiveBytes(t, j + 8, rest);
      assert j + 8 + 8 * |rest| == j + 8 * |bytes|;
      var r := Receive(LOCKED, t[j + 8 * |bytes|..]);
      assert bytes + r.1 == [b] + (rest + r.1);
    } else {
      var r := Receive(LOCKED, t[j..]);
      assert bytes + r.1 == r.1;
    }
  }

  /** What is heard of a recording classifies as its half pulses. */
  lemma HeardBits(build: Build, tolerance: nat, a: int, b: int, pulses: seq<bool>, ticks: seq<byte>)
    requires tolerance <= 13 && a != b
    requires |pulses| > |Sync(build)| && Heard(build, tolerance, Wave(build, a, b, pulses), ticks)
    ensures |ticks| == 4 + |pulses| - |Sync(build)| || |ticks| == 3 + |pulses| - |Sync(build)|
    ensures forall j | 4 <= j < |ticks| :: Long(ticks[j]) <==> pulses[|Sync(build)| + j - 4]
  {
    hide Wave;
    RunsOfWave(build, a, b, pulses);
    hide RunLengths, Sync;
    ToleranceIsThirteen(tolerance);
    forall j | 4 <= j < |ticks| ensures Long(ticks[j]) <==> pulses[|Sync(build)| + j - 4] {
      var long := pulses[|Sync(build)| + j - 4];
      assert Counts(build, pulses)[|Sync(build)| + j - 4] == SampleCount(build, long);
      assert Measured(build, tolerance, SampleCount(build, long), ticks[j]);
    }
  }

  /** A recording, by either encoder, played back with any timing error of up to 13 ticks per half pulse, is received
      as exactly its frame, with one or two stray bits left over. */
  lemma FrameIsReceived(build: Build, tolerance: nat, a: int, b: int, data: seq<byte>, ticks: seq<byte>)
    requires tolerance <= 13 && a != b
    requires Heard(build, tolerance, Wave(build, a, b, Pulses(build, data)), ticks)
    ensures var received := Receive(IDLE, ticks);
            received.1 == Frame(data) && received.0.sync == 4 && 1 <= received.0.bit <= 2
  {
    hide Wave, Frame, AllBits, ByteBits, Receive, Heard, Long, Sync, Wrap16;
    var pulses, bits := Pulses(build, data), AllBits(Frame(data));
    var skip := |Sync(build)|;
    AllBitsLength(Frame(data));
    HeardBits(build, tolerance, a, b, pulses, ticks);
    forall m | 0 <= m < 8 * |Frame(data)| ensures Long(ticks[4 + m]) <==> bits[m] {
      assert pulses[skip + (4 + m) - 4] == bits[m];
    }
    ReceiveSync(ticks);
    ReceiveBytes(ticks, 4, Frame(data));
    assert Frame(data) + [] == Frame(data);
    ReceiveRemainder(LOCKED, ticks[4 + 8 * |Frame(data)|..]);
  }

  /** The tape round trip. A recording of any 1 to 65536 bytes, by either encoder, played back with any
      timing error of up to 13 ticks per half pulse, is received as exactly its frame, with one or two
      stray bits left over; the decoder then ends with exactly the data. */
  lemma TapeRoundTrip(build: Build, tolerance: nat, a: int, b: int, data: seq<byte>, ticks: seq<byte>)
    requires Recordable(data) && tolerance <= 13 && a != b
    requires Heard(build, tolerance, Wave(build, a, b, Pulses(build, data)), ticks)
    ensures var received := Receive(IDLE, ticks);
            && received.1 == Frame(data) && received.0.sync == 4 && 1 <= received.0.bit <= 2
            && var r := TapeDecoder.Feed(TapeDecoder.INITIAL, received.1);
               && r.ret == 0 && r.dec.control == TapeDecoder.C_END && r.consumed == |received.1|
               && r.dec.written == data && r.dec.length == Wrap16(|data|)
  {
    hide Wave, Frame, Pulses, Receive, Heard, Wrap16;
    FrameIsReceived(build, tolerance, a, b, data, ticks);
    TapeDecoder.FrameReachesEnd(data, Frame(data));
  }
}
