/** Bytes as half pulses of sound, and sound as bytes again. */

/** The square wave, shared by the encoder's specification and the receiver's. */
module TapeWave {
  import opened Bits
  import opened TapeFormat

  /** The microcomputer's own encoder and the desktop `encode` tool run at different sample rates. */
  datatype Build = Avr | Host

  function SampleRate(build: Build): nat {
    if build.Avr? then 15625 else 44100
  }

  /** Samples in a half pulse: `SAMPLERATE / 1200` for a long one, `SAMPLERATE / (1200 * 2.3)` for a short one. */
  function SampleCount(build: Build, long: bool): (n: nat)
    ensures n > 0
  {
    if long then SampleRate(build) / 1200 else SampleRate(build) / 2760
  }

  function Repeat(v: int, n: nat): (s: seq<int>)
    ensures |s| == n && forall i | 0 <= i < n :: s[i] == v
  {
    seq(n, _ => v)
  }

  /** Half pulses (true for long) that alternate between two values. */
  function Wave(build: Build, now: int, next: int, pulses: seq<bool>): seq<int>
    decreases |pulses|
  {
    if pulses == [] then []
    else Repeat(now, SampleCount(build, pulses[0])) + Wave(build, next, now, pulses[1..])
  }

  /** A one is a long half pulse; the least significant bit goes first. */
  function ByteBits(b: byte): (s: seq<bool>)
    ensures |s| == 8
  {
    seq(8, (i: nat) => BitAt(b, i) == 1)
  }

  function AllBits(bytes: seq<byte>): seq<bool> {
    if bytes == [] then [] else ByteBits(bytes[0]) + AllBits(bytes[1..])
  }

  /** Short half pulses before the first data bit. */
  function Sync(build: Build): seq<bool> {
    if build.Avr? then [false] else [false, false]
  }

  const TRAILER := [true, true]

  /** The half pulses of a whole recording. */
  function Pulses(build: Build, data: seq<byte>): seq<bool> {
    Sync(build) + AllBits(Frame(data)) + TRAILER
  }

  /** `volume * level` */
  function Sample(volume: int, level: int): (v: int)
    ensures level == 1 ==> v == volume
    ensures level == -1 ==> v == -volume
  {
    volume * level
  }

  /** The level of the first half pulse, so that data always starts at level 1. */
  function FirstLevel(build: Build): int {
    if build.Avr? then -1 else 1
  }

  /** The samples of a whole recording. */
  function Recording(build: Build, volume: int, data: seq<byte>): seq<int> {
    Wave(build, Sample(volume, FirstLevel(build)), Sample(volume, -FirstLevel(build)), Pulses(build, data))
  }

  lemma {:induction false} WaveAppend(build: Build, now: int, next: int, p: seq<bool>, q: seq<bool>)
    ensures var even := |p| % 2 == 0;
            Wave(build, now, next, p + q)
            == Wave(build, now, next, p) + Wave(build, if even then now else next, if even then next else now, q)
    decreases |p|
  {
    hide SampleCount;
    if p == [] {
      assert p + q == q;
    } else {
      assert (p + q)[1..] == p[1..] + q;
      WaveAppend(build, next, now, p[1..], q);
    }
  }

  lemma WaveOneMore(build: Build, now: int, next: int, p: seq<bool>, long: bool)
    ensures Wave(build, now, next, p + [long])
            == Wave(build, now, next, p) + Repeat(if |p| % 2 == 0 then now else next, SampleCount(build, long))
  {
    var v, w := if |p| % 2 == 0 then now else next, if |p| % 2 == 0 then next else now;
    WaveAppend(build, now, next, p, [long]);
    assert Wave(build, v, w, [long]) == Repeat(v, SampleCount(build, long)) + Wave(build, w, v, [long][1..]);
  }

  lemma {:induction false} AllBitsAppend(a: seq<byte>, b: seq<byte>)
    ensures AllBits(a + b) == AllBits(a) + AllBits(b)
  {
    hide ByteBits;
    if a == [] {
      assert a + b == b;
    } else {
      assert (a + b)[1..] == a[1..] + b;
      AllBitsAppend(a[1..], b);
    }
  }

  lemma {:induction false} AllBitsLength(bytes: seq<byte>)
    ensures |AllBits(bytes)| == 8 * |bytes| && |AllBits(bytes)| % 2 == 0
  {
    hide ByteBits;
    if bytes != [] {
      AllBitsLength(bytes[1..]);
      assert |AllBits(bytes)| == 8 + |AllBits(bytes[1..])|;
    }
  }
}

/** `struct encoder_struct` and the functions that write samples. */
module TapeEncoder {
  import opened Bits
  import opened TapeFormat
  import opened TapeWave

  class Encoder {
    const build: Build
    const volume: int
    var parity: byte
    var level: int
    /** What went through the `write` callback. */
    var samples: seq<int>

    // The recording being written: what was there before it, its first level, its half pulses.
    ghost var before: seq<int>
    ghost var first: int
    ghost var pulses: seq<bool>

    ghost predicate Valid()
      reads this`level, this`samples, this`before, this`first, this`pulses
    {
      && (first == 1 || first == -1)
      && level == (if |pulses| % 2 == 0 then first else -first)
      && samples == before + Wave(build, Sample(volume, first), Sample(volume, -first), pulses)
    }

    constructor (build: Build, volume: int)
      ensures this.build == build && this.volume == volume && samples == []
    {
      this.build, this.volume := build, volume;
      parity, level, samples := 0, 0, [];
      before, first, pulses := [], 0, [];
    }

    method HalfPulse(bit: nat)
      requires Valid() && bit <= 1
      modifies this`level, this`samples, this`pulses
      ensures Valid() && pulses == old(pulses) + [bit == 0] && level == -old(level)
    {
      hide Wave, SampleCount;
      var i := 0;
      while i < SampleCount(build, bit == 0)
        invariant i <= SampleCount(build, bit == 0)
        invariant samples == old(samples) + Repeat(Sample(volume, level), i)
        invariant level == old(level) && pulses == old(pulses)
      {
        var sample := Sample(volume, level);
        samples := samples + [sample];
        i := i + 1;
      }
      WaveOneMore(build, Sample(volume, first), Sample(volume, -first), pulses, bit == 0);
      ghost var written := Wave(build, Sample(volume, first), Sample(volume, -first), pulses);
      assert samples == before + (written + Repeat(Sample(volume, level), SampleCount(build, bit == 0)));
      level := if level > 0 then -1 else 1;
      pulses := pulses + [bit == 0];
    }

    /** `_encode_byte` */
    method EncodeBits(b: byte)
      requires Valid()
      modifies this`level, this`samples, this`pulses
      ensures Valid() && pulses == old(pulses) + ByteBits(b) && level == old(level)
    {
      ghost var bits := ByteBits(b);
      assert forall k | 0 <= k < 8 :: bits[k] == (BitAt(b, k) == 1);
      hide Valid, ByteBits, BitAt;
      var bit := 0;
      while bit < 8
        invariant bit <= 8
        invariant Valid() && pulses == old(pulses) + bits[..bit]
        invariant level == if bit % 2 == 0 then old(level) else -old(level)
      {
        HalfPulse(1 - BitAt(b, bit));
        assert bits[..bit + 1] == bits[..bit] + [bits[bit]];
        bit := bit + 1;
      }
    }

    method EncodeByte(b: byte)
      requires Valid()
      modifies this`level, this`samples, this`parity, this`pulses
      ensures Valid() && pulses == old(pulses) + ByteBits(b)
      ensures level == old(level) && parity == Xor(old(parity), b)
    {
      EncodeBits(b);
      parity := Xor(parity, b);
    }

    /** The first lines of `encode_header`: starting level and sync. */
    method StartSignal()
      modifies this`level, this`samples, this`before, this`first, this`pulses
      ensures Valid() && first == FirstLevel(build) && before == old(samples)
      ensures pulses == Sync(build) && level == 1
    {
      level := FirstLevel(build);
      before, first, pulses := samples, level, [];
      assert Valid();
      hide Valid;
      if build.Host? {
        HalfPulse(1);
      }
      HalfPulse(1);
    }

    method EncodeHeader(length: word)
      modifies this
      ensures Valid() && first == FirstLevel(build) && before == old(samples) && parity == 0 && level == 1
      ensures pulses == Sync(build) + AllBits(Header(High(length), Low(length)))
    {
      hide Xor, ByteBits, High, Low, Valid, Sync, AllBits, Header, FirstLevel;
      parity := 0;
      StartSignal();
      EncodeBits(MAGIC);
      EncodeByte(High(length));
      EncodeByte(Low(length));
      ZeroXor(High(length));
      BitsOfHeader(High(length), Low(length));
      EncodeBits(parity);
      parity := 0;
    }

    /** `enc->level = -1` changes nothing here: an odd number of half pulses has gone out since level 1. */
    method EncodeEnd()
      requires Valid()
      requires level == 1
      modifies this`level, this`samples, this`pulses
      ensures pulses == old(pulses) + ByteBits(parity) + TRAILER
      ensures samples == before + Wave(build, Sample(volume, first), Sample(volume, -first), pulses)
    {
      EncodeBits(parity);
      HalfPulse(0);
      level := -1;
      HalfPulse(0);
    }

    /** Header, every data byte, end: the calls made by the `encode` tool, and by `save` when nothing fails. */
    method EncodeAll(data: seq<byte>)
      modifies this
      ensures samples == old(samples) + Recording(build, volume, data)
    {
      hide Wave, ByteBits, Xor, Header, Sample, High, Low, AllBits, Valid, Wrap16, Sync, FirstLevel;
      ghost var n := Wrap16(|data|);
      EncodeHeader(Wrap16(|data|));
      ghost var header := Header(High(n), Low(n));
      assert header + data[..0] == header;
      var i := 0;
      while i < |data|
        invariant i <= |data|
        invariant Valid() && level == 1 && parity == Parity(data[..i])
        invariant before == old(samples) && first == FirstLevel(build)
        invariant pulses == Sync(build) + AllBits(header + data[..i])
      {
        BitsOneMore(header + data[..i], data[i]);
        assert header + data[..i] + [data[i]] == header + data[..i + 1];
        assert data[..i + 1][..i] == data[..i];
        EncodeByte(data[i]);
        i := i + 1;
      }
      assert data[..i] == data;
      EncodeEnd();
      BitsOneMore(header + data, parity);
      assert pulses == Pulses(build, data);
    }
  }

  lemma BitsOneMore(bytes: seq<byte>, b: byte)
    ensures AllBits(bytes + [b]) == AllBits(bytes) + ByteBits(b)
  {
    hide ByteBits;
    AllBitsAppend(bytes, [b]);
    assert AllBits([b]) == ByteBits(b) + AllBits([b][1..]);
  }

  lemma BitsOfHeader(hi: byte, lo: byte)
    ensures AllBits(Header(hi, lo)) == ByteBits(MAGIC) + ByteBits(hi) + ByteBits(lo) + ByteBits(Xor(hi, lo))
  {
    hide ByteBits, Xor;
    BitsOneMore([], MAGIC);
    BitsOneMore([MAGIC], hi);
    BitsOneMore([MAGIC, hi], lo);
    BitsOneMore([MAGIC, hi, lo], Xor(hi, lo));
    assert [] + [MAGIC] == [MAGIC] && [MAGIC] + [hi] == [MAGIC, hi] && [MAGIC, hi] + [lo] == [MAGIC, hi, lo];
    assert Header(hi, lo) == [MAGIC, hi, lo] + [Xor(hi, lo)];
  }
}
