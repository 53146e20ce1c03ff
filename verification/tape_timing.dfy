/** The tape in numbers: its frame byte by byte, its half pulses bit by bit, and when its samples are played. */
module TapeNumbers {
  import opened Bits
  import opened TapeFormat
  import opened TapeWave
  import opened TapePlayback
  import TapeDecoder
  import TapeSave

  // --- Bytes ------------------------------------------------------------------------

  /** How many of the bytes have a one in bit `i`. */
  function Ones(data: seq<byte>, i: nat): nat {
    if data == [] then 0 else Ones(data[..|data| - 1], i) + BitAt(data[|data| - 1], i)
  }

  /** Bit `i` of the parity says whether an odd number of bytes have it. */
  lemma {:induction false} ParityCounts(data: seq<byte>, i: nat)
    ensures BitAt(Parity(data), i) == Ones(data, i) % 2
  {
    hide BitAt, Bitwise;
    if data == [] {
      BitOfZero(i);
    } else {
      var n := |data| - 1;
      ParityCounts(data[..n], i);
      BitOfBitwise(BitXor, Parity(data[..n]), data[n], i);
    }
  }

  /** The stream begins with 0xff, a length with its high byte first, the XOR of its two bytes, as many data bytes, or
      65536 for 0, and their XOR. */
  predicate BeginsWithRecording(s: seq<byte>) {
    && |s| >= 6 && s[0] == 0xff
    && var n := 256 * Plain(s[1]) + s[2];
       var size := if n == 0 then 65536 else n;
       s[3] == Xor(s[1], s[2]) && |s| >= size + 5 && s[size + 4] == Parity(s[4..size + 4])
  }

  function Plain(b: byte): int { b }

  /** The decoder accepts exactly the streams that begin like this. */
  lemma AcceptsRecordings(s: seq<byte>)
    ensures TapeDecoder.Feed(TapeDecoder.INITIAL, s).dec.control == TapeDecoder.C_END <==> BeginsWithRecording(s)
  {
    if BeginsWithRecording(s) {
      var n := 256 * Plain(s[1]) + s[2];
      var size := if n == 0 then 65536 else n;
      RecordingIsFrame(s, size);
      TapeDecoder.FrameReachesEnd(s[4..size + 4], s);
    }
    if TapeDecoder.Feed(TapeDecoder.INITIAL, s).dec.control == TapeDecoder.C_END {
      TapeDecoder.EndMeansFrame(s);
      var r := TapeDecoder.Feed(TapeDecoder.INITIAL, s);
      FrameInBytes(r.dec.written, s);
    }
  }

  lemma RecordingIsFrame(s: seq<byte>, size: nat)
    requires BeginsWithRecording(s)
    requires var n := 256 * Plain(s[1]) + s[2]; size == if n == 0 then 65536 else n
    ensures Recordable(s[4..size + 4]) && Frame(s[4..size + 4]) <= s
  {
    hide Xor, Parity;
    var data := s[4..size + 4];
    var f := Frame(data);
    assert Wrap16(|data|) == 256 * Plain(s[1]) + s[2];
    assert f == [0xff, s[1], s[2], s[3]] + data + [Parity(data)];
    assert f == s[..size + 5];
  }

  lemma FrameInBytes(data: seq<byte>, s: seq<byte>)
    requires Recordable(data) && Frame(data) <= s
    ensures BeginsWithRecording(s)
  {
    var f := Frame(data);
    var n := Wrap16(|data|);
    FrameParts(High(n), Low(n), data);
    assert n == 256 * Plain(High(n)) + Low(n);
    hide Xor, Parity, Wrap16, High, Low;
    LengthInBytes(|data|);
    assert s[..|f|] == f;
    assert s[4..|data| + 4] == f[4..|data| + 4] == data;
  }

  lemma LengthInBytes(size: nat)
    requires 1 <= size <= 65536
    ensures size == if Wrap16(size) == 0 then 65536 else Wrap16(size)
  {
  }

  // --- Half pulses ------------------------------------------------------------------

  /** Samples in a half pulse of 15625 and of 44100 a second. */
  lemma SampleCounts()
    ensures SampleCount(Avr, false) == 5 && SampleCount(Avr, true) == 13
    ensures SampleCount(Host, false) == 15 && SampleCount(Host, true) == 36
  {
  }

  /** The interrupt's timer ticks 62500 times a second: as often as 44100 samples on the desktop. */
  lemma TicksASecond()
    ensures TicksPerSample(Avr) == (5, 1)
    ensures var (num, den) := TicksPerSample(Host); 44100 * num == 62500 * den
  {
  }

  /** One short half pulse, or two on the desktop, then eight for every byte, from its lowest bit up and long for a one,
      then two long ones. */
  lemma PulsesAreBits(build: Build, data: seq<byte>, k: nat, i: nat)
    requires k < |Frame(data)| && i < 8
    ensures var p, f := Pulses(build, data), Frame(data);
            var skip := if build == Avr then 1 else 2;
            && |p| == skip + 8 * |f| + 2
            && !p[0] && !p[skip - 1] && p[|p| - 1] && p[|p| - 2]
            && (p[skip + 8 * k + i] <==> BitAt(f[k], i) == 1)
  {
    hide Frame, ByteBits;
    AllBitsLength(Frame(data));
    BitsInOrder(Frame(data), k, i);
  }

  lemma {:induction false} BitsInOrder(bytes: seq<byte>, k: nat, i: nat)
    requires k < |bytes| && i < 8
    ensures |AllBits(bytes)| == 8 * |bytes| && (AllBits(bytes)[8 * k + i] <==> BitAt(bytes[k], i) == 1)
    decreases k
  {
    AllBitsLength(bytes);
    assert AllBits(bytes) == ByteBits(bytes[0]) + AllBits(bytes[1..]);
    hide BitAt;
    if k > 0 {
      BitsInOrder(bytes[1..], k - 1, i);
      assert AllBits(bytes)[8 * k + i] == AllBits(bytes[1..])[8 * (k - 1) + i];
    }
  }

  /** The first sample is low on the microcontroller and high on the desktop, and the level changes with every half
      pulse. */
  lemma LevelsAlternate(build: Build, volume: int, data: seq<byte>)
    ensures var level := if build == Avr then -volume else volume;
            Recording(build, volume, data) == Wave(build, level, -level, Pulses(build, data))
  {
    hide Wave, Pulses;
  }

  lemma {:induction false} WaveStarts(build: Build, now: int, next: int, pulses: seq<bool>)
    requires pulses != []
    ensures var n := if build == Avr then (if pulses[0] then 13 else 5) else if pulses[0] then 36 else 15;
            var w := Wave(build, now, next, pulses);
            && |w| >= n && (forall k | 0 <= k < n :: w[k] == now)
            && w[n..] == Wave(build, next, now, pulses[1..])
  {
    SampleCounts();
    hide SampleCount;
  }

  // --- Readings ---------------------------------------------------------------------

  /** What the edge interrupt reads for a half pulse, in ticks of 16 microseconds rounded down. */
  function Reading(build: Build, long: bool): byte {
    if build == Avr then (if long then 65 else 25) else if long then 51 else 21
  }

  lemma ReadingIsMeasured(build: Build, long: bool)
    ensures Measured(build, 1, SampleCount(build, long), Reading(build, long))
  {
  }

  lemma PulsesHeard(build: Build, a: int, b: int, p: seq<bool>, skip: nat, n: nat) returns (ticks: seq<byte>)
    requires a != b && skip == (if build == Avr then 1 else 2)
    requires |p| == skip + n || |p| == skip + n + 1
    requires |p| > skip
    ensures Heard(build, 1, Wave(build, a, b, p), ticks) && |ticks| == 4 + n
  {
    RunsOfWave(build, a, b, p);
    hide Wave, Measured, SampleCount, RunLengths;
    var discarded: seq<byte> := [0, 0, 0, 0];
    ticks := discarded + seq<byte>(n, j requires 0 <= j < n => Reading(build, p[skip + j]));
    forall j | 4 <= j < |ticks|
      ensures Measured(build, 1, Counts(build, p)[skip + j - 4], ticks[j])
    {
      ReadingIsMeasured(build, p[skip + j - 4]);
    }
  }

  /** Every recording can be heard, with an edge at its very end or without. */
  lemma CanBeHeard(build: Build, a: int, b: int, data: seq<byte>, last: bool) returns (ticks: seq<byte>)
    requires a != b
    ensures Heard(build, 1, Wave(build, a, b, Pulses(build, data)), ticks)
    ensures |ticks| == 8 * |Frame(data)| + if last then 6 else 5
  {
    var p, skip := Pulses(build, data), if build == Avr then 1 else 2;
    AllBitsLength(Frame(data));
    hide Frame, AllBits, Wave, Heard;
    assert |p| == skip + 8 * |Frame(data)| + 2;
    ticks := PulsesHeard(build, a, b, p, skip, |p| - skip - if last then 0 else 1);
  }

  // --- Samples ----------------------------------------------------------------------

  /** A queued byte is the high byte of its sample, 128 above; full volume is 253 and 3. */
  lemma QueuedValues(v: int)
    requires -0x8000 <= v < 0x8000
    ensures 256 * (TapeSave.QueueByte(v) - 128) <= v < 256 * (TapeSave.QueueByte(v) - 127)
    ensures TapeSave.HIGH == 253 && TapeSave.LOW == 3
  {
  }
}

/** The timer of `save`: a sample every five overflows. */
module TapeTiming {
  import opened Bits
  import Rings
  import opened TapeFormat
  import opened TapeWave
  import opened TapePlayback
  import opened TapeSave

  /** The timer after `n` overflows in a row, and what it has played. */
  function Ticks(t: Timer, n: nat): (r: (Timer, seq<byte>))
    requires t.ring.Valid()
    ensures r.0.ring.Valid()
  {
    if n == 0 then (t, [])
    else
      var (u, played) := Ticks(t, n - 1);
      var (v, more) := Tick(u);
      (v, played + more)
  }

  lemma {:induction false} NothingYet(t: Timer, n: nat)
    requires t.ring.Valid() && t.cnt == 0 && n <= 4
    ensures Ticks(t, n) == (t.(cnt := n), [])
  {
    if n > 0 {
      NothingYet(t, n - 1);
      var none := Ticks(t, n - 1).1;
      assert none + none == none;
    } else {
      assert t == t.(cnt := 0);
    }
  }

  /** Four overflows play nothing and leave the ring; the fifth plays the oldest sample. */
  lemma FifthPlays(t: Timer, n: nat)
    requires t.ring.Valid() && t.cnt == 0 && !t.err && t.ring.Ready()
    ensures n <= 4 ==> Ticks(t, n) == (t.(cnt := n), [])
    ensures Ticks(t, 5) == (t.(ring := t.ring.Get()), [t.ring.Front()])
  {
    hide Tick;
    NothingYet(t, 4);
    if n <= 4 {
      NothingYet(t, n);
    }
    assert Tick(t.(cnt := 4)) == (t.(ring := t.ring.Get()), [t.ring.Front()]) by { TickPlays(t); }
    assert [] + [t.ring.Front()] == [t.ring.Front()];
  }

  lemma TickPlays(t: Timer)
    requires t.ring.Valid() && !t.err && t.ring.Ready()
    ensures Tick(t.(cnt := 4)) == (t.(cnt := 0, ring := t.ring.Get()), [t.ring.Front()])
  {
  }

  /** How often the timer has overflowed. */
  function Overflows(actions: seq<Action>): nat {
    if actions == [] then 0
    else Overflows(actions[..|actions| - 1]) + if actions[|actions| - 1] == TimerOverflow then 1 else 0
  }

  /** After each number of overflows a sample has been played, these numbers in order. */
  function PlayTimes(data: seq<byte>, s: Save, actions: seq<Action>): seq<nat>
    requires Saveable(data) && s.Valid()
  {
    if actions == [] then []
    else
      var before := actions[..|actions| - 1];
      PlayTimes(data, s, before)
      + if |Run(data, s, actions).played| > |Run(data, s, before).played| then [Overflows(actions)] else []
  }

  lemma StepPlays(data: seq<byte>, s: Save, a: Action)
    requires Saveable(data) && s.Valid() && s.cnt <= 4
    ensures var r := Step(data, s, a);
            && r.cnt <= 4 && (s.err ==> r.err && r.played == s.played)
            && (a == Main ==> r.played == s.played && r.cnt == s.cnt && r.err == s.err)
            && (a == TimerOverflow && !r.err && !s.where.Returned? ==>
                  if s.cnt == 4 then |r.played| == |s.played| + 1 && r.cnt == 0
                  else r.played == s.played && r.cnt == s.cnt + 1)
  {
    hide Sound, Boundary, Rings.Ring<byte>.Put, Rings.Ring<byte>.Get;
  }

  lemma ReturnedFailed(data: seq<byte>, s: Save, a: Action)
    requires Saveable(data) && s.Valid() && Invariant(data, s) && (s.where.Returned? ==> s.err)
    ensures Step(data, s, a).where.Returned? ==> Step(data, s, a).err
  {
    hide Sound, Boundary, Rings.Ring<byte>.Put, Rings.Ring<byte>.Get;
  }

  /** As long as there has been no underrun, every five overflows play a sample, in every interleaving with `save`. */
  lemma {:induction false} SamplesAreDue(data: seq<byte>, s: Save, actions: seq<Action>)
    requires Saveable(data) && Start(data, s)
    ensures var r := Run(data, s, actions);
            && r.cnt <= 4 && (r.where.Returned? ==> r.err)
            && (!r.err ==> 5 * |r.played| + r.cnt == Overflows(actions) + s.cnt
                           && |r.played| == (Overflows(actions) + s.cnt) / 5)
  {
    hide Step, Boundary;
    if actions != [] {
      var before := actions[..|actions| - 1];
      SamplesAreDue(data, s, before);
      StepPlays(data, Run(data, s, before), actions[|actions| - 1]);
      RunKeepsInvariant(data, s, before);
      hide Invariant;
      ReturnedFailed(data, Run(data, s, before), actions[|actions| - 1]);
    }
  }

  /** Sample number `k` is played exactly at overflow 5k + 5, less what the counter had at the start; so the time
      between two samples is what the receiver takes for it. */
  lemma {:induction false} PlayedInTime(data: seq<byte>, s: Save, actions: seq<Action>)
    requires Saveable(data) && Start(data, s)
    ensures var times := PlayTimes(data, s, actions);
            && |times| == |Run(data, s, actions).played|
            && forall k | 0 <= k < |times| :: times[k] == 5 * k + 5 - s.cnt
  {
    hide Step, Boundary;
    if actions != [] {
      var before, a := actions[..|actions| - 1], actions[|actions| - 1];
      PlayedInTime(data, s, before);
      SamplesAreDue(data, s, before);
      SamplesAreDue(data, s, actions);
      StepPlays(data, Run(data, s, before), a);
      FailsOnlyUnplayed(data, Run(data, s, before), a);
    }
  }

  lemma FailsOnlyUnplayed(data: seq<byte>, s: Save, a: Action)
    requires Saveable(data) && s.Valid()
    ensures var r := Step(data, s, a);
            r.played == s.played || (|r.played| == |s.played| + 1 && !r.err && r.cnt == 0)
  {
    hide Sound, Boundary, Rings.Ring<byte>.Put, Rings.Ring<byte>.Get;
  }

  /** Between any two samples pass as many ticks of 16 microseconds as the receiver measures for them. */
  lemma TicksAreOverflows(data: seq<byte>, s: Save, actions: seq<Action>, i: nat, j: nat)
    requires Saveable(data) && Start(data, s) && i <= j < |PlayTimes(data, s, actions)|
    ensures var times := PlayTimes(data, s, actions);
            var (num, den) := TicksPerSample(Avr);
            (times[j] - times[i]) * den == (j - i) * num
  {
    hide Boundary, Run;
    PlayedInTime(data, s, actions);
    hide PlayTimes;
  }
}
