/** `save` and `load` of the monitor, running against the interrupts that share the ring with them. */

/** `load`: edges arrive in the interrupt while main code takes bytes from the ring and decodes them. */
module TapeLoad {
  import opened Bits
  import opened Rings
  import opened TapeFormat
  import opened TapeReceiver
  import TapeDecoder

  /** The countdown of the waiting loop can reach 0 at any moment, also when a byte has just come. */
  datatype Event = Edge(ticks: byte) | Poll | Timeout

  /** `taken` are the bytes main code has read; `dropped` records an arrival while the ring was full, `late` a
      timeout. */
  datatype Load = Load(edges: Edges, ring: Ring<byte>, dec: TapeDecoder.State, ret: int,
                       taken: seq<byte>, dropped: bool, late: bool)
  {
    predicate Valid() {
      edges.Valid() && ring.Valid() && |ring.buf| == 32
    }

    /** The loop of `load` has ended. */
    predicate Stopped() {
      ret != 0 || dec.control == TapeDecoder.C_END || late
    }

    /** What `load` returns, as a `uint8_t`. */
    function Result(): byte {
      if dec.control == TapeDecoder.C_END then 0 else Wrap8(dec.control)
    }
  }

  function Step(s: Load, e: Event): (s': Load)
    requires s.Valid()
    ensures s'.Valid()
  {
    match e
    case Edge(ticks) =>
      var (edges, out) := EdgeStep(s.edges, ticks);
      if out == [] then s.(edges := edges)
      else s.(edges := edges, ring := s.ring.Put(out[0]), dropped := s.dropped || s.ring.Full())
    case Poll =>
      if s.Stopped() || !s.ring.Ready() then s
      else
        var b := s.ring.Front();
        var (dec, ret) := TapeDecoder.Step(s.dec, b);
        s.(ring := s.ring.Get(), dec := dec, ret := ret, taken := s.taken + [b])
    case Timeout => if s.Stopped() then s else s.(late := true)
  }

  function Run(s: Load, events: seq<Event>): (s': Load)
    requires s.Valid()
    ensures s'.Valid()
  {
    if events == [] then s else Step(Run(s, events[..|events| - 1]), events[|events| - 1])
  }

  /** The timer readings among the events. */
  function Readings(events: seq<Event>): seq<byte> {
    if events == [] then []
    else
      var before := Readings(events[..|events| - 1]);
      match events[|events| - 1]
      case Edge(ticks) => before + [ticks]
      case _ => before
  }

  predicate Start(s: Load) {
    && s.Valid() && s.ring.Contents() == [] && s.taken == [] && !s.dropped && !s.late
    && s.edges == IDLE && s.dec == TapeDecoder.INITIAL && s.ret == 0
  }

  /** Nothing dropped: taken bytes and ring contents are the bytes received so far, and the decoder is
      where feeding it the taken bytes leads. */
  predicate InStep(s: Load, readings: seq<byte>)
    requires s.Valid()
  {
    && (s.edges, s.taken + s.ring.Contents()) == Receive(IDLE, readings)
    && TapeDecoder.Feed(TapeDecoder.INITIAL, s.taken) == TapeDecoder.Outcome(s.dec, s.ret, |s.taken|)
  }

  lemma {:induction false} ReceiveOneMore(e: Edges, t: seq<byte>, ticks: byte)
    requires e.Valid()
    ensures var (e', out) := Receive(e, t);
            Receive(e, t + [ticks]) == (EdgeStep(e', ticks).0, out + EdgeStep(e', ticks).1)
    decreases |t|
  {
    hide WithBit, Long;
    if t == [] {
      assert [] + [ticks] == [ticks];
      assert Receive(EdgeStep(e, ticks).0, [ticks][1..]) == (EdgeStep(e, ticks).0, []);
      assert [] + EdgeStep(e, ticks).1 == EdgeStep(e, ticks).1 == EdgeStep(e, ticks).1 + [];
    } else {
      assert (t + [ticks])[1..] == t[1..] + [ticks];
      ReceiveOneMore(EdgeStep(e, t[0]).0, t[1..], ticks);
      var (e', out) := Receive(EdgeStep(e, t[0]).0, t[1..]);
      var first, last := EdgeStep(e, t[0]).1, EdgeStep(e', ticks).1;
      assert first + (out + last) == first + out + last;
    }
  }

  lemma {:induction false} FeedOneMore(d: TapeDecoder.State, bytes: seq<byte>, b: byte)
    requires var r := TapeDecoder.Feed(d, bytes);
             r.consumed == |bytes| && r.ret == 0 && r.dec.control != TapeDecoder.C_END
    ensures var r := TapeDecoder.Feed(d, bytes);
            var (d', ret) := TapeDecoder.Step(r.dec, b);
            TapeDecoder.Feed(d, bytes + [b]) == TapeDecoder.Outcome(d', ret, |bytes| + 1)
    decreases |bytes|
  {
    hide TapeDecoder.Step;
    if bytes == [] {
      assert [] + [b] == [b];
    } else {
      assert (bytes + [b])[1..] == bytes[1..] + [b];
      FeedOneMore(TapeDecoder.Step(d, bytes[0]).0, bytes[1..], b);
    }
  }

  lemma StepInStep(s: Load, readings: seq<byte>, e: Event)
    requires s.Valid() && InStep(s, readings) && !Step(s, e).dropped
    ensures InStep(Step(s, e), if e.Edge? then readings + [e.ticks] else readings)
  {
    hide EdgeStep, TapeDecoder.Step, TapeDecoder.Feed, Receive;
    hide Ring<byte>.Put, Ring<byte>.Get, Ring<byte>.Contents;
    var s' := Step(s, e);
    match e
    case Edge(ticks) =>
      ReceiveOneMore(IDLE, readings, ticks);
      var out := EdgeStep(s.edges, ticks).1;
      if out == [] {
        assert s.taken + s.ring.Contents() + out == s.taken + s.ring.Contents();
      } else {
        PutKeepsNewest(s.ring, out[0]);
        Holds(s.ring);
        assert out == [out[0]];
        assert s'.ring.Contents() == s.ring.Contents() + out;
        assert s.taken + (s.ring.Contents() + out) == s.taken + s.ring.Contents() + out;
      }
    case Poll =>
      if !s.Stopped() && s.ring.Ready() {
        GetTakesOldest(s.ring);
        FeedOneMore(TapeDecoder.INITIAL, s.taken, s.ring.Front());
        assert s.taken + ([s.ring.Front()] + s'.ring.Contents()) == s'.taken + s'.ring.Contents();
      }
    case Timeout =>
  }

  lemma {:induction false} RunInStep(s: Load, events: seq<Event>)
    requires Start(s) && !Run(s, events).dropped
    ensures InStep(Run(s, events), Readings(events))
  {
    hide Step, InStep;
    if events == [] {
      StartInStep(s);
    } else {
      var before := events[..|events| - 1];
      if Run(s, before).dropped {
        DroppedStays(Run(s, before), events[|events| - 1]);
      } else {
        RunInStep(s, before);
        StepInStep(Run(s, before), Readings(before), events[|events| - 1]);
      }
    }
  }

  lemma StartInStep(s: Load)
    requires Start(s)
    ensures InStep(s, [])
  {
    assert s.taken + s.ring.Contents() == [];
  }

  lemma DroppedStays(s: Load, e: Event)
    requires s.Valid() && s.dropped
    ensures Step(s, e).dropped
  {
  }

  /** Soundness, for any edges at all and any timeout: `load` returns 0 only after it has written exactly the data of
      a frame with which the received bytes begin. */
  lemma LoadIsSound(s: Load, events: seq<Event>)
    requires Start(s) && !Run(s, events).dropped && Run(s, events).Result() == 0
    ensures var written := Run(s, events).dec.written;
            Recordable(written) && Frame(written) <= Receive(IDLE, Readings(events)).1
  {
    hide Run, Receive, Readings, Frame, TapeDecoder.Feed, Ring<byte>.Contents;
    RunInStep(s, events);
    TapeDecoder.ControlStays(TapeDecoder.INITIAL, Run(s, events).taken);
    TapeDecoder.EndMeansFrame(Run(s, events).taken);
  }

  /** Completeness: whatever the interleaving, as long as main code keeps up with the ring and does not time out, a
      received frame is loaded: once `load` has nothing left to read, it has ended with exactly the data. */
  lemma LoadsFrame(s: Load, events: seq<Event>, data: seq<byte>)
    requires Start(s) && Recordable(data) && Receive(IDLE, Readings(events)).1 == Frame(data)
    requires var end := Run(s, events);
             !end.dropped && !end.late && (end.Stopped() || end.ring.Contents() == [])
    ensures var end := Run(s, events);
            end.Result() == 0 && end.dec.control == TapeDecoder.C_END && end.dec.written == data
  {
    hide Run, Receive, Readings, Frame, TapeDecoder.Feed, Ring<byte>.Contents;
    RunInStep(s, events);
    var end := Run(s, events);
    var f, t := Frame(data), end.taken;
    TapeDecoder.FrameReachesEnd(data, f);
    assert t <= f;
    if t != f {
      TapeDecoder.ShortFrameWaits(data, |t|);
    }
  }

  /** Unless the data is empty: then only a timeout stops `load`, and it does not return 0. Once nothing is left to
      read it has taken the parity for the first data byte and waits for more. */
  lemma EmptyNeverLoads(s: Load, events: seq<Event>)
    requires Start(s) && Receive(IDLE, Readings(events)).1 == Frame([]) && !Run(s, events).dropped
    ensures var end := Run(s, events);
            && end.Result() != 0 && (end.Stopped() ==> end.late)
            && (end.ring.Contents() == [] && !end.late ==>
                  end.dec.control == TapeDecoder.C_DATA && end.dec.written == [0])
  {
    hide Run, Receive, Readings, Frame, TapeDecoder.Feed, Ring<byte>.Contents;
    RunInStep(s, events);
    var f, t := Frame([]), Run(s, events).taken;
    assert t <= f;
    TapeDecoder.EmptyFrameWaits(|t|);
    TapeDecoder.ControlStays(TapeDecoder.INITIAL, t);
  }
}

/** `save`: main code queues samples and the timer interrupt plays them. */
module TapeSave {
  import opened Bits
  import opened Rings
  import opened TapeFormat
  import opened TapeWave

  /** `save_queue`: `(int8_t)(data >> 8) + 128` for a 16-bit sample. */
  function QueueByte(sample: int): byte
    requires -0x8000 <= sample < 0x8000
  {
    sample / 256 + 128
  }

  const VOLUME := 32000
  const HIGH: byte := QueueByte(VOLUME)
  const LOW: byte := QueueByte(-VOLUME)

  /** The bytes queued for some half pulses, starting from the low level. */
  function Queued(pulses: seq<bool>): (s: seq<byte>)
    ensures |s| == |Wave(Avr, LOW, HIGH, pulses)|
    ensures forall k | 0 <= k < |s| :: s[k] == Wave(Avr, LOW, HIGH, pulses)[k]
  {
    QueuedAreBytes(LOW, HIGH, pulses);
    var w := Wave(Avr, LOW, HIGH, pulses);
    seq(|w|, (k: nat) requires k < |w| && 0 <= w[k] < 256 => w[k])
  }

  lemma {:induction false} QueuedAreBytes(a: byte, b: byte, pulses: seq<bool>)
    ensures forall k | 0 <= k < |Wave(Avr, a, b, pulses)| :: 0 <= Wave(Avr, a, b, pulses)[k] < 256
    decreases |pulses|
  {
    if pulses != [] {
      QueuedAreBytes(b, a, pulses[1..]);
    }
  }

  /** The length of what is saved is the difference of two addresses in 16 bits: it can be 0, but not 65536. */
  predicate Saveable(data: seq<byte>) {
    |data| <= 0xffff
  }

  /** Everything `save` queues when nothing fails. */
  function Sound(data: seq<byte>): seq<byte> {
    Queued(Pulses(Avr, data))
  }

  /** It is the recording at full volume, sample by sample through `save_queue`. */
  lemma SoundIsRecording(data: seq<byte>)
    ensures var r := Recording(Avr, VOLUME, data);
            && |Sound(data)| == |r|
            && forall k | 0 <= k < |r| :: -0x8000 <= r[k] < 0x8000 && Sound(data)[k] == QueueByte(r[k])
  {
    hide Pulses;
    QueuedSamples(-VOLUME, VOLUME, Pulses(Avr, data));
  }

  lemma {:induction false} QueuedSamples(a: int, b: int, pulses: seq<bool>)
    requires -0x8000 <= a < 0x8000 && -0x8000 <= b < 0x8000
    ensures var w, q := Wave(Avr, a, b, pulses), Wave(Avr, QueueByte(a), QueueByte(b), pulses);
            |w| == |q| && forall k | 0 <= k < |w| :: -0x8000 <= w[k] < 0x8000 && q[k] == QueueByte(w[k])
    decreases |pulses|
  {
    hide SampleCount, QueueByte;
    if pulses != [] {
      QueuedSamples(b, a, pulses[1..]);
    }
  }

  /** The number of samples queued by the header and the first `i` data bytes. */
  function Boundary(data: seq<byte>, i: nat): nat
    requires i <= |data|
  {
    var n := Wrap16(|data|);
    |Wave(Avr, LOW, HIGH, Sync(Avr) + AllBits(Header(High(n), Low(n)) + data[..i]))|
  }

  lemma {:induction false} WaveOfPrefix(p: seq<bool>, q: seq<bool>)
    ensures |Wave(Avr, LOW, HIGH, p)| <= |Wave(Avr, LOW, HIGH, p + q)|
  {
    hide Wave;
    WaveAppend(Avr, LOW, HIGH, p, q);
  }

  lemma BoundariesGrow(data: seq<byte>, i: nat, j: nat)
    requires i <= j <= |data|
    ensures Boundary(data, i) <= Boundary(data, j) <= |Sound(data)|
  {
    hide Wave, Header, High, Low, Wrap16, AllBits, Sync, Parity;
    var n := Wrap16(|data|);
    var header := Header(High(n), Low(n));
    assert header + data[..j] == header + data[..i] + data[i..j];
    AllBitsAppend(header + data[..i], data[i..j]);
    var p := Sync(Avr) + AllBits(header + data[..i]);
    assert Sync(Avr) + AllBits(header + data[..j]) == p + AllBits(data[i..j]);
    WaveOfPrefix(p, AllBits(data[i..j]));
    var rest := data[j..] + [Parity(data)];
    assert Frame(data) == header + data[..j] + rest;
    AllBitsAppend(header + data[..j], rest);
    assert Pulses(Avr, data) == Sync(Avr) + AllBits(header + data[..j]) + (AllBits(rest) + TRAILER);
    WaveOfPrefix(Sync(Avr) + AllBits(header + data[..j]), AllBits(rest) + TRAILER);
  }

  /** Where `save` is. `Queueing(until, next)` writes samples up to position `until`. */
  datatype Where =
    | Queueing(until: nat, next: Where)
    | LoopTest(i: nat)
    | EndTest
    | ReadError
    | Draining(err: bool)
    | Returned(err: bool)

  /** `ready`: `ain_put` has seen a free place and is about to use it. `played` is what the interrupt took
      from the ring; `overwrote` records an `ain_put` that ran into the reader. */
  datatype Save = Save(where: Where, ready: bool, put: nat, ring: Ring<byte>, err: bool, cnt: nat,
                       played: seq<byte>, overwrote: bool)
  {
    predicate Valid() {
      ring.Valid() && |ring.buf| == 32
    }
  }

  datatype Action = Main | TimerOverflow

  function MainStep(data: seq<byte>, s: Save): (s': Save)
    requires Saveable(data) && s.Valid()
    ensures s'.Valid()
  {
    match s.where
    case Queueing(until, next) =>
      if s.put >= until || s.put >= |Sound(data)| then s.(where := next)
      else if !s.ready then s.(ready := !s.ring.Full())
      else s.(ring := s.ring.Put(Sound(data)[s.put]), put := s.put + 1, ready := false,
              overwrote := s.overwrote || s.ring.Full())
    case LoopTest(i) =>
      if i < |data| && !s.err then s.(where := Queueing(Boundary(data, i + 1), LoopTest(i + 1)))
      else s.(where := EndTest)
    case EndTest => s.(where := if s.err then ReadError else Queueing(|Sound(data)|, ReadError))
    case ReadError => s.(where := Draining(s.err))
    case Draining(err) => if s.err then s.(where := Returned(err)) else s
    case Returned(_) => s
  }

  /** The state the timer interrupt works on. */
  datatype Timer = Timer(ring: Ring<byte>, err: bool, cnt: nat)

  /** `TIMER2_OVF_vect`: the new state, and the sample played, if any. */
  function Tick(t: Timer): (r: (Timer, seq<byte>))
    requires t.ring.Valid()
    ensures r.0.ring.Valid() && |r.0.ring.buf| == |t.ring.buf|
  {
    if t.cnt < 4 then (t.(cnt := t.cnt + 1), [])
    else if !t.ring.Ready() || t.err then (t.(cnt := 0, err := true), [])
    else (t.(cnt := 0, ring := t.ring.Get()), [t.ring.Front()])
  }

  /** The interrupt is off once `save` has returned. */
  function TimerStep(s: Save): (s': Save)
    requires s.Valid()
    ensures s'.Valid()
  {
    if s.where.Returned? then s
    else
      var (t, played) := Tick(Timer(s.ring, s.err, s.cnt));
      s.(ring := t.ring, err := t.err, cnt := t.cnt, played := s.played + played)
  }

  function Step(data: seq<byte>, s: Save, a: Action): (s': Save)
    requires Saveable(data) && s.Valid()
    ensures s'.Valid()
  {
    match a
    case Main => MainStep(data, s)
    case TimerOverflow => TimerStep(s)
  }

  function Run(data: seq<byte>, s: Save, actions: seq<Action>): (s': Save)
    requires Saveable(data) && s.Valid()
    ensures s'.Valid()
  {
    if actions == [] then s
    else Step(data, Run(data, s, actions[..|actions| - 1]), actions[|actions| - 1])
  }

  /** After `aout_on`; `cnt` is left over from the previous use of the interrupt. */
  predicate Start(data: seq<byte>, s: Save)
    requires Saveable(data)
  {
    && s.Valid() && s.ring.Contents() == [] && s.put == 0 && s.played == []
    && !s.ready && !s.err && !s.overwrote && s.cnt <= 4
    && s.where == Queueing(Boundary(data, 0), LoopTest(0))
  }

  /** The progress main code has made, place by place. */
  predicate OnTrack(data: seq<byte>, s: Save)
    requires Saveable(data) && s.Valid()
  {
    var all := |Sound(data)|;
    match s.where
    case Queueing(until, next) =>
      && s.put <= until <= all
      && (if next.LoopTest? then next.i <= |data| && until == Boundary(data, next.i)
          else next == ReadError && until == all)
    case LoopTest(i) => i <= |data| && s.put == Boundary(data, i)
    case EndTest => s.err || s.put == Boundary(data, |data|)
    case ReadError => s.err || s.put == all
    case Draining(err) => err || (s.put == all && (s.err ==> s.ring.Contents() == []))
    case Returned(err) => err || (s.put == all && s.ring.Contents() == [])
  }

  /** What holds at every moment of every interleaving. */
  predicate Invariant(data: seq<byte>, s: Save)
    requires Saveable(data) && s.Valid()
  {
    && s.put <= |Sound(data)|
    && s.played + s.ring.Contents() == Sound(data)[..s.put]
    && !s.overwrote
    && (s.ready ==> !s.ring.Full())
    && OnTrack(data, s)
  }

  lemma MainKeepsInvariant(data: seq<byte>, s: Save)
    requires Saveable(data) && s.Valid() && Invariant(data, s)
    ensures Invariant(data, MainStep(data, s))
  {
    hide Sound, Boundary, Ring<byte>.Put, Ring<byte>.Contents;
    var s' := MainStep(data, s);
    if s.where.Queueing? && s.put < s.where.until && s.ready {
      PutKeepsNewest(s.ring, Sound(data)[s.put]);
      Holds(s.ring);
      assert s.played + (s.ring.Contents() + [Sound(data)[s.put]]) == Sound(data)[..s.put] + [Sound(data)[s.put]];
    } else if s.where.LoopTest? && s.where.i < |data| {
      BoundariesGrow(data, s.where.i, s.where.i + 1);
    } else if s.where.EndTest? {
      BoundariesGrow(data, |data|, |data|);
    }
  }

  lemma TimerKeepsInvariant(data: seq<byte>, s: Save)
    requires Saveable(data) && s.Valid() && Invariant(data, s)
    ensures Invariant(data, TimerStep(s))
  {
    hide Sound, Boundary, Ring<byte>.Get, Ring<byte>.Contents;
    Holds(s.ring);
    if s.ring.Ready() {
      var s' := TimerStep(s);
      GetTakesOldest(s.ring);
      Holds(s.ring.Get());
      assert s.played + ([s.ring.Front()] + s.ring.Get().Contents())
          == (s.played + [s.ring.Front()]) + s.ring.Get().Contents();
    }
  }

  lemma StartInvariant(data: seq<byte>, s: Save)
    requires Saveable(data) && Start(data, s)
    ensures Invariant(data, s)
  {
    hide Sound, Boundary;
    BoundariesGrow(data, 0, 0);
  }

  lemma {:induction false} RunKeepsInvariant(data: seq<byte>, s: Save, actions: seq<Action>)
    requires Saveable(data) && Start(data, s)
    ensures Invariant(data, Run(data, s, actions))
  {
    hide Sound, Boundary, MainStep, TimerStep, Invariant;
    if actions == [] {
      StartInvariant(data, s);
    } else {
      RunKeepsInvariant(data, s, actions[..|actions| - 1]);
      var before := Run(data, s, actions[..|actions| - 1]);
      match actions[|actions| - 1]
      case Main => MainKeepsInvariant(data, before);
      case TimerOverflow => TimerKeepsInvariant(data, before);
    }
  }

  /** Under every interleaving of `save` with the timer interrupt, what was played followed by what is in
      the ring is exactly what has been queued so far, in order; the overwriting branch of `ain_put` is
      never taken; and if `save` returns success, exactly the complete recording was played. */
  lemma SaveIsSafe(data: seq<byte>, s: Save, actions: seq<Action>)
    requires Saveable(data) && Start(data, s)
    ensures var end := Run(data, s, actions);
            && end.put <= |Sound(data)|
            && end.played + end.ring.Contents() == Sound(data)[..end.put]
            && !end.overwrote
            && (end.where == Returned(false) ==> end.played == Sound(data))
  {
    hide Sound, Boundary, Run;
    RunKeepsInvariant(data, s, actions);
    var end := Run(data, s, actions);
    if end.where == Returned(false) {
      assert Sound(data)[..end.put] == Sound(data);
    }
  }

  /** The timer interrupt as it runs: the output register, the error flag, the divide-by-five counter. */
  class AudioOut {
    const ring: RingBuffer<byte>
    var err: bool
    var cnt: nat
    var output: byte

    /** `aout_on` */
    constructor ()
      ensures ring.Valid() && fresh(ring) && fresh(ring.data)
      ensures ring.State().Contents() == [] && ring.data.Length == 32 && !err && cnt <= 4
    {
      ring := new RingBuffer<byte>(32);
      err, cnt, output := false, 4, 0;
    }

    /** The body of `ain_put` once its wait is over. */
    method Put(b: byte)
      requires ring.Valid() && !ring.State().Full()
      modifies ring, ring.data
      ensures ring.Valid() && ring.State().Contents() == old(ring.State().Contents()) + [b]
    {
      PutKeepsNewest(ring.State(), b);
      Holds(ring.State());
      ring.Put(b);
    }

    ghost function State(): Timer
      reads this, ring, ring.data
    {
      Timer(ring.State(), err, cnt)
    }

    method TimerOverflow()
      requires ring.Valid()
      modifies this, ring
      ensures ring.Valid() && State() == Tick(old(State())).0
      ensures Tick(old(State())).1 != [] ==> Tick(old(State())).1 == [output]
      ensures err && cnt == 0 ==> output == 0
    {
      if cnt < 4 {
        cnt := cnt + 1;
        return;
      }
      cnt := 0;
      var ready := ring.IsReady();
      if !ready || err {
        err := true;
        output := 0;
        return;
      }
      output := ring.Take(0);
    }
  }
}

/** A program saved by one machine and loaded by another. */
module TapeSaveThenLoad {
  import opened Bits
  import opened TapeFormat
  import opened TapeWave
  import opened TapeReceiver
  import opened TapePlayback
  import TapeDecoder
  import TapeSave
  import TapeLoad

  /** What a successful save has played is received as the frame of the data. */
  lemma SavedIsReceived(data: seq<byte>, s: TapeSave.Save, actions: seq<TapeSave.Action>, tolerance: nat,
                        ticks: seq<byte>)
    requires TapeSave.Saveable(data) && TapeSave.Start(data, s) && tolerance <= 13
    requires TapeSave.Run(data, s, actions).where == TapeSave.Returned(false)
    requires Heard(Avr, tolerance, TapeSave.Run(data, s, actions).played, ticks)
    ensures Receive(IDLE, ticks).1 == Frame(data)
  {
    hide TapeSave.Run, Heard, Receive, Frame, Wave, Pulses;
    TapeSave.SaveIsSafe(data, s, actions);
    var played: seq<int> := TapeSave.Run(data, s, actions).played;
    assert played == Wave(Avr, TapeSave.LOW, TapeSave.HIGH, Pulses(Avr, data));
    FrameIsReceived(Avr, tolerance, TapeSave.LOW, TapeSave.HIGH, data, ticks);
  }

  /** If `save` reports success for at least one byte, then whatever its interleaving was, a machine that hears what
      was played with timing errors of at most 13 ticks, and whose `load` keeps up with its ring and does not time
      out, loads the saved data. */
  lemma SaveThenLoad(data: seq<byte>, s: TapeSave.Save, actions: seq<TapeSave.Action>,
                     tolerance: nat, l: TapeLoad.Load, events: seq<TapeLoad.Event>)
    requires TapeSave.Saveable(data) && data != [] && TapeSave.Start(data, s)
    requires TapeSave.Run(data, s, actions).where == TapeSave.Returned(false)
    requires tolerance <= 13
    requires Heard(Avr, tolerance, TapeSave.Run(data, s, actions).played, TapeLoad.Readings(events))
    requires TapeLoad.Start(l)
    requires var end := TapeLoad.Run(l, events);
             !end.dropped && !end.late && (end.Stopped() || end.ring.Contents() == [])
    ensures var end := TapeLoad.Run(l, events);
            end.Result() == 0 && end.dec.control == TapeDecoder.C_END && end.dec.written == data
  {
    hide TapeSave.Run, TapeLoad.Run, TapeLoad.Readings, Heard, Receive, Frame, Wave;
    SavedIsReceived(data, s, actions, tolerance, TapeLoad.Readings(events));
    TapeLoad.LoadsFrame(l, events, data);
  }

  /** An empty save that reports success can be heard perfectly and is never loaded: `load` waits for more until it
      times out, and does not return 0. */
  lemma EmptySaveNeverLoads(s: TapeSave.Save, actions: seq<TapeSave.Action>,
                            tolerance: nat, l: TapeLoad.Load, events: seq<TapeLoad.Event>)
    requires TapeSave.Start([], s) && TapeSave.Run([], s, actions).where == TapeSave.Returned(false)
    requires tolerance <= 13
    requires Heard(Avr, tolerance, TapeSave.Run([], s, actions).played, TapeLoad.Readings(events))
    requires TapeLoad.Start(l) && !TapeLoad.Run(l, events).dropped
    ensures var end := TapeLoad.Run(l, events);
            && end.Result() != 0 && (end.Stopped() ==> end.late)
            && (end.ring.Contents() == [] && !end.late ==>
                  end.dec.control == TapeDecoder.C_DATA && end.dec.written == [0])
  {
    hide TapeSave.Run, TapeLoad.Run, TapeLoad.Readings, Heard, Receive, Frame, Wave;
    SavedIsReceived([], s, actions, tolerance, TapeLoad.Readings(events));
    TapeLoad.EmptyNeverLoads(l, events);
  }
}
