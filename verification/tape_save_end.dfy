/** Whether `save` ends. */
module TapeSaveEnds {
  import opened Bits
  import Rings
  import opened TapeFormat
  import opened TapeWave
  import opened TapeSave

  /** A state that some interleaving leads to; `cnt` is the divide-by-five counter of the interrupt. */
  predicate Possible(data: seq<byte>, s: Save)
    requires Saveable(data) && s.Valid()
  {
    Invariant(data, s) && s.cnt <= 4
  }

  /** After an underrun the interrupt takes no more samples, so that the ring has no room for the rest of the byte that
      is being encoded. */
  predicate Stuck(s: Save)
    requires s.Valid()
  {
    s.err && s.where.Queueing? && s.where.until - s.put > 31 - |s.ring.Contents()|
  }

  lemma StepIsPossible(data: seq<byte>, s: Save, a: Action)
    requires Saveable(data) && s.Valid() && Possible(data, s)
    ensures Possible(data, Step(data, s, a))
  {
    hide Invariant;
    match a
    case Main => MainKeepsInvariant(data, s);
    case TimerOverflow => TimerKeepsInvariant(data, s);
  }

  // --- Stuck for ever ---------------------------------------------------------------

  lemma StuckStays(data: seq<byte>, s: Save, a: Action)
    requires Saveable(data) && s.Valid() && Possible(data, s) && Stuck(s)
    ensures Stuck(Step(data, s, a))
  {
    hide Sound, Boundary, Rings.Ring<byte>.Put, Rings.Ring<byte>.Contents;
    Rings.Holds(s.ring);
    if a.Main? && s.ready {
      Rings.PutKeepsNewest(s.ring, Sound(data)[s.put]);
    }
  }

  lemma {:induction false} StuckForEver(data: seq<byte>, s: Save, actions: seq<Action>)
    requires Saveable(data) && s.Valid() && Possible(data, s) && Stuck(s)
    ensures Stuck(Run(data, s, actions)) && Possible(data, Run(data, s, actions))
  {
    hide Possible, Stuck, Step;
    if actions != [] {
      var before := actions[..|actions| - 1];
      StuckForEver(data, s, before);
      StuckStays(data, Run(data, s, before), actions[|actions| - 1]);
      StepIsPossible(data, Run(data, s, before), actions[|actions| - 1]);
    }
  }

  // --- A schedule that ends ---------------------------------------------------------

  /** The interrupt when main code waits for it, and main code otherwise. */
  function Choose(s: Save): Action
    requires s.Valid()
  {
    match s.where
    case Queueing(until, _) => if s.put < until && !s.ready && s.ring.Full() then TimerOverflow else Main
    case Draining(_) => if s.err then Main else TimerOverflow
    case _ => Main
  }

  /** How far main code is from the end, for data of `n` bytes. */
  function Rank(w: Where, n: nat): int {
    match w
    case Queueing(_, next) => if next.LoopTest? then 6 + 2 * (n - next.i) else 3
    case LoopTest(i) => 5 + 2 * (n - i)
    case EndTest => 4
    case ReadError => 2
    case Draining(_) => 1
    case Returned(_) => 0
  }

  /** No underrun yet, or only after everything was played. */
  predicate Hopeful(s: Save) {
    match s.where
    case Draining(err) => !err
    case Returned(err) => !err
    case _ => !s.err
  }

  /** What `Choose` makes smaller, in lexical order. */
  datatype Measure = Measure(rank: int, samples: int, trust: nat, held: nat, count: int, unready: nat)
  {
    predicate Less(other: Measure) {
      || rank < other.rank
      || (rank == other.rank && samples < other.samples)
      || (rank == other.rank && samples == other.samples && trust < other.trust)
      || (rank == other.rank && samples == other.samples && trust == other.trust && held < other.held)
      || (rank == other.rank && samples == other.samples && trust == other.trust && held == other.held
          && (count < other.count || (count == other.count && unready < other.unready)))
    }
  }

  function Left(data: seq<byte>, s: Save): Measure
    requires Saveable(data) && s.Valid()
  {
    Measure(Rank(s.where, |data|), |Sound(data)| - s.put, if s.err then 0 else 1, |s.ring.Contents()|, 4 - s.cnt,
            if s.ready then 0 else 1)
  }

  lemma ChosenStep(data: seq<byte>, s: Save)
    requires Saveable(data) && s.Valid() && Possible(data, s) && !Stuck(s) && !s.where.Returned?
    ensures var s' := Step(data, s, Choose(s));
            !Stuck(s') && Left(data, s').Less(Left(data, s)) && (Hopeful(s) ==> Hopeful(s'))
    ensures Left(data, s).rank >= 0 && Left(data, s).samples >= 0 && Left(data, s).count >= 0
  {
    hide Sound, Boundary, Rings.Ring<byte>.Put, Rings.Ring<byte>.Get, Rings.Ring<byte>.Contents;
    Rings.Holds(s.ring);
    if s.where.Queueing? && s.put < s.where.until && s.ready {
      Rings.PutKeepsNewest(s.ring, Sound(data)[s.put]);
    }
    if s.ring.Ready() {
      Rings.GetTakesOldest(s.ring);
    }
  }

  lemma {:induction false} Finishes(data: seq<byte>, start: Save, done: seq<Action>, s: Save)
    returns (actions: seq<Action>)
    requires Saveable(data) && start.Valid() && s == Run(data, start, done) && Possible(data, s) && !Stuck(s)
    ensures var end := Run(data, start, actions).where;
            end.Returned? && (Hopeful(s) ==> end == Returned(false))
    decreases Left(data, s).rank, Left(data, s).samples, Left(data, s).trust, Left(data, s).held,
              Left(data, s).count, Left(data, s).unready
  {
    hide Possible, Stuck, Step, Choose, Left;
    if s.where.Returned? {
      actions := done;
    } else {
      ChosenStep(data, s);
      StepIsPossible(data, s, Choose(s));
      assert (done + [Choose(s)])[..|done|] == done;
      actions := Finishes(data, start, done + [Choose(s)], Step(data, s, Choose(s)));
    }
  }

  lemma PossibleReturns(data: seq<byte>, s: Save)
    requires Saveable(data) && s.Valid() && Possible(data, s)
    ensures (exists actions :: Run(data, s, actions).where.Returned?) <==> !Stuck(s)
  {
    hide Possible, Run;
    assert Run(data, s, []) == s by { RunOfNone(data, s); }
    if Stuck(s) {
      forall actions
        ensures !Run(data, s, actions).where.Returned?
      {
        StuckForEver(data, s, actions);
      }
    } else {
      var actions := Finishes(data, s, [], s);
    }
  }

  lemma RunOfNone(data: seq<byte>, s: Save)
    requires Saveable(data) && s.Valid()
    ensures Run(data, s, []) == s
  {
  }

  lemma StartIsPossible(data: seq<byte>, s: Save)
    requires Saveable(data) && Start(data, s)
    ensures Possible(data, s)
  {
    hide Invariant;
    StartInvariant(data, s);
  }

  lemma {:induction false} RunIsPossible(data: seq<byte>, s: Save, actions: seq<Action>)
    requires Saveable(data) && Start(data, s)
    ensures Possible(data, Run(data, s, actions))
  {
    hide Possible, Step, Boundary;
    if actions == [] {
      StartIsPossible(data, s);
    } else {
      var before := actions[..|actions| - 1];
      RunIsPossible(data, s, before);
      StepIsPossible(data, Run(data, s, before), actions[|actions| - 1]);
    }
  }

  /** At every moment of every interleaving: `save` can still return if and only if it is not stuck. */
  lemma ReturnsUnlessStuck(data: seq<byte>, s: Save, actions: seq<Action>)
    requires Saveable(data) && Start(data, s)
    ensures var now := Run(data, s, actions);
            (exists more :: Run(data, now, more).where.Returned?) <==> !Stuck(now)
  {
    hide Possible, Run, Stuck, Boundary;
    RunIsPossible(data, s, actions);
    PossibleReturns(data, Run(data, s, actions));
  }

  /** Whatever is saved, from any start there is a schedule in which `save` reports success. */
  lemma SaveCanSucceed(data: seq<byte>, s: Save)
    requires Saveable(data) && Start(data, s)
    ensures exists actions :: Run(data, s, actions).where == Returned(false)
  {
    hide Possible, Run, Boundary;
    StartIsPossible(data, s);
    RunOfNone(data, s);
    var actions := Finishes(data, s, [], s);
  }

  /** There is a start. */
  lemma StartExists(data: seq<byte>) returns (s: Save)
    requires Saveable(data)
    ensures Start(data, s)
  {
    hide Boundary;
    var ring := Rings.Ring(seq(32, _ => 0), 0, 0);
    s := Save(Queueing(Boundary(data, 0), LoopTest(0)), false, 0, ring, false, 4, [], false);
  }

  lemma {:induction false} WaveIsLong(a: int, b: int, pulses: seq<bool>)
    ensures |Wave(Avr, a, b, pulses)| >= |pulses|
    decreases |pulses|
  {
    hide SampleCount;
    if pulses != [] {
      WaveIsLong(b, a, pulses[1..]);
    }
  }

  lemma HeaderIsLong(data: seq<byte>)
    ensures Boundary(data, 0) > 31
  {
    hide Wave, High, Low, Wrap16, AllBits;
    var header := Header(High(Wrap16(|data|)), Low(Wrap16(|data|))) + data[..0];
    AllBitsLength(header);
    WaveIsLong(LOW, HIGH, Sync(Avr) + AllBits(header));
  }

  lemma {:induction false} Underrun(data: seq<byte>, start: Save, done: seq<Action>, s: Save)
    returns (actions: seq<Action>)
    requires Saveable(data) && start.Valid() && s == Run(data, start, done) && s.cnt <= 4
    requires !s.ring.Ready() && s.put == 0 && s.where == Queueing(Boundary(data, 0), LoopTest(0)) && !s.err
    ensures Stuck(Run(data, start, actions))
    decreases 4 - s.cnt
  {
    hide Boundary, MainStep, Sound;
    HeaderIsLong(data);
    Rings.Holds(s.ring);
    actions := done + [TimerOverflow];
    assert actions[..|done|] == done;
    if s.cnt < 4 {
      actions := Underrun(data, start, actions, TimerStep(s));
    }
  }

  /** And there is one in which the interrupt finds the ring empty at once, and `save` never returns. */
  lemma SaveCanHang(data: seq<byte>, s: Save)
    requires Saveable(data) && Start(data, s)
    ensures exists actions :: Stuck(Run(data, s, actions))
  {
    hide Boundary, Run, Stuck;
    Rings.Holds(s.ring);
    RunOfNone(data, s);
    var actions := Underrun(data, s, [], s);
  }
}
