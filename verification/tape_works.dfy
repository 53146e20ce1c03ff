/** Nothing that the tape laws assume is impossible: every program can be saved, heard and loaded again. */
module TapeWorks {
  import opened Bits
  import Rings
  import opened TapeFormat
  import opened TapeWave
  import opened TapeReceiver
  import opened TapePlayback
  import opened TapeLoad
  import TapeDecoder
  import TapeNumbers
  import TapeSave
  import TapeSaveEnds
  import TapeSaveThenLoad

  /** Main code reads after every edge. */
  function Prompt(ticks: seq<byte>): seq<Event> {
    if ticks == [] then [] else Prompt(ticks[..|ticks| - 1]) + [Edge(ticks[|ticks| - 1])] + [Poll]
  }

  lemma {:induction false} ReadingsOfPrompt(ticks: seq<byte>)
    ensures Readings(Prompt(ticks)) == ticks
  {
    if ticks != [] {
      var n := |ticks| - 1;
      var before := Prompt(ticks[..n]);
      ReadingsOfPrompt(ticks[..n]);
      assert (before + [Edge(ticks[n])] + [Poll])[..|before| + 1] == before + [Edge(ticks[n])];
      assert (before + [Edge(ticks[n])])[..|before|] == before;
      assert ticks == ticks[..n] + [ticks[n]];
    }
  }

  /** There is nothing left to read, and nothing has been lost. */
  predicate UpToDate(s: Load) {
    s.Valid() && s.ring.Contents() == [] && !s.dropped && !s.late
  }

  lemma OneEdge(s: Load, ticks: byte)
    requires UpToDate(s) && (s.Stopped() ==> EdgeStep(s.edges, ticks).1 == [])
    ensures UpToDate(Step(Step(s, Edge(ticks)), Poll))
  {
    hide EdgeStep;
    hide Rings.Ring<byte>.Put, Rings.Ring<byte>.Get, Rings.Ring<byte>.Contents, Rings.Ring<byte>.Full,
         Rings.Ring<byte>.Ready;
    Rings.Holds(s.ring);
    var out := EdgeStep(s.edges, ticks).1;
    var t := Step(s, Edge(ticks));
    Rings.Holds(t.ring);
    if out != [] {
      Rings.PutKeepsNewest(s.ring, out[0]);
      assert [] + [out[0]] == [out[0]];
      assert t.ring.Contents() == [out[0]];
      Rings.GetTakesOldest(t.ring);
    }
  }

  /** A machine that reads after every edge keeps up. */
  lemma {:induction false} PromptKeepsUp(s: Load, ticks: seq<byte>, data: seq<byte>)
    requires Start(s) && Recordable(data) && Receive(IDLE, ticks).1 <= Frame(data)
    ensures UpToDate(Run(s, Prompt(ticks)))
    decreases |ticks|
  {
    hide Receive, Frame, EdgeStep, Step, UpToDate;
    if ticks == [] {
      assert UpToDate(s) by { Starts(s); }
    } else {
      var n := |ticks| - 1;
      var before := ticks[..n];
      assert ticks == before + [ticks[n]];
      ReceiveOneMore(IDLE, before, ticks[n]);
      PromptKeepsUp(s, before, data);
      NothingMore(s, before, ticks[n], data);
      var r := Run(s, Prompt(before));
      OneEdge(r, ticks[n]);
      var edge := Prompt(before) + [Edge(ticks[n])];
      assert edge[..|edge| - 1] == Prompt(before) && (edge + [Poll])[..|edge|] == edge;
    }
  }

  lemma Starts(s: Load)
    requires Start(s)
    ensures UpToDate(s)
  {
  }

  /** A load that has stopped has the whole frame. */
  lemma NothingMore(s: Load, before: seq<byte>, last: byte, data: seq<byte>)
    requires Start(s) && Recordable(data) && Receive(IDLE, before + [last]).1 <= Frame(data)
    requires UpToDate(Run(s, Prompt(before)))
    ensures var r := Run(s, Prompt(before));
            r.edges == Receive(IDLE, before).0 && (r.Stopped() ==> EdgeStep(r.edges, last).1 == [])
  {
    hide Receive, Frame, EdgeStep, Run, Prompt;
    hide TapeDecoder.Feed;
    var r := Run(s, Prompt(before));
    RunInStep(s, Prompt(before));
    ReadingsOfPrompt(before);
    ReceiveOneMore(IDLE, before, last);
    assert r.taken + [] == r.taken == Receive(IDLE, before).1;
    if r.Stopped() && EdgeStep(r.edges, last).1 != [] {
      var k := |r.taken|;
      assert r.taken == Frame(data)[..k] && k < |Frame(data)|;
      TapeDecoder.ShortFrameWaits(data, k);
    }
  }

  lemma LoadExists() returns (l: Load)
    ensures Start(l)
  {
    var ring := Rings.Ring(seq(32, _ => 0), 0, 0);
    l := Load(IDLE, ring, TapeDecoder.INITIAL, 0, [], false, false);
  }

  /** The ring of `load` holds 31 bytes. */
  lemma LoadHolds(l: Load)
    requires l.Valid()
    ensures |l.ring.Contents()| <= 31 && (l.ring.Full() <==> |l.ring.Contents()| == 31)
  {
    Rings.Holds(l.ring);
  }

  /** Every recording of 1 to 65536 bytes, by either encoder, has readings with which a machine that reads after every
      edge loads it. */
  lemma RecordingLoads(build: Build, a: int, b: int, data: seq<byte>, last: bool, l: Load) returns (ticks: seq<byte>)
    requires a != b && Recordable(data) && Start(l)
    ensures Heard(build, 1, Wave(build, a, b, Pulses(build, data)), ticks)
    ensures var end := Run(l, Prompt(ticks));
            UpToDate(end) && end.Result() == 0 && end.dec.written == data && Readings(Prompt(ticks)) == ticks
  {
    hide Wave, Pulses, Heard, Receive, Frame, Run, Prompt, Readings;
    ticks := TapeNumbers.CanBeHeard(build, a, b, data, last);
    FrameIsReceived(build, 1, a, b, data, ticks);
    PromptKeepsUp(l, ticks, data);
    ReadingsOfPrompt(ticks);
    LoadsFrame(l, Prompt(ticks), data);
  }

  /** Any program of 1 to 65535 bytes: there is a run of `save` that reports success, and a run of `load` that hears
      what was played, returns 0 and has the program. */
  lemma ProgramsComeBack(data: seq<byte>)
      returns (s: TapeSave.Save, actions: seq<TapeSave.Action>, l: Load, events: seq<Event>)
    requires 1 <= |data| <= 65535
    ensures TapeSave.Start(data, s) && TapeSave.Run(data, s, actions).where == TapeSave.Returned(false) && Start(l)
    ensures Heard(Avr, 1, TapeSave.Run(data, s, actions).played, Readings(events))
    ensures Run(l, events).Result() == 0 && Run(l, events).dec.written == data
  {
    hide Heard, Run, Prompt, Readings, Wave, Pulses, TapeSave.Run;
    s := TapeSaveEnds.StartExists(data);
    TapeSaveEnds.SaveCanSucceed(data, s);
    actions :| TapeSave.Run(data, s, actions).where == TapeSave.Returned(false);
    TapeSave.SaveIsSafe(data, s, actions);
    l := LoadExists();
    var ticks := RecordingLoads(Avr, TapeSave.LOW, TapeSave.HIGH, data, true, l);
    events := Prompt(ticks);
    var played: seq<int> := TapeSave.Run(data, s, actions).played;
    assert played == Wave(Avr, TapeSave.LOW, TapeSave.HIGH, Pulses(Avr, data));
  }

  lemma {:induction false} LateChangesNothing(s: Load, events: seq<Event>)
    requires s.Valid() && s.late
    ensures var r := Run(s, events); r.late && r.taken == s.taken && r.dec == s.dec && r.ret == s.ret
  {
    hide EdgeStep;
    hide TapeDecoder.Step;
    if events != [] {
      LateChangesNothing(s, events[..|events| - 1]);
    }
  }

  lemma {:induction false} RunAfter(s: Load, a: seq<Event>, b: seq<Event>)
    requires s.Valid()
    ensures Run(s, a + b) == Run(Run(s, a), b)
    decreases |b|
  {
    hide Step;
    if b == [] {
      assert a + b == a;
    } else {
      assert (a + b)[..|a + b| - 1] == a + b[..|b| - 1];
      RunAfter(s, a, b[..|b| - 1]);
    }
  }

  lemma OneTimeout(s: Load, events: seq<Event>)
    requires s.Valid() && !Run(s, events).Stopped()
    ensures var r, late := Run(s, events), Run(s, events + [Timeout]); late == r.(late := true)
  {
    var e := events + [Timeout];
    assert e[..|events|] == events && Run(s, e) == Step(Run(s, events), Timeout);
  }

  lemma NoResultYet(s: Load, events: seq<Event>)
    requires Start(s) && !Run(s, events).Stopped() && !Run(s, events).dropped
    ensures Run(s, events).Result() != 0
  {
    hide Run, Readings, Receive, TapeDecoder.Feed, Start;
    RunInStep(s, events);
    assert s.Valid() by { Starts(s); }
    TapeDecoder.ControlStays(TapeDecoder.INITIAL, Run(s, events).taken);
  }

  /** A timeout ends a `load` that has not stopped yet: whatever follows, it takes nothing more and does not return
      0. */
  lemma TimeoutEnds(s: Load, events: seq<Event>, after: seq<Event>)
    requires Start(s) && !Run(s, events).Stopped() && !Run(s, events).dropped
    ensures var r := Run(s, events + [Timeout] + after); r.taken == Run(s, events).taken && r.Result() != 0
  {
    hide Run, Step;
    NoResultYet(s, events);
    OneTimeout(s, events);
    RunAfter(s, events + [Timeout], after);
    LateChangesNothing(Run(s, events + [Timeout]), after);
  }
}
