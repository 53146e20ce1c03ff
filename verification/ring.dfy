/** The ring buffers shared by interrupts and main code: when an arrival catches up with the reader,
    the oldest element is dropped. */
module Rings {
  /** `(i + 1) % n` */
  function Next(i: nat, n: nat): (j: nat)
    requires i < n
    ensures j == if i + 1 == n then 0 else i + 1
  {
    (i + 1) % n
  }

  /** The last `n` elements. */
  function Newest<T>(s: seq<T>, n: nat): seq<T> {
    if |s| <= n then s else s[|s| - n..]
  }

  datatype Ring<T> = Ring(buf: seq<T>, start: nat, end: nat) {
    predicate Valid() {
      |buf| > 1 && start < |buf| && end < |buf|
    }

    predicate Full()
      requires Valid()
    {
      Next(end, |buf|) == start
    }

    predicate Ready() {
      end != start
    }

    function Put(x: T): (r: Ring<T>)
      requires Valid()
      ensures r.Valid()
    {
      var e := Next(end, |buf|);
      Ring(buf[end := x], if e == start then Next(start, |buf|) else start, e)
    }

    function Front(): T
      requires Valid() && Ready()
    {
      buf[start]
    }

    function Get(): (r: Ring<T>)
      requires Valid()
      ensures r.Valid()
    {
      if Ready() then this.(start := Next(start, |buf|)) else this
    }

    /** The unread elements, oldest first. */
    function Contents(): seq<T>
      requires Valid()
    {
      if start <= end then buf[start..end] else buf[start..] + buf[..end]
    }
  }

  lemma Holds<T>(r: Ring<T>)
    requires r.Valid()
    ensures |r.Contents()| <= |r.buf| - 1
    ensures r.Full() <==> |r.Contents()| == |r.buf| - 1
    ensures r.Ready() <==> r.Contents() != []
  {
  }

  /** An arrival is kept; of the unread elements the newest that fit survive. */
  lemma PutKeepsNewest<T>(r: Ring<T>, x: T)
    requires r.Valid()
    ensures r.Put(x).Contents() == Newest(r.Contents() + [x], |r.buf| - 1)
  {
    Holds(r);
    var held, s := r.Contents(), r.Put(x);
    if r.Full() {
      assert s.Contents() == held[1..] + [x];
      assert (held + [x])[1..] == held[1..] + [x];
    } else {
      assert s.Contents() == held + [x];
    }
  }

  lemma GetTakesOldest<T>(r: Ring<T>)
    requires r.Valid() && r.Ready()
    ensures [r.Front()] + r.Get().Contents() == r.Contents()
  {
    var held := r.Contents();
    assert held[0] == r.Front() && held[1..] == r.Get().Contents();
  }

  class RingBuffer<T(0)> {
    const data: array<T>
    var start: nat
    var end: nat

    ghost function State(): Ring<T>
      reads this, data
    {
      Ring(data[..], start, end)
    }

    ghost predicate Valid()
      reads this, data
    {
      State().Valid()
    }

    constructor (size: nat)
      requires size > 1
      ensures Valid() && fresh(data)
      ensures data.Length == size && State().Contents() == []
    {
      data := new T[size];
      start, end := 0, 0;
    }

    method IsFull() returns (full: bool)
      requires Valid()
      ensures full <==> State().Full()
    {
      full := (end + 1) % data.Length == start;
    }

    method IsReady() returns (ready: bool)
      requires Valid()
      ensures ready <==> State().Ready()
    {
      ready := end != start;
    }

    /** An empty ring reads as `none`. */
    method Take(none: T) returns (x: T)
      requires Valid()
      modifies this
      ensures Valid() && State() == old(State()).Get()
      ensures x == if old(State()).Ready() then old(State()).Front() else none
    {
      x := none;
      if end != start {
        x := data[start];
        start := Next(start, data.Length);
      }
    }

    method Put(x: T)
      requires Valid()
      modifies this, data
      ensures Valid() && State() == old(State()).Put(x)
    {
      data[end] := x;
      end := Next(end, data.Length);
      if end == start {
        start := Next(start, data.Length);
      }
    }

    method Flush()
      requires Valid()
      modifies this
      ensures Valid() && State().Contents() == [] && State().buf == old(State()).buf
    {
      start, end := 0, 0;
    }
  }

  // --- Any interleaving of arrivals and reads -------------------------------------

  datatype Event<T> = Arrival(x: T) | Read

  /** The ring, what has been read so far, what has arrived so far, and how often something arrived while the ring was
      full, which is how much has been overwritten. */
  datatype Run<T> = Run(ring: Ring<T>, delivered: seq<T>, arrived: seq<T>, dropped: nat)

  function StepRun<T>(s: Run<T>, e: Event<T>): (s': Run<T>)
    requires s.ring.Valid()
    ensures s'.ring.Valid() && |s'.ring.buf| == |s.ring.buf|
  {
    match e
    case Arrival(x) => s.(ring := s.ring.Put(x), arrived := s.arrived + [x],
                          dropped := s.dropped + if s.ring.Full() then 1 else 0)
    case Read => if s.ring.Ready()
                 then s.(ring := s.ring.Get(), delivered := s.delivered + [s.ring.Front()])
                 else s
  }

  function RunOf<T>(s: Run<T>, events: seq<Event<T>>): (s': Run<T>)
    requires s.ring.Valid()
    ensures s'.ring.Valid() && |s'.ring.buf| == |s.ring.buf|
  {
    if events == [] then s else StepRun(RunOf(s, events[..|events| - 1]), events[|events| - 1])
  }

  predicate Subsequence<T(==)>(a: seq<T>, b: seq<T>) {
    if a == [] then true
    else if b == [] then false
    else if a[|a| - 1] == b[|b| - 1] && Subsequence(a[..|a| - 1], b[..|b| - 1]) then true
    else Subsequence(a, b[..|b| - 1])
  }

  /** The items of a subsequence stand in the other sequence at increasing places. */
  lemma {:induction false} PlacesOf<T>(a: seq<T>, b: seq<T>) returns (at: seq<nat>)
    requires Subsequence(a, b)
    ensures |at| == |a| && (forall i | 0 <= i < |at| :: at[i] < |b| && b[at[i]] == a[i])
    ensures forall i, j | 0 <= i < j < |at| :: at[i] < at[j]
    decreases |b|
  {
    if a == [] {
      at := [];
    } else if a[|a| - 1] == b[|b| - 1] && Subsequence(a[..|a| - 1], b[..|b| - 1]) {
      at := PlacesOf(a[..|a| - 1], b[..|b| - 1]);
      at := at + [|b| - 1];
    } else {
      at := PlacesOf(a, b[..|b| - 1]);
    }
  }

  /** `arrived` splits into a part that is over and a suffix still unread; what was delivered is a
      subsequence of the part that is over, which misses exactly the dropped elements. */
  predicate Accounts<T(==)>(held: seq<T>, delivered: seq<T>, arrived: seq<T>, dropped: nat) {
    var over := |arrived| - |held|;
    && over >= 0
    && arrived[over..] == held
    && Subsequence(delivered, arrived[..over])
    && |delivered| + dropped + |held| == |arrived|
    && (dropped == 0 ==> delivered == arrived[..over])
  }

  predicate Consistent<T(==)>(s: Run<T>)
    requires s.ring.Valid()
  {
    && |s.ring.Contents()| <= |s.ring.buf| - 1
    && Accounts(s.ring.Contents(), s.delivered, s.arrived, s.dropped)
  }

  lemma {:induction false} SubsequenceOfLonger<T>(a: seq<T>, b: seq<T>, c: seq<T>)
    requires Subsequence(a, b)
    ensures Subsequence(a, b + c)
    decreases |c|
  {
    if c == [] {
      assert b + c == b;
    } else {
      assert (b + c)[..|b + c| - 1] == b + c[..|c| - 1];
      SubsequenceOfLonger(a, b, c[..|c| - 1]);
    }
  }

  lemma SubsequenceWithLast<T>(a: seq<T>, b: seq<T>, x: T)
    requires Subsequence(a, b)
    ensures Subsequence(a + [x], b + [x])
  {
    assert (a + [x])[..|a|] == a && (b + [x])[..|b|] == b;
  }

  lemma ArrivalAccounts<T>(held: seq<T>, delivered: seq<T>, arrived: seq<T>, dropped: nat, x: T)
    requires Accounts(held, delivered, arrived, dropped)
    ensures Accounts(held + [x], delivered, arrived + [x], dropped)
    ensures held != [] ==> Accounts(held[1..] + [x], delivered, arrived + [x], dropped + 1)
  {
    hide Subsequence;
    var over := |arrived| - |held|;
    assert (arrived + [x])[..over] == arrived[..over];
    assert (arrived + [x])[over..] == arrived[over..] + [x];
    if held != [] {
      SubsequenceOfLonger(delivered, arrived[..over], [held[0]]);
      assert (arrived + [x])[..over + 1] == arrived[..over] + [held[0]];
      assert (arrived + [x])[over + 1..] == held[1..] + [x];
    }
  }

  lemma ReadAccounts<T>(held: seq<T>, delivered: seq<T>, arrived: seq<T>, dropped: nat)
    requires Accounts(held, delivered, arrived, dropped) && held != []
    ensures Accounts(held[1..], delivered + [held[0]], arrived, dropped)
  {
    hide Subsequence;
    var over := |arrived| - |held|;
    SubsequenceWithLast(delivered, arrived[..over], held[0]);
    assert arrived[..over + 1] == arrived[..over] + [held[0]];
  }

  lemma StepConsistent<T>(s: Run<T>, e: Event<T>)
    requires s.ring.Valid() && Consistent(s)
    ensures Consistent(StepRun(s, e))
  {
    hide Accounts;
    hide Ring<T>.Contents;
    hide Ring<T>.Put;
    hide Ring<T>.Get;
    var held := s.ring.Contents();
    Holds(s.ring);
    match e
    case Arrival(x) =>
      PutKeepsNewest(s.ring, x);
      Holds(s.ring.Put(x));
      ArrivalAccounts(held, s.delivered, s.arrived, s.dropped, x);
      if s.ring.Full() {
        assert (held + [x])[1..] == held[1..] + [x];
      }
    case Read =>
      if s.ring.Ready() {
        GetTakesOldest(s.ring);
        assert s.ring.Get().Contents() == held[1..];
        ReadAccounts(held, s.delivered, s.arrived, s.dropped);
      }
  }

  /** Under every interleaving of arrivals and reads the ring holds the newest unread elements in order,
      reads deliver a subsequence of the arrivals, from which exactly as many are missing as came while it was full. */
  lemma {:induction false} AnyInterleaving<T>(s: Run<T>, events: seq<Event<T>>)
    requires s.ring.Valid() && s.ring.Contents() == [] && s.delivered == [] && s.arrived == [] && s.dropped == 0
    ensures Consistent(RunOf(s, events))
  {
    if events != [] {
      AnyInterleaving(s, events[..|events| - 1]);
      StepConsistent(RunOf(s, events[..|events| - 1]), events[|events| - 1]);
    }
  }
}
