/** The framing of a program on tape, and the decoder that checks it. */

/** What a well-formed recording contains, independently of how it is decoded. */
module TapeFormat {

  import opened Bits

  const MAGIC: byte := 0xff

  /** XOR of a run of bytes. */
  function Parity(data: seq<byte>): byte {
    if data == [] then 0 else Xor(Parity(data[..|data| - 1]), data[|data| - 1])
  }

  /** The number of data bytes a length field announces: 0 stands for 65536. */
  function Announced(hi: byte, lo: byte): nat {
    if Word(lo, hi) == 0 then 0x1_0000 else Word(lo, hi)
  }

  /** Magic, length (high byte first), XOR of the length bytes. */
  function Header(hi: byte, lo: byte): seq<byte> {
    [MAGIC, hi, lo, Xor(hi, lo)]
  }

  /** What a length field can announce. */
  predicate Recordable(data: seq<byte>) {
    1 <= |data| <= 0x1_0000
  }

  /** A whole recording: header, data, XOR of the data. The length is cut to 16 bits, so that no data is recorded
      with the length field of 65536 bytes. */
  function Frame(data: seq<byte>): seq<byte> {
    var n := Wrap16(|data|);
    Header(High(n), Low(n)) + data + [Parity(data)]
  }

  lemma LengthField(n: nat)
    requires 1 <= n <= 0x1_0000
    ensures Announced(High(Wrap16(n)), Low(Wrap16(n))) == n
  {
    hide High, Low;
    WordOfHalves(Wrap16(n));
  }

  lemma AnnouncedInFrame(data: seq<byte>)
    requires Recordable(data)
    ensures var f := Frame(data);
            && |f| == |data| + 5 && Announced(f[1], f[2]) == |data|
            && f[0] == MAGIC && f[3] == Xor(f[1], f[2])
            && f[4..|f| - 1] == data && f[|f| - 1] == Parity(data)
  {
    hide Xor, High, Low, Header, Parity, Wrap16, Announced;
    var n := Wrap16(|data|);
    LengthField(|data|);
    FrameParts(High(n), Low(n), data);
  }

  lemma FrameParts(hi: byte, lo: byte, data: seq<byte>)
    ensures var f := Header(hi, lo) + data + [Parity(data)];
            && |f| == |data| + 5 && f[0] == MAGIC && f[1] == hi && f[2] == lo && f[3] == Xor(hi, lo)
            && f[4..|f| - 1] == data && f[|f| - 1] == Parity(data)
  {
    hide Xor;
  }

  /** Changing one byte changes the XOR of the whole. */
  lemma {:induction false} ParityDetects(data: seq<byte>, i: nat, v: byte)
    requires i < |data| && v != data[i]
    ensures Parity(data[i := v]) != Parity(data)
  {
    hide Xor;
    var last := |data| - 1;
    if i < last {
      assert data[i := v][..last] == data[..last][i := v];
      ParityDetects(data[..last], i, v);
      XorDetects(data[last], Parity(data[..last]), Parity(data[..last][i := v]));
    } else {
      assert data[i := v][..last] == data[..last];
      XorDetects(Parity(data[..last]), data[last], v);
    }
  }
}

/** `struct decoder_struct`, `init_decoder` and `decode`. */
module TapeDecoder {
  import opened Bits
  import opened TapeFormat

  const C_MAGIC := 1
  const C_LEN0 := 2
  const C_LEN1 := 3
  const C_PAR0 := 4
  const C_DATA := 5
  const C_PAR1 := 6
  const C_END := 7

  /** The decoder's fields; `written` is what went through the `write` callback. */
  datatype State = State(control: int, length: nat, parity: byte, count: nat, written: seq<byte>)

  const INITIAL := State(C_MAGIC, 0, 0, 0, [])

  /** A parity or magic failure: `control` changes sign and is returned. */
  function Fail(d: State): (State, int) {
    (d.(control := -d.control), -d.control)
  }

  function Step(d: State, byte: byte): (State, int) {
    if d.control == C_MAGIC then
      if byte != MAGIC then Fail(d) else (d.(control := C_LEN0), 0)
    else if d.control == C_LEN0 then
      (d.(length := byte, parity := Xor(d.parity, byte), control := C_LEN1), 0)
    else if d.control == C_LEN1 then
      (d.(length := Wrap16(d.length * 256) + byte, parity := Xor(d.parity, byte), control := C_PAR0), 0)
    else if d.control == C_PAR0 then
      if byte != d.parity then Fail(d) else (d.(parity := 0, control := C_DATA), 0)
    else if d.control == C_DATA then
      var count := Wrap16(d.count + 1);
      (d.(count := count, parity := Xor(d.parity, byte), written := d.written + [byte],
          control := if count == d.length then C_PAR1 else C_DATA), 0)
    else if d.control == C_PAR1 then
      if byte != d.parity then Fail(d) else (d.(control := C_END), 0)
    else if d.control == C_END then
      (d, 0)
    else
      Fail(d)
  }

  /** Where `load` stops: at the end of the stream, at an error, or at C_END. */
  datatype Outcome = Outcome(dec: State, ret: int, consumed: nat)

  function Feed(d: State, bytes: seq<byte>): Outcome
    decreases |bytes|
  {
    if bytes == [] then
      Outcome(d, 0, 0)
    else
      var (d', ret) := Step(d, bytes[0]);
      if ret != 0 || d'.control == C_END then
        Outcome(d', ret, 1)
      else
        var rest := Feed(d', bytes[1..]);
        rest.(consumed := rest.consumed + 1)
  }

  class Decoder {
    var control: int
    var length: nat
    var parity: byte
    var count: nat
    var written: seq<byte>

    ghost function Fields(): State
      reads this
    {
      State(control, length, parity, count, written)
    }

    constructor ()
      ensures Fields() == INITIAL
    {
      control, length, parity, count, written := C_MAGIC, 0, 0, 0, [];
    }

    method Decode(byte: byte) returns (ret: int)
      modifies this
      ensures (Fields(), ret) == Step(old(Fields()), byte)
    {
      match control {
      case 1 =>
        if byte != MAGIC {
          control := control * -1;
          return control;
        }
        control := control + 1;
      case 2 =>
        length := byte;
        parity := Xor(parity, byte);
        control := control + 1;
      case 3 =>
        length := Wrap16(length * 256) + byte;
        parity := Xor(parity, byte);
        control := control + 1;
      case 4 =>
        if byte != parity {
          control := control * -1;
          return control;
        }
        parity := 0;
        control := control + 1;
      case 5 =>
        count := Wrap16(count + 1);
        parity := Xor(parity, byte);
        written := written + [byte];
        if count == length {
          control := control + 1;
        }
      case 6 =>
        if byte != parity {
          control := control * -1;
          return control;
        }
        control := control + 1;
      case 7 =>
        return 0;
      case _ =>
        control := control * -1;
        return control;
      }
      return 0;
    }

    /** The byte loop of `load`, over the bytes that arrive before it times out. */
    method Load(bytes: seq<byte>) returns (ret: int, consumed: nat)
      modifies this
      ensures Outcome(Fields(), ret, consumed) == Feed(old(Fields()), bytes)
    {
      ret, consumed := 0, 0;
      while consumed < |bytes|
        invariant consumed <= |bytes| && ret == 0
        invariant var rest := Feed(Fields(), bytes[consumed..]);
                  rest.(consumed := consumed + rest.consumed) == Feed(old(Fields()), bytes)
      {
        ret := Decode(bytes[consumed]);
        consumed := consumed + 1;
        if ret != 0 || control == C_END {
          break;
        }
      }
    }
  }

  /** While it goes on the control is positive, and an error makes it negative: never 0, and always one byte. */
  lemma {:induction false} ControlStays(d: State, bytes: seq<byte>)
    requires C_MAGIC <= d.control <= C_PAR1
    ensures -C_PAR1 <= Feed(d, bytes).dec.control <= C_END && Feed(d, bytes).dec.control != 0
    decreases |bytes|
  {
    hide Xor, Wrap16;
    if bytes != [] {
      var (d', ret) := Step(d, bytes[0]);
      if ret == 0 && d'.control != C_END {
        ControlStays(d', bytes[1..]);
      }
    }
  }

  // --- The decoder against the format -------------------------------------------

  /** Nothing in the first `k` bytes of `s` contradicts their being the beginning of a recording. */
  predicate Plausible(s: seq<byte>, k: nat)
    requires k <= |s|
  {
    && (k >= 1 ==> s[0] == MAGIC)
    && (k >= 4 ==> s[3] == Xor(s[1], s[2]) && k <= Announced(s[1], s[2]) + 5)
    && (k >= 4 && k == Announced(s[1], s[2]) + 5 ==> s[k - 1] == Parity(s[4..k - 1]))
  }

  /** The first `k` bytes of `s` are a whole recording. */
  predicate Complete(s: seq<byte>, k: nat)
    requires k <= |s|
  {
    Plausible(s, k) && k >= 4 && k == Announced(s[1], s[2]) + 5
  }

  /** The decoder's state after a plausible beginning. */
  function After(s: seq<byte>, k: nat): State
    requires k <= |s| && Plausible(s, k)
  {
    if k == 0 then INITIAL
    else if k == 1 then State(C_LEN0, 0, 0, 0, [])
    else if k == 2 then State(C_LEN1, s[1], s[1], 0, [])
    else
      var w := Word(s[2], s[1]);
      if k == 3 then State(C_PAR0, w, Xor(s[1], s[2]), 0, [])
      else
        var n := Announced(s[1], s[2]);
        if k < n + 4 then State(C_DATA, w, Parity(s[4..k]), k - 4, s[4..k])
        else if k == n + 4 then State(C_PAR1, w, Parity(s[4..k]), Wrap16(n), s[4..k])
        else State(C_END, w, Parity(s[4..k - 1]), Wrap16(n), s[4..k - 1])
  }

  /** One more byte is accepted exactly when the longer beginning is still plausible. */
  predicate StepTracked(s: seq<byte>, k: nat)
    requires k < |s| && Plausible(s, k)
  {
    var (d', ret) := Step(After(s, k), s[k]);
    && 0 < After(s, k).control < C_END
    && if Plausible(s, k + 1) then
         ret == 0 && d' == After(s, k + 1) && (d'.control == C_END <==> Complete(s, k + 1))
       else
         ret != 0 && d'.control < 0
  }

  lemma HeaderStep(s: seq<byte>, k: nat)
    requires k < |s| && Plausible(s, k) && k < 4
    ensures StepTracked(s, k)
  {
    hide Xor;
    if k == 1 {
      ZeroXor(s[1]);
    }
  }

  /** The 16-bit count meets the 16-bit length exactly when the announced number of bytes is in. */
  lemma CountMeetsLength(hi: byte, lo: byte, m: nat)
    requires 1 <= m <= Announced(hi, lo)
    ensures Wrap16(m) == Word(lo, hi) <==> m == Announced(hi, lo)
    ensures m < Announced(hi, lo) ==> Wrap16(m) == m
  {
  }

  lemma BodyStep(s: seq<byte>, k: nat)
    requires k < |s| && Plausible(s, k) && !Complete(s, k) && k >= 4
    ensures StepTracked(s, k)
  {
    hide Xor, Wrap16, Word, Announced;
    AnnouncedWraps(s[1], s[2]);
    if k < Announced(s[1], s[2]) + 4 {
      CountMeetsLength(s[1], s[2], k - 3);
      assert s[4..k + 1] == s[4..k] + [s[k]];
      assert s[4..k + 1][..k - 4] == s[4..k];
      assert Parity(s[4..k + 1]) == Xor(Parity(s[4..k]), s[k]);
    }
  }

  /** What a run of the decoder from a plausible beginning of `k` bytes may come to. */
  predicate Traced(s: seq<byte>, k: nat, r: Outcome) {
    var end := k + r.consumed;
    && end <= |s|
    && (forall j | k <= j < end :: Plausible(s, j) && !Complete(s, j))
    && if r.ret != 0 then !Plausible(s, end) && r.dec.control < 0
       else if r.dec.control == C_END then Complete(s, end) && r.dec == After(s, end)
       else end == |s| && Plausible(s, end) && !Complete(s, end) && r.dec == After(s, end)
  }

  /** From a plausible beginning of `k` bytes the decoder runs on to the end of the frame, to the first
      implausible byte, or to the end of the stream, whichever comes first. */
  lemma {:induction false} FeedTracksFormat(s: seq<byte>, k: nat)
    requires k <= |s| && Plausible(s, k) && !Complete(s, k)
    ensures Traced(s, k, Feed(After(s, k), s[k..]))
    decreases |s| - k
  {
    hide Xor;
    if k < |s| {
      if k < 4 {
        HeaderStep(s, k);
      } else {
        BodyStep(s, k);
      }
      FeedStep(s, k);
      if Plausible(s, k + 1) && !Complete(s, k + 1) {
        FeedTracksFormat(s, k + 1);
        TracedFromNext(s, k, Feed(After(s, k + 1), s[k + 1..]));
      }
    }
  }

  lemma TracedFromNext(s: seq<byte>, k: nat, r: Outcome)
    requires k < |s| && Plausible(s, k) && !Complete(s, k)
    requires Traced(s, k + 1, r)
    ensures Traced(s, k, r.(consumed := r.consumed + 1))
  {
    hide Xor;
  }

  /** `Feed` unfolded once at a point where the format is being tracked. */
  lemma FeedStep(s: seq<byte>, k: nat)
    requires k < |s| && Plausible(s, k) && StepTracked(s, k)
    ensures var r := Feed(After(s, k), s[k..]);
            if !Plausible(s, k + 1) then r.ret != 0 && r.dec.control < 0 && r.consumed == 1
            else if Complete(s, k + 1) then r == Outcome(After(s, k + 1), 0, 1)
            else var rest := Feed(After(s, k + 1), s[k + 1..]);
                 r == rest.(consumed := rest.consumed + 1)
  {
    hide Xor;
    assert s[k..][1..] == s[k + 1..];
  }

  lemma AnnouncedWraps(hi: byte, lo: byte)
    ensures 1 <= Announced(hi, lo) <= 0x1_0000 && Wrap16(Announced(hi, lo)) == Word(lo, hi)
  {
  }

  /** A complete beginning is the frame of its own data part. */
  lemma CompleteIsFrame(s: seq<byte>, k: nat)
    requires k <= |s| && Complete(s, k)
    ensures Recordable(s[4..k - 1]) && s[..k] == Frame(s[4..k - 1])
  {
    hide Xor, Parity, High, Low, Wrap16, Word, Announced;
    HalvesOfWord(s[2], s[1]);
    AnnouncedWraps(s[1], s[2]);
    var data := s[4..k - 1];
    assert s[..k] == Header(s[1], s[2]) + data + [Parity(data)];
  }

  /** Whether a beginning is complete does not depend on what follows it. */
  lemma CompleteExtends(f: seq<byte>, s: seq<byte>)
    requires Complete(f, |f|) && f <= s
    ensures Complete(s, |f|) && s[4..|f| - 1] == f[4..|f| - 1]
  {
    hide Xor;
    assert s[4..|f| - 1] == f[4..|f| - 1];
  }

  lemma FrameIsComplete(data: seq<byte>, s: seq<byte>)
    requires Recordable(data) && Frame(data) <= s
    ensures Complete(s, |Frame(data)|) && s[4..|Frame(data)| - 1] == data
  {
    hide Xor, High, Low, Parity;
    AnnouncedInFrame(data);
    CompleteExtends(Frame(data), s);
  }

  /** The state in which the decoder leaves C_DATA for good. */
  lemma AfterComplete(s: seq<byte>, k: nat)
    requires k <= |s| && Complete(s, k)
    ensures After(s, k).control == C_END && After(s, k).written == s[4..k - 1]
    ensures After(s, k).length == Wrap16(k - 5)
  {
    hide Xor;
  }

  /** Soundness: a stream that brings the decoder to C_END begins with the frame of what was written. */
  lemma EndMeansFrame(s: seq<byte>)
    requires Feed(INITIAL, s).dec.control == C_END
    ensures var r := Feed(INITIAL, s);
            && r.ret == 0 && r.consumed <= |s|
            && Recordable(r.dec.written) && s[..r.consumed] == Frame(r.dec.written)
  {
    hide Xor;
    assert s[0..] == s;
    FeedTracksFormat(s, 0);
    var k := Feed(INITIAL, s).consumed;
    CompleteIsFrame(s, k);
    AfterComplete(s, k);
  }

  /** Completeness: a frame, whatever follows it, brings the decoder to C_END with exactly its data. */
  lemma FrameReachesEnd(data: seq<byte>, s: seq<byte>)
    requires Recordable(data) && Frame(data) <= s
    ensures var r := Feed(INITIAL, s);
            && r.ret == 0 && r.dec.control == C_END && r.consumed == |Frame(data)|
            && r.dec.written == data && r.dec.length == Wrap16(|data|)
  {
    hide Xor;
    var k := |Frame(data)|;
    FrameIsComplete(data, s);
    AfterComplete(s, k);
    assert s[0..] == s;
    FeedTracksFormat(s, 0);
    AnnouncedInFrame(data);
  }

  /** A frame that has not arrived completely is neither accepted nor rejected. */
  lemma ShortFrameWaits(data: seq<byte>, k: nat)
    requires Recordable(data) && k < |Frame(data)|
    ensures var r := Feed(INITIAL, Frame(data)[..k]);
            r.ret == 0 && r.dec.control != C_END && r.consumed == k
  {
    hide Xor, High, Low, Parity, Frame, Step;
    var f := Frame(data);
    var s := f[..k];
    FrameIsComplete(data, f);
    assert s[0..] == s;
    FeedTracksFormat(s, 0);
    var end := Feed(INITIAL, s).consumed;
    ShortBeginning(f, s, end);
  }

  /** The recording of no data is a beginning for the decoder, which takes its parity for the first of 65536 bytes. */
  lemma EmptyFrameWaits(k: nat)
    requires k <= |Frame([])|
    ensures var r := Feed(INITIAL, Frame([])[..k]);
            && r.ret == 0 && r.dec.control != C_END && r.consumed == k
            && (k == |Frame([])| ==> r.dec.control == C_DATA && r.dec.written == [0])
  {
    var s := Frame([])[..k];
    ZeroXor(0);
    assert Frame([]) == [MAGIC, 0, 0, 0, 0];
    assert Announced(0, 0) == 0x1_0000;
    hide Xor, Frame, Feed, Announced, Parity;
    assert s[0..] == s;
    FeedTracksFormat(s, 0);
  }

  /** A proper beginning of a complete frame is plausible and incomplete. */
  lemma ShortBeginning(f: seq<byte>, s: seq<byte>, k: nat)
    requires Complete(f, |f|) && s <= f && k <= |s| < |f|
    ensures Plausible(s, k) && !Complete(s, k)
  {
    hide Xor, Parity;
  }

  /** The decoder accepts exactly the frames: C_END is reached if and only if the stream starts with one. */
  lemma EndExactlyOnFrames(s: seq<byte>)
    ensures Feed(INITIAL, s).dec.control == C_END <==> exists data | Recordable(data) :: Frame(data) <= s
  {
    hide *;
    if Feed(INITIAL, s).dec.control == C_END {
      EndMeansFrame(s);
      assert Frame(Feed(INITIAL, s).dec.written) <= s;
    }
    if data :| Recordable(data) && Frame(data) <= s {
      FrameReachesEnd(data, s);
    }
  }

  /** A single wrong byte anywhere in a frame is never accepted: the decoder reports an error, or it is
      still waiting for data when the frame's bytes are used up. */
  lemma SingleErrorDetected(data: seq<byte>, i: nat, v: byte)
    requires Recordable(data) && i < |Frame(data)| && v != Frame(data)[i]
    ensures var r := Feed(INITIAL, Frame(data)[i := v]);
            && r.dec.control != C_END
            && (r.ret != 0 || (r.consumed == |Frame(data)| && C_MAGIC <= r.dec.control <= C_PAR1))
  {
    hide Xor, High, Low, Step, Parity;
    var f := Frame(data);
    var g := f[i := v];
    assert g[0..] == g;
    FeedTracksFormat(g, 0);
    if Feed(INITIAL, g).dec.control == C_END {
      EndMeansFrame(g);
      var h := g[..Feed(INITIAL, g).consumed];
      FrameIsComplete(data, f);
      FrameIsComplete(Feed(INITIAL, g).dec.written, h);
      DamagedIsNoFrame(f, i, v, h);
    }
  }

  /** Two complete frames never differ in exactly one byte, nor is one of them the beginning of the
      other with one byte changed. */
  lemma DamagedIsNoFrame(f: seq<byte>, i: nat, v: byte, h: seq<byte>)
    requires Complete(f, |f|) && i < |f| && v != f[i]
    requires Complete(h, |h|)
    ensures !(h <= f[i := v])
  {
    hide Xor;
    var g := f[i := v];
    if h <= g {
      assert h[0] == g[0] && h[1] == g[1] && h[2] == g[2] && h[3] == g[3];
      if i == 1 {
        XorDetects(f[2], f[1], v);
      } else if i == 2 {
        XorDetects(f[1], f[2], v);
      } else if i > 3 {
        var data, last := f[4..|f| - 1], |f| - 1;
        assert h == g;
        if i < last {
          assert h[4..last] == data[i - 4 := v];
          ParityDetects(data, i - 4, v);
        }
      }
    }
  }
}
