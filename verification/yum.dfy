/** The dice game: what a computer player picks, what it scores, and how the score sheet fills up. */
module Yum {
  const UNSET := -1
  const MAXDICE := 5
  const MAXCATEGORY := 15
  const MAXROUNDS := 12

  // The rows below the upper section, 0 to 5.
  const SUBTOTAL := 6
  const BONUS := 7
  const LOW_STRAIGHT := 8
  const HIGH_STRAIGHT := 9
  const LOW_SCORE := 10
  const HIGH_SCORE := 11
  const FULL_HOUSE := 12
  const YUM := 13
  const TOTAL := 14

  /** The dice after the last roll of a turn: sorted, and none left to roll. */
  type dice = d: seq<int> | |d| == MAXDICE && (forall i | 0 <= i < MAXDICE :: 1 <= d[i] <= 6)
                            && forall i, j | 0 <= i < j < MAXDICE :: d[i] <= d[j]
    witness [1, 1, 1, 1, 1]

  type sheet = s: seq<int> | |s| == MAXCATEGORY witness seq(15, _ => -1)

  // --- Dice -------------------------------------------------------------------------

  /** `numberOf`, over the first dice */
  function Count(d: seq<int>, n: int): (k: nat)
    ensures k <= |d|
  {
    if d == [] then 0 else Count(d[..|d| - 1], n) + if d[|d| - 1] == n then 1 else 0
  }

  /** `sum` */
  function Sum(d: seq<int>): int {
    if d == [] then 0 else Sum(d[..|d| - 1]) + d[|d| - 1]
  }

  lemma {:induction false} SumBounds(d: seq<int>)
    requires forall i | 0 <= i < |d| :: 1 <= d[i] <= 6
    ensures |d| <= Sum(d) <= 6 * |d|
  {
    if d != [] {
      SumBounds(d[..|d| - 1]);
    }
  }

  predicate HaveLowStraight(d: dice) {
    forall i | 0 <= i < MAXDICE :: d[i] == i + 1
  }

  predicate HaveHighStraight(d: dice) {
    forall i | 0 <= i < MAXDICE :: d[i] == i + 2
  }

  predicate HaveFullHouse(d: dice) {
    || (d[0] == d[1] && d[1] == d[2] && d[3] == d[4])
    || (d[0] == d[1] && d[2] == d[3] && d[3] == d[4])
  }

  predicate HaveYum(d: dice) {
    forall i | 1 <= i < MAXDICE :: d[i] == d[0]
  }

  /** The lowest number from `n` on that `k` dice show, or 0: the loops for four, three and two the same. */
  function Same(d: dice, k: nat, n: nat): (r: nat)
    requires 1 <= n <= 7
    ensures r == 0 || n <= r <= 6
    decreases 7 - n
  {
    if n == 7 then 0 else if Count(d, n) == k then n else Same(d, k, n + 1)
  }

  // --- What the computer picks ------------------------------------------------------

  /** The highest die, among the first `k`, whose row is free. */
  function LoneDie(s: sheet, d: dice, k: nat): (c: int)
    requires k <= MAXDICE
    ensures c == UNSET || (0 <= c <= 5 && s[c] == UNSET)
  {
    if k == 0 then UNSET else if s[d[k - 1] - 1] == UNSET then d[k - 1] - 1 else LoneDie(s, d, k - 1)
  }

  /** The lowest free row from `c` on, or 0. */
  function LowestFree(s: sheet, c: nat): (r: nat)
    requires c <= MAXCATEGORY
    ensures r < MAXCATEGORY
    ensures (exists k | c <= k < MAXCATEGORY :: s[k] == UNSET) ==>
              c <= r && s[r] == UNSET && forall k | c <= k < r :: s[k] != UNSET
    decreases MAXCATEGORY - c
  {
    if c == MAXCATEGORY then 0 else if s[c] == UNSET then c else LowestFree(s, c + 1)
  }

  /** The number `k` dice show, if its row is free. */
  predicate SameFree(s: sheet, d: dice, k: nat) {
    Same(d, k, 1) != 0 && s[Same(d, k, 1) - 1] == UNSET
  }

  /** The picks that do not need a straight, a full house or a yum. */
  function PickNumbers(s: sheet, d: dice): (c: nat)
    ensures c < MAXCATEGORY
  {
    if SameFree(s, d, 4) then Same(d, 4, 1) - 1
    else if SameFree(s, d, 3) then Same(d, 3, 1) - 1
    else if Sum(d) >= 22 && s[HIGH_SCORE] == UNSET && Sum(d) > s[LOW_SCORE] then HIGH_SCORE
    else if Sum(d) >= 21 && s[LOW_SCORE] == UNSET && (s[HIGH_SCORE] == UNSET || Sum(d) < s[HIGH_SCORE]) then LOW_SCORE
    else if SameFree(s, d, 2) then Same(d, 2, 1) - 1
    else if LoneDie(s, d, MAXDICE) != UNSET then LoneDie(s, d, MAXDICE)
    else LowestFree(s, 0)
  }

  /** `computerPickCategory` */
  function Pick(s: sheet, d: dice): (c: nat)
    ensures c < MAXCATEGORY
  {
    if HaveYum(d) && s[YUM] == UNSET then YUM
    else if HaveYum(d) && s[d[0] - 1] == UNSET then d[0] - 1
    else if HaveFullHouse(d) && s[FULL_HOUSE] == UNSET then FULL_HOUSE
    else if HaveHighStraight(d) && s[HIGH_STRAIGHT] == UNSET then HIGH_STRAIGHT
    else if HaveLowStraight(d) && s[LOW_STRAIGHT] == UNSET then LOW_STRAIGHT
    else PickNumbers(s, d)
  }

  // --- Scores -----------------------------------------------------------------------

  predicate Playable(c: nat) {
    c < MAXCATEGORY && c != SUBTOTAL && c != BONUS && c != TOTAL
  }

  /** What a free row scores. The low score is compared with the high score after its own row has been set, so that a
      high score that has not been played yet makes it 0. */
  function Score(s: sheet, d: dice, c: nat): int
    requires Playable(c)
  {
    if c <= 5 then Count(d, c + 1) * (c + 1)
    else if c == LOW_STRAIGHT then (if HaveLowStraight(d) then 15 else 0)
    else if c == HIGH_STRAIGHT then (if HaveHighStraight(d) then 20 else 0)
    else if c == LOW_SCORE then (if Sum(d) >= 21 && Sum(d) < s[HIGH_SCORE] then Sum(d) else 0)
    else if c == HIGH_SCORE then (if Sum(d) >= 22 && Sum(d) > s[LOW_SCORE] then Sum(d) else 0)
    else if c == FULL_HOUSE then (if HaveFullHouse(d) then 25 else 0)
    else (if HaveYum(d) then 30 else 0)
  }

  /** `playCategory`: a row that is taken, or is not one to play, stays as it is. */
  function Play(s: sheet, d: dice, c: nat): sheet
    requires c < MAXCATEGORY
  {
    if s[c] != UNSET || !Playable(c) then s else s[c := Score(s, d, c)]
  }

  /** The sum of the rows from `from` up to `end` that are set. */
  function SumSet(s: sheet, from: nat, end: nat): int
    requires from <= end <= MAXCATEGORY
    decreases end - from
  {
    if from == end then 0 else SumSet(s, from, end - 1) + if s[end - 1] != UNSET then s[end - 1] else 0
  }

  /** `updateScore`, for one player */
  function Update(s: sheet): sheet {
    var upper := SumSet(s, 0, 6);
    var t := s[SUBTOTAL := upper][BONUS := if upper >= 63 then 25 else 0];
    t[TOTAL := SumSet(t, 6, 14)]
  }

  // --- Games ------------------------------------------------------------------------

  /** A player's sheet after a turn with each of these dice. */
  function AfterRounds(turns: seq<dice>): sheet {
    if turns == [] then seq(MAXCATEGORY, _ => UNSET)
    else
      var s := AfterRounds(turns[..|turns| - 1]);
      var d := turns[|turns| - 1];
      Update(Play(s, d, Pick(s, d)))
  }

  /** How many of the first `n` rows have been played. */
  function Filled(s: sheet, n: nat): (k: nat)
    requires n <= MAXCATEGORY
    ensures k <= n
  {
    if n == 0 then 0 else Filled(s, n - 1) + if Playable(n - 1) && s[n - 1] != UNSET then 1 else 0
  }

  predicate AllOrNothing(v: int, points: int) {
    v == UNSET || v == 0 || v == points
  }

  /** Each row is free or holds one of its scores. */
  predicate RowsInRange(s: sheet) {
    && (forall c | 0 <= c <= 5 :: s[c] == UNSET || 0 <= s[c] <= 5 * (c + 1))
    && AllOrNothing(s[LOW_STRAIGHT], 15) && AllOrNothing(s[HIGH_STRAIGHT], 20)
    && AllOrNothing(s[FULL_HOUSE], 25) && AllOrNothing(s[YUM], 30)
    && (s[LOW_SCORE] == UNSET || s[LOW_SCORE] == 0 || 21 <= s[LOW_SCORE] <= 30)
    && (s[HIGH_SCORE] == UNSET || s[HIGH_SCORE] == 0 || 22 <= s[HIGH_SCORE] <= 30)
  }

  /** A positive low score is below the high score. */
  predicate LowBelowHigh(s: sheet) {
    s[LOW_SCORE] > 0 ==> s[LOW_SCORE] < s[HIGH_SCORE]
  }

  predicate Totalled(s: sheet) {
    && s[SUBTOTAL] == SumSet(s, 0, 6)
    && s[BONUS] == (if s[SUBTOTAL] >= 63 then 25 else 0)
    && s[TOTAL] == SumSet(s, 6, 14)
  }

  predicate Blank(s: sheet) {
    forall c | 0 <= c < MAXCATEGORY :: s[c] == UNSET
  }

  lemma ScoreInRange(s: sheet, d: dice, c: nat)
    requires Playable(c) && s[c] == UNSET && RowsInRange(s) && LowBelowHigh(s)
    ensures RowsInRange(s[c := Score(s, d, c)]) && LowBelowHigh(s[c := Score(s, d, c)]) && Score(s, d, c) >= 0
  {
    SumBounds(d);
    hide Count, Sum, HaveYum, HaveFullHouse, HaveLowStraight, HaveHighStraight;
    if c <= 5 {
      CountTimes(d, c);
    }
  }

  /** A free low score counts exactly for 21 or more and less than a high score that has been played; played before
      the high score it is always 0. */
  lemma LowScoreExactly(s: sheet, d: dice)
    requires s[LOW_SCORE] == UNSET
    ensures Play(s, d, LOW_SCORE)[LOW_SCORE] > 0 <==> 21 <= Sum(d) < s[HIGH_SCORE]
    ensures s[HIGH_SCORE] == UNSET ==> Play(s, d, LOW_SCORE)[LOW_SCORE] == 0
  {
    hide Count, Sum, HaveYum, HaveFullHouse, HaveLowStraight, HaveHighStraight;
  }

  lemma CountTimes(d: dice, c: nat)
    ensures 0 <= Count(d, c + 1) * (c + 1) <= 5 * (c + 1)
  {
  }

  lemma {:induction false} FilledAfter(s: sheet, c: nat, v: int, n: nat)
    requires c < MAXCATEGORY && n <= MAXCATEGORY && v != UNSET
    ensures Playable(c) && s[c] == UNSET ==> Filled(s[c := v], n) == Filled(s, n) + if c < n then 1 else 0
    ensures !Playable(c) ==> Filled(s[c := v], n) == Filled(s, n)
  {
    if n > 0 {
      FilledAfter(s, c, v, n - 1);
    }
  }

  lemma {:induction false} BlankIsEmpty(s: sheet, n: nat)
    requires Blank(s) && n <= MAXCATEGORY
    ensures Filled(s, n) == 0
  {
    if n > 0 {
      BlankIsEmpty(s, n - 1);
    }
  }

  /** How many of the first `n` rows can be played. */
  function Rows(n: nat): nat {
    if n == 0 then 0 else Rows(n - 1) + if Playable(n - 1) then 1 else 0
  }

  lemma {:induction false} AllTaken(s: sheet, n: nat)
    requires n <= MAXCATEGORY && forall c | 0 <= c < n && Playable(c) :: s[c] != UNSET
    ensures Filled(s, n) == Rows(n)
  {
    if n > 0 {
      AllTaken(s, n - 1);
    }
  }

  lemma TwelveRows()
    ensures Rows(MAXCATEGORY) == 12
  {
    assert Rows(5) == 5 && Rows(10) == 8;
  }

  /** While a row to play is free, and the other rows are set or nothing is, the pick is a free row to play. */
  lemma PickIsPlayable(s: sheet, d: dice)
    requires Blank(s) || (s[SUBTOTAL] != UNSET && s[BONUS] != UNSET && s[TOTAL] != UNSET)
    requires Filled(s, MAXCATEGORY) < MAXROUNDS
    ensures Playable(Pick(s, d)) && s[Pick(s, d)] == UNSET
  {
    hide Same, LoneDie, HaveYum, HaveFullHouse, HaveHighStraight, HaveLowStraight, Sum;
    if forall c | 0 <= c < MAXCATEGORY && Playable(c) :: s[c] != UNSET {
      AllTaken(s, MAXCATEGORY);
      TwelveRows();
    }
    hide Filled;
  }

  // --- Totals -----------------------------------------------------------------------

  /** What a row adds. */
  function Points(v: int): int {
    if v != UNSET then v else 0
  }

  lemma UpperSum(s: sheet)
    ensures SumSet(s, 0, 6) == Points(s[0]) + Points(s[1]) + Points(s[2]) + Points(s[3]) + Points(s[4]) + Points(s[5])
  {
    assert SumSet(s, 0, 2) == Points(s[0]) + Points(s[1]);
    assert SumSet(s, 0, 4) == SumSet(s, 0, 2) + Points(s[2]) + Points(s[3]);
  }

  lemma LowerSum(s: sheet)
    ensures SumSet(s, 6, 14)
         == Points(s[6]) + Points(s[7]) + Points(s[8]) + Points(s[9]) + Points(s[10]) + Points(s[11]) + Points(s[12])
            + Points(s[13])
  {
    assert SumSet(s, 6, 8) == Points(s[6]) + Points(s[7]);
    assert SumSet(s, 6, 10) == SumSet(s, 6, 8) + Points(s[8]) + Points(s[9]);
    assert SumSet(s, 6, 12) == SumSet(s, 6, 10) + Points(s[10]) + Points(s[11]);
  }

  /** The points of the rows that are played. */
  function PlayedPoints(s: sheet, n: nat): int
    requires n <= MAXCATEGORY
  {
    if n == 0 then 0 else PlayedPoints(s, n - 1) + if Playable(n - 1) then Points(s[n - 1]) else 0
  }

  lemma PlayedSum(s: sheet)
    ensures PlayedPoints(s, MAXCATEGORY)
         == Points(s[0]) + Points(s[1]) + Points(s[2]) + Points(s[3]) + Points(s[4]) + Points(s[5])
            + Points(s[8]) + Points(s[9]) + Points(s[10]) + Points(s[11]) + Points(s[12]) + Points(s[13])
  {
    hide Points;
    assert PlayedPoints(s, 1) == Points(s[0]);
    assert PlayedPoints(s, 2) == Points(s[0]) + Points(s[1]);
    assert PlayedPoints(s, 4) == PlayedPoints(s, 2) + Points(s[2]) + Points(s[3]);
    assert PlayedPoints(s, 6) == PlayedPoints(s, 4) + Points(s[4]) + Points(s[5]);
    assert PlayedPoints(s, 8) == PlayedPoints(s, 6);
    assert PlayedPoints(s, 10) == PlayedPoints(s, 8) + Points(s[8]) + Points(s[9]);
    assert PlayedPoints(s, 12) == PlayedPoints(s, 10) + Points(s[10]) + Points(s[11]);
    assert PlayedPoints(s, 14) == PlayedPoints(s, 12) + Points(s[12]) + Points(s[13]);
  }

  /** The total is the points of the played rows, and 25 more exactly when the upper section reaches 63. It cannot
      be above 279. */
  lemma TotalIsPointsAndBonus(s: sheet)
    requires RowsInRange(s) && LowBelowHigh(s) && Totalled(s)
    ensures s[TOTAL] == PlayedPoints(s, MAXCATEGORY) + if SumSet(s, 0, 6) >= 63 then 25 else 0
    ensures 0 <= s[TOTAL] <= 279 && s[SUBTOTAL] != UNSET
  {
    hide SumSet, PlayedPoints;
    RowBounds(s);
    assert s[BONUS] == Points(s[BONUS]) && (s[BONUS] == 0 || s[BONUS] == 25);
    UpperSum(s);
    assert Points(s[SUBTOTAL]) == s[SUBTOTAL] by { RowBounds(s); }
    LowerSum(s);
    PlayedSum(s);
    hide Points;
  }

  lemma RowBounds(s: sheet)
    requires RowsInRange(s) && LowBelowHigh(s)
    ensures forall c | 0 <= c <= 5 :: 0 <= Points(s[c]) <= 5 * (c + 1)
    ensures 0 <= Points(s[LOW_STRAIGHT]) <= 15 && 0 <= Points(s[HIGH_STRAIGHT]) <= 20
    ensures 0 <= Points(s[FULL_HOUSE]) <= 25 && 0 <= Points(s[YUM]) <= 30
    ensures 0 <= Points(s[LOW_SCORE]) && 0 <= Points(s[HIGH_SCORE])
    ensures Points(s[LOW_SCORE]) + Points(s[HIGH_SCORE]) <= 59
  {
  }

  lemma {:induction false} SumIgnores(s: sheet, c: nat, v: int, from: nat, end: nat)
    requires c < MAXCATEGORY && from <= end <= MAXCATEGORY && !(from <= c < end)
    ensures SumSet(s[c := v], from, end) == SumSet(s, from, end)
    decreases end - from
  {
    if from < end {
      SumIgnores(s, c, v, from, end - 1);
    }
  }

  lemma UpdateTotals(s: sheet)
    requires RowsInRange(s) && LowBelowHigh(s)
    ensures Totalled(Update(s)) && RowsInRange(Update(s)) && LowBelowHigh(Update(s))
    ensures Filled(Update(s), MAXCATEGORY) == Filled(s, MAXCATEGORY)
    ensures forall c | 0 <= c < MAXCATEGORY && Playable(c) :: Update(s)[c] == s[c]
  {
    hide SumSet, Filled;
    var upper := SumSet(s, 0, 6);
    var bonus := if upper >= 63 then 25 else 0;
    var a := s[SUBTOTAL := upper];
    var b := a[BONUS := bonus];
    SumIgnores(s, SUBTOTAL, upper, 0, 6);
    SumIgnores(a, BONUS, bonus, 0, 6);
    SumIgnores(b, TOTAL, SumSet(b, 6, 14), 0, 6);
    SumIgnores(b, TOTAL, SumSet(b, 6, 14), 6, 14);
    UpperSum(s);
    LowerSum(b);
    FilledAfter(s, SUBTOTAL, upper, MAXCATEGORY);
    FilledAfter(a, BONUS, bonus, MAXCATEGORY);
    FilledAfter(b, TOTAL, SumSet(b, 6, 14), MAXCATEGORY);
  }

  /** The sheet of a computer player after `r` rounds. */
  predicate SheetAfter(s: sheet, r: nat) {
    && RowsInRange(s) && LowBelowHigh(s) && Filled(s, MAXCATEGORY) == r
    && (if r == 0 then Blank(s) else Totalled(s))
  }

  lemma RoundKeeps(s: sheet, d: dice, r: nat)
    requires SheetAfter(s, r) && r < MAXROUNDS
    ensures Playable(Pick(s, d)) && s[Pick(s, d)] == UNSET
    ensures SheetAfter(Update(Play(s, d, Pick(s, d))), r + 1)
  {
    if r > 0 {
      TotalIsPointsAndBonus(s);
    }
    PickIsPlayable(s, d);
    hide Pick, Score, Filled, Update;
    var c := Pick(s, d);
    ScoreInRange(s, d, c);
    FilledAfter(s, c, Score(s, d, c), MAXCATEGORY);
    UpdateTotals(s[c := Score(s, d, c)]);
  }

  /** In every game of up to twelve rounds, whatever is rolled: each pick of a computer player is a free row to play, so
      that after `r` rounds exactly `r` rows are filled, all scores and totals are right, and a positive low score is
      below the high score. */
  lemma {:induction false} EveryGame(turns: seq<dice>)
    requires |turns| <= MAXROUNDS
    ensures SheetAfter(AfterRounds(turns), |turns|)
    ensures |turns| < MAXROUNDS ==> forall d: dice ::
              var c := Pick(AfterRounds(turns), d); Playable(c) && AfterRounds(turns)[c] == UNSET
    ensures turns != [] ==> 0 <= AfterRounds(turns)[TOTAL] <= 279
  {
    hide SheetAfter, Pick, Play, Update;
    if turns == [] {
      NewSheet();
    } else {
      EveryGame(turns[..|turns| - 1]);
      RoundKeeps(AfterRounds(turns[..|turns| - 1]), turns[|turns| - 1], |turns| - 1);
      FinalTotal(AfterRounds(turns), |turns|);
    }
    if |turns| < MAXROUNDS {
      forall d: dice
        ensures var c := Pick(AfterRounds(turns), d); Playable(c) && AfterRounds(turns)[c] == UNSET
      {
        RoundKeeps(AfterRounds(turns), d, |turns|);
      }
    }
  }

  lemma FinalTotal(s: sheet, r: nat)
    requires SheetAfter(s, r) && r > 0
    ensures 0 <= s[TOTAL] <= 279
  {
    TotalIsPointsAndBonus(s);
  }

  lemma NewSheet()
    ensures SheetAfter(AfterRounds([]), 0)
  {
    BlankIsEmpty(AfterRounds([]), MAXCATEGORY);
  }
}

/** The dice game as it runs, for one computer player after another. */
module YumCode {
  import opened Yum

  class Table {
    const players: nat
    const scores: array2<int>
    const thrown: array<int>

    ghost predicate Valid() {
      scores.Length0 == players && scores.Length1 == MAXCATEGORY && thrown.Length == MAXDICE
    }

    ghost function Row(p: nat): sheet
      requires Valid() && p < players
      reads scores
    {
      seq(MAXCATEGORY, c requires 0 <= c < MAXCATEGORY reads scores => scores[p, c])
    }

    ghost predicate Shows(d: dice)
      reads thrown
    {
      thrown[..] == d
    }

    /** `initialize` */
    constructor (players: nat)
      ensures Valid() && this.players == players && fresh(scores) && fresh(thrown)
      ensures forall p | 0 <= p < players :: Row(p) == AfterRounds([])
    {
      this.players := players;
      scores := new int[players, MAXCATEGORY]((p, c) => UNSET);
      thrown := new int[MAXDICE](i => UNSET);
      new;
      assert forall p | 0 <= p < players :: Row(p) == AfterRounds([]);
    }

    method NumberOf(n: int) returns (k: nat)
      requires Valid()
      ensures k == Count(thrown[..], n)
    {
      k := 0;
      var i := 0;
      while i < MAXDICE
        invariant i <= MAXDICE && k == Count(thrown[..i], n)
      {
        assert thrown[..i + 1][..i] == thrown[..i];
        if thrown[i] == n {
          k := k + 1;
        }
        i := i + 1;
      }
      assert thrown[..MAXDICE] == thrown[..];
    }

    method SumOf() returns (total: int)
      requires Valid()
      ensures total == Sum(thrown[..])
    {
      total := 0;
      var i := 0;
      while i < MAXDICE
        invariant i <= MAXDICE && total == Sum(thrown[..i])
      {
        assert thrown[..i + 1][..i] == thrown[..i];
        total := total + thrown[i];
        i := i + 1;
      }
      assert thrown[..MAXDICE] == thrown[..];
    }

    /** The loops of `haveFourTheSame`, `haveThreeTheSame` and `haveTwoTheSame`. */
    method FindSame(k: nat, ghost d: dice) returns (r: nat)
      requires Valid() && Shows(d)
      ensures r == Same(d, k, 1)
    {
      hide Count;
      r := 1;
      while r <= 6
        invariant 1 <= r <= 7 && Same(d, k, r) == Same(d, k, 1)
      {
        var n := NumberOf(r);
        if n == k {
          return;
        }
        r := r + 1;
      }
      r := 0;
    }

    /** Whether the dice go up by one from `first`. */
    method IsStraight(first: int) returns (r: bool)
      requires Valid()
      ensures r <==> forall i | 0 <= i < MAXDICE :: thrown[i] == i + first
    {
      var i := 0;
      while i < MAXDICE
        invariant i <= MAXDICE && forall k | 0 <= k < i :: thrown[k] == k + first
      {
        if thrown[i] != i + first {
          return false;
        }
        i := i + 1;
      }
      return true;
    }

    method AllTheSame() returns (r: bool)
      requires Valid()
      ensures r <==> forall i | 1 <= i < MAXDICE :: thrown[i] == thrown[0]
    {
      var i := 1;
      while i < MAXDICE
        invariant 1 <= i <= MAXDICE && forall k | 1 <= k < i :: thrown[k] == thrown[0]
      {
        if thrown[i] != thrown[0] {
          return false;
        }
        i := i + 1;
      }
      return true;
    }

    method IsFullHouse() returns (r: bool)
      requires Valid()
      ensures r <==> ((thrown[0] == thrown[1] && thrown[1] == thrown[2] && thrown[3] == thrown[4])
                      || (thrown[0] == thrown[1] && thrown[2] == thrown[3] && thrown[3] == thrown[4]))
    {
      if thrown[0] == thrown[1] && thrown[1] == thrown[2] && thrown[3] == thrown[4] {
        return true;
      }
      if thrown[0] == thrown[1] && thrown[2] == thrown[3] && thrown[3] == thrown[4] {
        return true;
      }
      return false;
    }

    /** The two loops that end `computerPickCategory`. */
    method PickAnything(p: nat, ghost d: dice) returns (c: nat)
      requires Valid() && p < players && Shows(d)
      ensures c == if LoneDie(Row(p), d, MAXDICE) != UNSET then LoneDie(Row(p), d, MAXDICE) else LowestFree(Row(p), 0)
    {
      var k: int := MAXDICE - 1;
      while k >= 0
        invariant -1 <= k < MAXDICE && LoneDie(Row(p), d, k + 1) == LoneDie(Row(p), d, MAXDICE)
      {
        if scores[p, thrown[k] - 1] == UNSET {
          return thrown[k] - 1;
        }
        k := k - 1;
      }
      c := 0;
      while c < MAXCATEGORY
        invariant c <= MAXCATEGORY && LowestFree(Row(p), c) == LowestFree(Row(p), 0)
      {
        if scores[p, c] == UNSET {
          return;
        }
        c := c + 1;
      }
      c := 0;
    }

    /** `computerPickCategory` */
    method PickCategory(p: nat, ghost d: dice) returns (c: nat)
      requires Valid() && p < players && Shows(d)
      ensures c == Pick(Row(p), d)
    {
      hide PickNumbers;
      var yum := AllTheSame();
      if yum && scores[p, YUM] == UNSET {
        return YUM;
      }
      if yum && scores[p, thrown[0] - 1] == UNSET {
        return thrown[0] - 1;
      }
      var full := IsFullHouse();
      if full && scores[p, FULL_HOUSE] == UNSET {
        return FULL_HOUSE;
      }
      var high := IsStraight(2);
      if high && scores[p, HIGH_STRAIGHT] == UNSET {
        return HIGH_STRAIGHT;
      }
      var low := IsStraight(1);
      if low && scores[p, LOW_STRAIGHT] == UNSET {
        return LOW_STRAIGHT;
      }
      c := PickByNumbers(p, d);
    }

    /** The rest of `computerPickCategory`, from four the same on */
    method PickByNumbers(p: nat, ghost d: dice) returns (c: nat)
      requires Valid() && p < players && Shows(d)
      ensures c == PickNumbers(Row(p), d)
    {
      hide Same, LoneDie, LowestFree, Count, Sum;
      var n := FindSame(4, d);
      if n != 0 && scores[p, n - 1] == UNSET {
        return n - 1;
      }
      n := FindSame(3, d);
      if n != 0 && scores[p, n - 1] == UNSET {
        return n - 1;
      }
      var total := SumOf();
      if total >= 22 && scores[p, HIGH_SCORE] == UNSET && total > scores[p, LOW_SCORE] {
        return HIGH_SCORE;
      }
      if total >= 21 && scores[p, LOW_SCORE] == UNSET
         && (scores[p, HIGH_SCORE] == UNSET || total < scores[p, HIGH_SCORE]) {
        return LOW_SCORE;
      }
      n := FindSame(2, d);
      if n != 0 && scores[p, n - 1] == UNSET {
        return n - 1;
      }
      c := PickAnything(p, d);
    }

    /** `playCategory` */
    method PlayCategory(p: nat, c: nat, ghost d: dice)
      requires Valid() && p < players && c < MAXCATEGORY && Shows(d)
      modifies scores
      ensures Row(p) == Play(old(Row(p)), d, c)
      ensures forall q | 0 <= q < players && q != p :: Row(q) == old(Row(q))
    {
      hide Count, Sum;
      if scores[p, c] != UNSET {
        return;
      }
      ghost var before := Row(p);
      if c <= 5 {
        var n := NumberOf(c + 1);
        scores[p, c] := n * (c + 1);
      } else if c == LOW_STRAIGHT {
        var have := IsStraight(1);
        scores[p, c] := if have then 15 else 0;
      } else if c == HIGH_STRAIGHT {
        var have := IsStraight(2);
        scores[p, c] := if have then 20 else 0;
      } else if c == LOW_SCORE {
        var total := SumOf();
        scores[p, c] := if total >= 21 then total else 0;
        if total >= 21 && (scores[p, LOW_SCORE] == UNSET || total < scores[p, HIGH_SCORE]) {
          scores[p, c] := total;
        } else {
          scores[p, c] := 0;
        }
      } else if c == HIGH_SCORE {
        var total := SumOf();
        if total >= 22 && total > scores[p, LOW_SCORE] {
          scores[p, c] := total;
        } else {
          scores[p, c] := 0;
        }
      } else if c == FULL_HOUSE {
        var have := IsFullHouse();
        scores[p, c] := if have then 25 else 0;
      } else if c == YUM {
        var have := AllTheSame();
        scores[p, c] := if have then 30 else 0;
      }
      assert Row(p) == Play(before, d, c);
    }

    /** The two loops of `updateScore` for one player. */
    method Total(p: nat, from: nat, end: nat) returns (total: int)
      requires Valid() && p < players && from <= end <= MAXCATEGORY
      ensures total == SumSet(Row(p), from, end)
    {
      total := 0;
      var i := from;
      while i < end
        invariant from <= i <= end && total == SumSet(Row(p), from, i)
      {
        if scores[p, i] != -1 {
          total := total + scores[p, i];
        }
        i := i + 1;
      }
    }

    /** `updateScore` */
    method UpdateScore()
      requires Valid()
      modifies scores
      ensures forall p | 0 <= p < players :: Row(p) == Update(old(Row(p)))
    {
      hide SumSet;
      var p := 0;
      while p < players
        invariant p <= players
        invariant forall q | 0 <= q < p :: Row(q) == Update(old(Row(q)))
        invariant forall q | p <= q < players :: Row(q) == old(Row(q))
      {
        ghost var s := Row(p);
        var upper := Total(p, 0, 6);
        scores[p, SUBTOTAL] := upper;
        if scores[p, SUBTOTAL] >= 63 {
          scores[p, BONUS] := 25;
        } else {
          scores[p, BONUS] := 0;
        }
        ghost var t := s[SUBTOTAL := upper][BONUS := if upper >= 63 then 25 else 0];
        assert Row(p) == t;
        var total := Total(p, 6, 14);
        assert Row(p) == t;
        assert upper == SumSet(s, 0, 6) && total == SumSet(t, 6, 14);
        scores[p, TOTAL] := total;
        assert Row(p) == t[TOTAL := total];
        assert t[TOTAL := total] == Update(s);
        p := p + 1;
      }
    }

    /** The dice of a turn after its last roll. */
    method Throw(d: dice)
      requires Valid()
      modifies thrown
      ensures Shows(d)
    {
      var i := 0;
      while i < MAXDICE
        invariant i <= MAXDICE && forall k | 0 <= k < i :: thrown[k] == d[k]
      {
        thrown[i] := d[i];
        i := i + 1;
      }
    }

    /** The loop over the players, and the new totals. */
    method PlayRound(throws: seq<dice>)
      requires Valid() && |throws| == players
      modifies scores, thrown
      ensures forall p | 0 <= p < players ::
        var s := old(Row(p)); Row(p) == Update(Play(s, throws[p], Pick(s, throws[p])))
    {
      hide Pick, Play, Update;
      var player := 0;
      while player < players
        invariant player <= players
        invariant forall p | 0 <= p < player ::
          var s := old(Row(p)); Row(p) == Play(s, throws[p], Pick(s, throws[p]))
        invariant forall p | player <= p < players :: Row(p) == old(Row(p))
      {
        Throw(throws[player]);
        assert Row(player) == old(Row(player));
        assert forall p | 0 <= p < player ::
          var s := old(Row(p)); Row(p) == Play(s, throws[p], Pick(s, throws[p]));
        var c := PickCategory(player, throws[player]);
        PlayCategory(player, c, throws[player]);
        player := player + 1;
      }
      UpdateScore();
    }

    /** A game of computer players: each has filled one row a round, with a right total. */
    method PlayGame(rounds: seq<seq<dice>>)
      requires Valid() && |rounds| <= MAXROUNDS && forall r | r in rounds :: |r| == players
      requires forall p | 0 <= p < players :: Row(p) == AfterRounds([])
      modifies scores, thrown
      ensures forall p | 0 <= p < players :: Row(p) == AfterRounds(Turns(rounds, p))
      ensures forall p | 0 <= p < players :: SheetAfter(Row(p), |rounds|)
    {
      hide SheetAfter, Pick, Play, Update;
      var r := 0;
      while r < |rounds|
        invariant r <= |rounds|
        invariant forall p | 0 <= p < players :: Row(p) == AfterRounds(Turns(rounds[..r], p))
      {
        assert rounds[r] in rounds;
        PlayRound(rounds[r]);
        forall p | 0 <= p < players
          ensures Row(p) == AfterRounds(Turns(rounds[..r + 1], p))
        {
          assert rounds[..r + 1][..r] == rounds[..r];
          assert Turns(rounds[..r + 1], p)[..r] == Turns(rounds[..r], p);
        }
        r := r + 1;
      }
      assert rounds[..r] == rounds;
      forall p | 0 <= p < players
        ensures SheetAfter(Row(p), |rounds|)
      {
        EveryGame(Turns(rounds, p));
      }
    }
  }

  /** What one player throws in each round. */
  function Turns(rounds: seq<seq<dice>>, p: nat): (turns: seq<dice>)
    requires forall r | r in rounds :: p < |r|
    ensures |turns| == |rounds|
  {
    seq(|rounds|, i requires 0 <= i < |rounds| => rounds[i][p])
  }
}
