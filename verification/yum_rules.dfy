/** The rules of the dice game, told from how many dice show which number. */
module YumRules {
  import opened Yum

  /** How many of the dice show a number. */
  function Times(d: dice, n: int): nat {
    multiset(d)[n]
  }

  lemma {:induction false} CountIsTimes(d: seq<int>, n: int)
    ensures Count(d, n) == multiset(d)[n]
  {
    if d != [] {
      var k := |d| - 1;
      assert d == d[..k] + [d[k]];
      CountIsTimes(d[..k], n);
    }
  }

  lemma TimesOf(d: dice, n: int)
    ensures Times(d, n) == (if d[0] == n then 1 else 0) + (if d[1] == n then 1 else 0) + (if d[2] == n then 1 else 0)
                         + (if d[3] == n then 1 else 0) + (if d[4] == n then 1 else 0)
  {
    assert d == [d[0], d[1], d[2], d[3], d[4]];
    assert multiset(d) == multiset{d[0], d[1], d[2], d[3], d[4]};
  }

  lemma SumStep(d: dice, k: nat)
    requires k < 5
    ensures Sum(d[..k + 1]) == Sum(d[..k]) + d[k]
  {
    assert d[..k + 1][..k] == d[..k];
  }

  lemma SumOf(d: dice)
    ensures Sum(d) == d[0] + d[1] + d[2] + d[3] + d[4]
  {
    SumStep(d, 0);
    SumStep(d, 1);
    SumStep(d, 2);
    SumStep(d, 3);
    SumStep(d, 4);
    assert d[..5] == d && d[..0] == [];
    assert Sum([]) == 0;
    hide Sum;
  }

  predicate Each(d: dice, first: int) {
    forall n | first <= n < first + 5 :: Times(d, n) == 1
  }

  predicate Alike(d: dice) {
    exists n | 1 <= n <= 6 :: Times(d, n) == 5
  }

  predicate ThreeAndTwo(d: dice) {
    exists n, k | 1 <= n <= 6 && 1 <= k <= 6 :: Times(d, n) == 3 && Times(d, k) == 2
  }

  lemma LowStraight(d: dice)
    ensures HaveLowStraight(d) <==> Each(d, 1)
  {
    TimesOf(d, 1);
    TimesOf(d, 2);
    TimesOf(d, 3);
    TimesOf(d, 4);
    TimesOf(d, 5);
    hide Times;
  }

  lemma HighStraight(d: dice)
    ensures HaveHighStraight(d) <==> Each(d, 2)
  {
    TimesOf(d, 2);
    TimesOf(d, 3);
    TimesOf(d, 4);
    TimesOf(d, 5);
    TimesOf(d, 6);
    hide Times;
  }

  lemma FiveAlike(d: dice)
    ensures HaveYum(d) <==> Alike(d)
  {
    TimesOf(d, d[0]);
    if Alike(d) {
      var n :| 1 <= n <= 6 && Times(d, n) == 5;
      TimesOf(d, n);
    }
  }

  /** Five alike pass for a full house, too. */
  lemma FullHouse(d: dice)
    ensures HaveFullHouse(d) <==> ThreeAndTwo(d) || Alike(d)
  {
    TimesOf(d, d[0]);
    TimesOf(d, d[4]);
    hide Times;
    if ThreeAndTwo(d) {
      var n, k :| 1 <= n <= 6 && 1 <= k <= 6 && Times(d, n) == 3 && Times(d, k) == 2;
      TimesOf(d, n);
      TimesOf(d, k);
    }
    if Alike(d) {
      var n :| 1 <= n <= 6 && Times(d, n) == 5;
      TimesOf(d, n);
    }
  }

  lemma TimesCounted(d: dice, n: int)
    ensures Count(d, n) == Times(d, n)
  {
    CountIsTimes(d, n);
  }

  // --- Scores -----------------------------------------------------------------------

  /** What each of the twelve rows scores, as far as it is free; nothing else on the sheet changes. */
  lemma RowScores(s: sheet, d: dice, c: nat)
    requires c < 15
    ensures var t := Play(s, d, c);
            && (s[c] != -1 || c in {6, 7, 14} ==> t == s)
            && (s[c] == -1 && c !in {6, 7, 14} ==>
                  && t == s[c := t[c]]
                  && (c <= 5 ==> t[c] == (c + 1) * Times(d, c + 1))
                  && (c == 8 ==> t[c] == if Each(d, 1) then 15 else 0)
                  && (c == 9 ==> t[c] == if Each(d, 2) then 20 else 0)
                  && (c == 10 ==> t[c] == if 21 <= Sum(d) < s[11] then Sum(d) else 0)
                  && (c == 11 ==> t[c] == if 22 <= Sum(d) && s[10] < Sum(d) then Sum(d) else 0)
                  && (c == 12 ==> t[c] == if ThreeAndTwo(d) || Alike(d) then 25 else 0)
                  && (c == 13 ==> t[c] == if Alike(d) then 30 else 0))
  {
    hide Times, Each, Alike, ThreeAndTwo, HaveYum, HaveFullHouse, HaveLowStraight, HaveHighStraight, Count, Sum;
    LowStraight(d);
    HighStraight(d);
    FiveAlike(d);
    FullHouse(d);
    TimesCounted(d, c + 1);
  }

  /** Where the totals are, and what they add up. */
  lemma TotalsAdd(s: sheet)
    requires forall c | 0 <= c < 15 :: c in {6, 7, 14} || s[c] >= -1
    ensures var t := Update(s);
            && t == s[6 := t[6]][7 := t[7]][14 := t[14]]
            && t[6] == Points(s[0]) + Points(s[1]) + Points(s[2]) + Points(s[3]) + Points(s[4]) + Points(s[5])
            && t[7] == (if t[6] >= 63 then 25 else 0)
            && t[14] == t[6] + t[7] + Points(s[8]) + Points(s[9]) + Points(s[10]) + Points(s[11]) + Points(s[12])
                        + Points(s[13])
  {
    hide SumSet;
    UpperSum(s);
    LowerSum(s[6 := SumSet(s, 0, 6)][7 := if SumSet(s, 0, 6) >= 63 then 25 else 0]);
  }

  // --- The choice of the computer ---------------------------------------------------

  /** A number that so many dice show, with its row free. */
  predicate Wanted(s: sheet, d: dice, k: nat, n: nat) {
    1 <= n <= 6 && Times(d, n) == k && s[n - 1] == -1
  }

  /** The dice make one of the patterns that come before the sums, and its row is free. */
  ghost predicate Patterned(s: sheet, d: dice) {
    || (Alike(d) && s[13] == -1) || ((Alike(d) || ThreeAndTwo(d)) && s[12] == -1)
    || (Each(d, 2) && s[9] == -1) || (Each(d, 1) && s[8] == -1)
    || exists k, n | 3 <= k <= 5 :: Wanted(s, d, k, n)
  }

  lemma PicksAlike(s: sheet, d: dice, n: nat)
    requires 1 <= n <= 6 && Times(d, n) == 5
    ensures Pick(s, d) == 13 <== s[13] == -1
    ensures Pick(s, d) == n - 1 <== s[13] != -1 && s[n - 1] == -1
    ensures Pick(s, d) == 12 <== s[13] != -1 && s[n - 1] != -1 && s[12] == -1
  {
    TimesOf(d, n);
    hide Times, PickNumbers;
  }

  /** A full house and the straights exclude each other. */
  lemma PicksPattern(s: sheet, d: dice)
    ensures ThreeAndTwo(d) && s[12] == -1 ==> Pick(s, d) == 12
    ensures Each(d, 2) && s[9] == -1 ==> Pick(s, d) == 9
    ensures Each(d, 1) && s[8] == -1 ==> Pick(s, d) == 8
  {
    LowStraight(d);
    HighStraight(d);
    FullHouse(d);
    if ThreeAndTwo(d) {
      var n, k :| 1 <= n <= 6 && 1 <= k <= 6 && Times(d, n) == 3 && Times(d, k) == 2;
      TimesOf(d, n);
      TimesOf(d, k);
    }
    hide PickNumbers, Each, Alike, Times;
  }

  lemma {:induction false} SameMeans(d: dice, k: nat, n: nat)
    requires 1 <= n <= 7
    ensures var r := Same(d, k, n);
            if r == 0 then forall m | n <= m <= 6 :: Times(d, m) != k
            else n <= r <= 6 && Times(d, r) == k && forall m | n <= m < r :: Times(d, m) != k
    decreases 7 - n
  {
    hide Count, Times;
    if n < 7 {
      TimesCounted(d, n);
      SameMeans(d, k, n + 1);
    }
  }

  lemma OnlyOne(d: dice, k: nat, n: nat, m: nat)
    requires 3 <= k && Times(d, n) == k && Times(d, m) == k
    ensures n == m
  {
    TimesOf(d, n);
    TimesOf(d, m);
  }

  lemma NoPattern(d: dice, n: nat)
    requires 3 <= Times(d, n) <= 4
    ensures !Alike(d) && !Each(d, 1) && !Each(d, 2)
    ensures Times(d, n) == 4 ==> !ThreeAndTwo(d)
  {
    LowStraight(d);
    HighStraight(d);
    FullHouse(d);
    FiveAlike(d);
    TimesOf(d, n);
    hide Times, Each, Alike, ThreeAndTwo;
  }

  /** Three or four of a number whose row is free, when they are no full house that counts. */
  lemma PicksMany(s: sheet, d: dice, k: nat, n: nat)
    requires 3 <= k <= 4 && Wanted(s, d, k, n) && !(ThreeAndTwo(d) && s[12] == -1)
    ensures Pick(s, d) == n - 1
  {
    NoPattern(d, n);
    LowStraight(d);
    HighStraight(d);
    FullHouse(d);
    FiveAlike(d);
    SameMeans(d, 4, 1);
    SameMeans(d, 3, 1);
    if Same(d, k, 1) != 0 {
      OnlyOne(d, k, n, Same(d, k, 1));
    }
    if k == 3 && Same(d, 4, 1) != 0 {
      TimesOf(d, n);
      TimesOf(d, Same(d, 4, 1));
    }
    hide Times, Each, Alike, ThreeAndTwo, HaveYum, HaveFullHouse, HaveLowStraight, HaveHighStraight, Same, LoneDie,
         LowestFree;
  }

  lemma YumIsWanted(s: sheet, d: dice)
    requires HaveYum(d) && s[d[0] - 1] == -1
    ensures Wanted(s, d, 5, d[0])
  {
    TimesOf(d, d[0]);
  }

  lemma PatternsOnly(s: sheet, d: dice)
    requires !Patterned(s, d)
    ensures Pick(s, d) == PickNumbers(s, d) && !SameFree(s, d, 4) && !SameFree(s, d, 3)
  {
    LowStraight(d);
    HighStraight(d);
    FullHouse(d);
    FiveAlike(d);
    SameMeans(d, 4, 1);
    SameMeans(d, 3, 1);
    if HaveYum(d) && s[d[0] - 1] == -1 {
      YumIsWanted(s, d);
    }
    assert SameFree(s, d, 4) ==> Wanted(s, d, 4, Same(d, 4, 1));
    assert SameFree(s, d, 3) ==> Wanted(s, d, 3, Same(d, 3, 1));
    hide Times, Each, Alike, ThreeAndTwo, HaveYum, HaveFullHouse, HaveLowStraight, HaveHighStraight, Same, PickNumbers;
  }

  predicate HighCounts(s: sheet, d: dice) {
    Sum(d) >= 22 && s[11] == -1 && Sum(d) > s[10]
  }

  predicate LowCounts(s: sheet, d: dice) {
    Sum(d) >= 21 && s[10] == -1 && (s[11] == -1 || Sum(d) < s[11])
  }

  /** The lowest number that exactly two dice show. */
  predicate LowestPair(d: dice, n: nat) {
    1 <= n <= 6 && Times(d, n) == 2 && forall m | 1 <= m < n :: Times(d, m) != 2
  }

  /** The highest die with a free row. */
  predicate HighestFree(s: sheet, d: dice, k: nat) {
    k < 5 && s[d[k] - 1] == -1 && forall j | k < j < 5 :: s[d[j] - 1] != -1
  }

  lemma {:induction false} LoneDieIsHighest(s: sheet, d: dice, k: nat, n: nat)
    requires HighestFree(s, d, k) && k < n <= 5
    ensures LoneDie(s, d, n) == d[k] - 1
    decreases n
  {
    if k + 1 < n {
      LoneDieIsHighest(s, d, k, n - 1);
    }
  }

  lemma {:induction false} NoLoneDie(s: sheet, d: dice, n: nat)
    requires n <= 5 && forall k | 0 <= k < n :: s[d[k] - 1] != -1
    ensures LoneDie(s, d, n) == -1
  {
    if n > 0 {
      NoLoneDie(s, d, n - 1);
    }
  }

  lemma PairIsSame(s: sheet, d: dice)
    ensures forall n | LowestPair(d, n) :: Same(d, 2, 1) == n
    ensures Same(d, 2, 1) != 0 ==> LowestPair(d, Same(d, 2, 1))
  {
    hide Times;
    SameMeans(d, 2, 1);
  }

  /** Without a pattern: the high score, then the low score, then the lowest pair, if its row is free. */
  lemma PicksSums(s: sheet, d: dice, n: nat)
    requires !Patterned(s, d)
    ensures HighCounts(s, d) ==> Pick(s, d) == 11
    ensures !HighCounts(s, d) && LowCounts(s, d) ==> Pick(s, d) == 10
    ensures !HighCounts(s, d) && !LowCounts(s, d) && LowestPair(d, n) && s[n - 1] == -1 ==> Pick(s, d) == n - 1
  {
    PatternsOnly(s, d);
    PairIsSame(s, d);
    hide Patterned, Pick, Same, Sum, LoneDie, LowestFree, LowestPair;
  }

  /** Without anything of that: the highest die with a free row, or else the lowest free row. */
  lemma PicksAnything(s: sheet, d: dice, k: nat)
    requires !Patterned(s, d) && !HighCounts(s, d) && !LowCounts(s, d)
    requires forall n | LowestPair(d, n) :: s[n - 1] != -1
    ensures HighestFree(s, d, k) ==> Pick(s, d) == d[k] - 1
    ensures (forall j | 0 <= j < 5 :: s[d[j] - 1] != -1) && s[Pick(s, d)] == -1 ==>
              forall c | 0 <= c < Pick(s, d) :: s[c] != -1
  {
    PatternsOnly(s, d);
    PairIsSame(s, d);
    if HighestFree(s, d, k) {
      LoneDieIsHighest(s, d, k, 5);
    }
    if forall j | 0 <= j < 5 :: s[d[j] - 1] != -1 {
      NoLoneDie(s, d, 5);
    }
    hide Patterned, Pick, Same, Sum, LoneDie, LowestFree, LowestPair, Times;
  }
}
