/**
 * Prize classification of `src/services/prizeChecker.ts`: count the matching
 * red and blue numbers, then look the pair of counts up in the format's rules,
 * first hit winning.
 */
module PrizeChecker {
  import opened Wrappers
  import opened Sequences
  import opened LotteryTypes

  /**
   * `mine.filter(num => drawn.includes(num)).length`: how many entries of mine
   * occur in drawn, counted with repetition.
   */
  function MatchCount(mine: seq<int>, drawn: seq<int>): (n: nat)
    ensures n <= |mine|
  {
    if mine == [] then 0
    else (if mine[0] in drawn then 1 else 0) + MatchCount(mine[1..], drawn)
  }

  /** Every entry matches exactly when the count is the whole length. */
  lemma {:induction false} MatchCountFull(mine: seq<int>, drawn: seq<int>)
    ensures MatchCount(mine, drawn) == |mine| <==> forall x :: x in mine ==> x in drawn
  {
    if mine != [] {
      MatchCountFull(mine[1..], drawn);
      assert mine == [mine[0]] + mine[1..];
      if forall x :: x in mine ==> x in drawn {
        assert mine[0] in mine;
        assert forall x :: x in mine[1..] ==> x in mine;
      }
    }
  }

  /** For distinct numbers the count is the size of the intersection of the two sets. */
  lemma {:induction false} MatchCountIsIntersection(mine: seq<int>, drawn: seq<int>)
    requires Distinct(mine)
    ensures MatchCount(mine, drawn) == |set x | x in mine && x in drawn|
  {
    if mine == [] {
      assert (set x | x in mine && x in drawn) == {};
    } else {
      var rest := mine[1..];
      assert Distinct(rest) by {
        forall i, j | 0 <= i < j < |rest| ensures rest[i] != rest[j] {
          assert rest[i] == mine[i + 1] && rest[j] == mine[j + 1];
        }
      }
      assert mine[0] !in rest by {
        forall k | 0 <= k < |rest| ensures rest[k] != mine[0] { assert rest[k] == mine[k + 1]; }
      }
      MatchCountIsIntersection(rest, drawn);
      var tail := set x | x in rest && x in drawn;
      var all := set x | x in mine && x in drawn;
      assert mine == [mine[0]] + rest;
      if mine[0] in drawn {
        assert all == {mine[0]} + tail;
        assert mine[0] !in tail;
      } else {
        assert all == tail;
      }
    }
  }

  /** One row of a rule table: a test on the red count, the blue count, the level. */
  datatype RedTest = Exactly(n: nat) | Below(n: nat)
  datatype Rule = Rule(red: RedTest, blue: nat, prize: PrizeLevel)

  predicate Hits(rule: Rule, red: nat, blue: nat)
  {
    (match rule.red
     case Exactly(n) => red == n
     case Below(n) => red < n)
    && blue == rule.blue
  }

  /** The level of the first rule the counts hit, or None when none does. */
  function FirstHit(rules: seq<Rule>, red: nat, blue: nat): Option<PrizeLevel>
  {
    if rules == [] then None
    else if Hits(rules[0], red, blue) then Some(rules[0].prize)
    else FirstHit(rules[1..], red, blue)
  }

  /**
   * First hit wins: the result is None exactly when no rule hits, and
   * otherwise the level of a rule that hits with no rule before it hitting.
   */
  lemma {:induction false} FirstHitIsFirst(rules: seq<Rule>, red: nat, blue: nat)
    ensures FirstHit(rules, red, blue).None? <==> forall k | 0 <= k < |rules| :: !Hits(rules[k], red, blue)
    ensures FirstHit(rules, red, blue).Some? ==> exists k | 0 <= k < |rules| ::
      Hits(rules[k], red, blue) && rules[k].prize == FirstHit(rules, red, blue).value
      && forall j | 0 <= j < k :: !Hits(rules[j], red, blue)
  {
    if rules != [] && !Hits(rules[0], red, blue) {
      FirstHitIsFirst(rules[1..], red, blue);
      assert forall k | 1 <= k < |rules| :: rules[k] == rules[1..][k - 1];
      if FirstHit(rules, red, blue).Some? {
        var k :| 0 <= k < |rules[1..]| && Hits(rules[1..][k], red, blue)
          && rules[1..][k].prize == FirstHit(rules, red, blue).value
          && forall j | 0 <= j < k :: !Hits(rules[1..][j], red, blue);
        assert Hits(rules[k + 1], red, blue);
        assert forall j | 0 <= j < k + 1 :: !Hits(rules[j], red, blue) by {
          forall j | 0 <= j < k + 1 ensures !Hits(rules[j], red, blue) {
            if j > 0 { assert rules[j] == rules[1..][j - 1]; }
          }
        }
      }
    } else if rules != [] {
      assert Hits(rules[0], red, blue);
    }
  }

  /** The rules of `checkSSQPrize`, in the order the source tests them. */
  const SSQRules: seq<Rule> := [
    Rule(Exactly(6), 1, First),
    Rule(Exactly(6), 0, Second),
    Rule(Exactly(5), 1, Third),
    Rule(Exactly(5), 0, Fourth),
    Rule(Exactly(4), 1, Fourth),
    Rule(Exactly(4), 0, Fifth),
    Rule(Exactly(3), 1, Fifth),
    Rule(Below(3), 1, SixthFiveYuan),
    Rule(Exactly(2), 1, SixthFiveYuan),
    Rule(Exactly(1), 1, SixthFiveYuan),
    Rule(Exactly(0), 1, SixthFiveYuan)
  ]

  /** The rules of `checkDLTPrize`, in the order the source tests them. */
  const DLTRules: seq<Rule> := [
    Rule(Exactly(5), 2, First),
    Rule(Exactly(5), 1, Second),
    Rule(Exactly(5), 0, Third),
    Rule(Exactly(4), 2, Fourth),
    Rule(Exactly(4), 1, Fifth),
    Rule(Exactly(3), 2, Sixth),
    Rule(Exactly(4), 0, Seventh),
    Rule(Exactly(3), 1, Eighth),
    Rule(Exactly(2), 2, Eighth),
    Rule(Exactly(3), 0, NinthFiveYuan),
    Rule(Exactly(1), 2, NinthFiveYuan),
    Rule(Exactly(2), 1, NinthFiveYuan),
    Rule(Exactly(0), 2, NinthFiveYuan)
  ]

  /** `checkSSQPrize`: the chain of comparisons. */
  function CheckSSQPrize(redMatches: nat, blueMatches: nat): Option<PrizeLevel>
  {
    if redMatches == 6 && blueMatches == 1 then Some(First)
    else if redMatches == 6 && blueMatches == 0 then Some(Second)
    else if redMatches == 5 && blueMatches == 1 then Some(Third)
    else if redMatches == 5 && blueMatches == 0 then Some(Fourth)
    else if redMatches == 4 && blueMatches == 1 then Some(Fourth)
    else if redMatches == 4 && blueMatches == 0 then Some(Fifth)
    else if redMatches == 3 && blueMatches == 1 then Some(Fifth)
    else if redMatches < 3 && blueMatches == 1 then Some(SixthFiveYuan)
    else if redMatches == 2 && blueMatches == 1 then Some(SixthFiveYuan)
    else if redMatches == 1 && blueMatches == 1 then Some(SixthFiveYuan)
    else if redMatches == 0 && blueMatches == 1 then Some(SixthFiveYuan)
    else None
  }

  /** `checkDLTPrize`: the chain of comparisons. */
  function CheckDLTPrize(redMatches: nat, blueMatches: nat): Option<PrizeLevel>
  {
    if redMatches == 5 && blueMatches == 2 then Some(First)
    else if redMatches == 5 && blueMatches == 1 then Some(Second)
    else if redMatches == 5 && blueMatches == 0 then Some(Third)
    else if redMatches == 4 && blueMatches == 2 then Some(Fourth)
    else if redMatches == 4 && blueMatches == 1 then Some(Fifth)
    else if redMatches == 3 && blueMatches == 2 then Some(Sixth)
    else if redMatches == 4 && blueMatches == 0 then Some(Seventh)
    else if redMatches == 3 && blueMatches == 1 then Some(Eighth)
    else if redMatches == 2 && blueMatches == 2 then Some(Eighth)
    else if redMatches == 3 && blueMatches == 0 then Some(NinthFiveYuan)
    else if redMatches == 1 && blueMatches == 2 then Some(NinthFiveYuan)
    else if redMatches == 2 && blueMatches == 1 then Some(NinthFiveYuan)
    else if redMatches == 0 && blueMatches == 2 then Some(NinthFiveYuan)
    else None
  }

  /** One step of reading a table from position k. */
  lemma FirstHitFrom(rules: seq<Rule>, k: nat, red: nat, blue: nat)
    requires k < |rules|
    ensures FirstHit(rules[k..], red, blue)
         == if Hits(rules[k], red, blue) then Some(rules[k].prize) else FirstHit(rules[k + 1..], red, blue)
  {
    assert rules[k..][1..] == rules[k + 1..];
  }

  /** The SSQ comparison chain is the SSQ rule table read first hit first. */
  lemma SSQChainIsTable(red: nat, blue: nat)
    ensures CheckSSQPrize(red, blue) == FirstHit(SSQRules, red, blue)
  {
    assert SSQRules[0..] == SSQRules && SSQRules[11..] == [];
    FirstHitFrom(SSQRules, 0, red, blue);
    FirstHitFrom(SSQRules, 1, red, blue);
    FirstHitFrom(SSQRules, 2, red, blue);
    FirstHitFrom(SSQRules, 3, red, blue);
    FirstHitFrom(SSQRules, 4, red, blue);
    FirstHitFrom(SSQRules, 5, red, blue);
    FirstHitFrom(SSQRules, 6, red, blue);
    FirstHitFrom(SSQRules, 7, red, blue);
    FirstHitFrom(SSQRules, 8, red, blue);
    FirstHitFrom(SSQRules, 9, red, blue);
    FirstHitFrom(SSQRules, 10, red, blue);
  }

  /** The DLT comparison chain is the DLT rule table read first hit first. */
  lemma DLTChainIsTable(red: nat, blue: nat)
    ensures CheckDLTPrize(red, blue) == FirstHit(DLTRules, red, blue)
  {
    assert DLTRules[0..] == DLTRules && DLTRules[13..] == [];
    FirstHitFrom(DLTRules, 0, red, blue);
    FirstHitFrom(DLTRules, 1, red, blue);
    FirstHitFrom(DLTRules, 2, red, blue);
    FirstHitFrom(DLTRules, 3, red, blue);
    FirstHitFrom(DLTRules, 4, red, blue);
    FirstHitFrom(DLTRules, 5, red, blue);
    FirstHitFrom(DLTRules, 6, red, blue);
    FirstHitFrom(DLTRules, 7, red, blue);
    FirstHitFrom(DLTRules, 8, red, blue);
    FirstHitFrom(DLTRules, 9, red, blue);
    FirstHitFrom(DLTRules, 10, red, blue);
    FirstHitFrom(DLTRules, 11, red, blue);
    FirstHitFrom(DLTRules, 12, red, blue);
  }

  /**
   * Rules past position m can be dropped when any of them that hits is
   * preceded by a rule before m that also hits.
   */
  lemma {:induction false} FirstHitIgnoresShadowed(rules: seq<Rule>, m: nat, red: nat, blue: nat)
    requires m <= |rules|
    requires forall k | m <= k < |rules| :: Hits(rules[k], red, blue) ==>
      exists j | 0 <= j < m :: Hits(rules[j], red, blue)
    ensures FirstHit(rules[..m], red, blue) == FirstHit(rules, red, blue)
  {
    if m == 0 {
      FirstHitIsFirst(rules, red, blue);
      assert rules[..m] == [];
    } else if !Hits(rules[0], red, blue) {
      var rest := rules[1..];
      assert rules[..m][1..] == rest[..m - 1];
      forall k | m - 1 <= k < |rest| && Hits(rest[k], red, blue)
        ensures exists j | 0 <= j < m - 1 :: Hits(rest[j], red, blue)
      {
        assert rest[k] == rules[k + 1];
        var j :| 0 <= j < m && Hits(rules[j], red, blue);
        assert rest[j - 1] == rules[j];
      }
      FirstHitIgnoresShadowed(rest, m - 1, red, blue);
    }
  }

  /**
   * The last three SSQ rules can never be the first hit: the `red < 3` rule
   * before them already covers them.
   */
  lemma SSQLastRulesUnreachable(red: nat, blue: nat)
    ensures FirstHit(SSQRules[..8], red, blue) == FirstHit(SSQRules, red, blue)
  {
    forall k | 8 <= k < |SSQRules| && Hits(SSQRules[k], red, blue)
      ensures exists j | 0 <= j < 8 :: Hits(SSQRules[j], red, blue)
    {
      assert Hits(SSQRules[7], red, blue);
    }
    FirstHitIgnoresShadowed(SSQRules, 8, red, blue);
  }

  /** For possible counts, SSQ gives no prize exactly when no blue and fewer than 4 red match. */
  lemma SSQNoPrize(red: nat, blue: nat)
    requires red <= 6 && blue <= 1
    ensures CheckSSQPrize(red, blue).None? <==> blue == 0 && red < 4
  {
  }

  /**
   * For possible counts, DLT gives no prize exactly for (2,0), (1,1), (1,0),
   * (0,1) and (0,0).
   */
  lemma DLTNoPrize(red: nat, blue: nat)
    requires red <= 5 && blue <= 2
    ensures CheckDLTPrize(red, blue).None? <==> (blue == 0 && red <= 2) || (blue == 1 && red <= 1)
  {
  }

  /** Levels ranked from 9 (First) down to 1 (NinthFiveYuan), both sixth levels at 4; no prize ranks 0. */
  function Rank(p: Option<PrizeLevel>): nat
  {
    match p
    case None => 0
    case Some(First) => 9
    case Some(Second) => 8
    case Some(Third) => 7
    case Some(Fourth) => 6
    case Some(Fifth) => 5
    case Some(Sixth) => 4
    case Some(SixthFiveYuan) => 4
    case Some(Seventh) => 3
    case Some(Eighth) => 2
    case Some(NinthFiveYuan) => 1
  }

  /** Matching more red or more blue numbers never gives a lower SSQ level. */
  lemma SSQMonotone(red: nat, blue: nat, red': nat, blue': nat)
    requires red <= red' <= 6 && blue <= blue' <= 1
    ensures Rank(CheckSSQPrize(red, blue)) <= Rank(CheckSSQPrize(red', blue'))
  {
  }

  /** Matching more red or more blue numbers never gives a lower DLT level. */
  lemma DLTMonotone(red: nat, blue: nat, red': nat, blue': nat)
    requires red <= red' <= 5 && blue <= blue' <= 2
    ensures Rank(CheckDLTPrize(red, blue)) <= Rank(CheckDLTPrize(red', blue'))
  {
  }

  /**
   * `checkPrize`: no prize when either record is absent; otherwise the match
   * counts are looked up with the SSQ rules for `'ssq'` and with the DLT rules
   * for every other tag.
   */
  function CheckPrize(personal: Option<LotteryNumbers>, winning: Option<WinningNumbers>, lotteryType: LotteryType): (prize: Option<PrizeLevel>)
    ensures personal.None? || winning.None? ==> prize.None?
  {
    if personal.None? || winning.None? then None
    else
      var redMatches := MatchCount(personal.value.red, winning.value.red);
      var blueMatches := MatchCount(personal.value.blue, winning.value.blue);
      if lotteryType == SSQTag then CheckSSQPrize(redMatches, blueMatches)
      else CheckDLTPrize(redMatches, blueMatches)
  }

  /** Any tag but `'ssq'` is classified as DLT; the check does not reject it. */
  lemma OtherTagsUseDLT(personal: LotteryNumbers, winning: WinningNumbers, lotteryType: LotteryType)
    requires lotteryType != SSQTag
    ensures CheckPrize(Some(personal), Some(winning), lotteryType)
         == CheckPrize(Some(personal), Some(winning), DLTTag)
         == FirstHit(DLTRules, MatchCount(personal.red, winning.red), MatchCount(personal.blue, winning.blue))
  {
    DLTChainIsTable(MatchCount(personal.red, winning.red), MatchCount(personal.blue, winning.blue));
  }

  /** A ticket of a format whose numbers all occur in the drawing wins the top level. */
  lemma FullMatchWinsFirst(personal: LotteryNumbers, winning: WinningNumbers, lotteryType: LotteryType)
    requires lotteryType == SSQTag || lotteryType == DLTTag
    requires Fits(personal.red, personal.blue, if lotteryType == SSQTag then SSQ else DLT)
    requires forall x :: x in personal.red ==> x in winning.red
    requires forall x :: x in personal.blue ==> x in winning.blue
    ensures CheckPrize(Some(personal), Some(winning), lotteryType) == Some(First)
  {
    MatchCountFull(personal.red, winning.red);
    MatchCountFull(personal.blue, winning.blue);
  }

  /** One entry of `checkMultiplePrizes`' result. */
  datatype Entry = Entry(personal: LotteryNumbers, winning: WinningNumbers, prize: PrizeLevel)

  /** The pairs checked against one personal ticket, in the order of the drawings. */
  function Row(personal: LotteryNumbers, winningNumbers: seq<WinningNumbers>): (pairs: seq<(LotteryNumbers, WinningNumbers)>)
    ensures |pairs| == |winningNumbers|
    ensures forall j | 0 <= j < |pairs| :: pairs[j] == (personal, winningNumbers[j])
  {
    if winningNumbers == [] then []
    else Row(personal, winningNumbers[..|winningNumbers| - 1]) + [(personal, winningNumbers[|winningNumbers| - 1])]
  }

  /** All pairs checked, personal-major: every drawing for the first ticket, then for the next. */
  function Pairs(personalHistory: seq<LotteryNumbers>, winningNumbers: seq<WinningNumbers>): (pairs: seq<(LotteryNumbers, WinningNumbers)>)
  {
    if personalHistory == [] then []
    else
      var n := |personalHistory| - 1;
      Pairs(personalHistory[..n], winningNumbers) + Row(personalHistory[n], winningNumbers)
  }

  /** Pair number i * |winningNumbers| + j is personal ticket i against drawing j. */
  lemma {:induction false} PairsAt(personalHistory: seq<LotteryNumbers>, winningNumbers: seq<WinningNumbers>, i: nat, j: nat)
    requires i < |personalHistory| && j < |winningNumbers|
    ensures |Pairs(personalHistory, winningNumbers)| == |personalHistory| * |winningNumbers|
    ensures i * |winningNumbers| + j < |Pairs(personalHistory, winningNumbers)|
    ensures Pairs(personalHistory, winningNumbers)[i * |winningNumbers| + j] == (personalHistory[i], winningNumbers[j])
  {
    var n := |personalHistory| - 1;
    var w := |winningNumbers|;
    var front := personalHistory[..n];
    PairsLength(front, winningNumbers);
    if i < n {
      PairsAt(front, winningNumbers, i, j);
      assert i * w + j < n * w by { MultiplyBelow(i, n, w, j); }
    } else {
      assert i * w + j == n * w + j;
    }
    assert (n + 1) * w == n * w + w;
  }

  lemma {:induction false} PairsLength(personalHistory: seq<LotteryNumbers>, winningNumbers: seq<WinningNumbers>)
    ensures |Pairs(personalHistory, winningNumbers)| == |personalHistory| * |winningNumbers|
  {
    if personalHistory != [] {
      var n := |personalHistory| - 1;
      PairsLength(personalHistory[..n], winningNumbers);
      assert (n + 1) * |winningNumbers| == n * |winningNumbers| + |winningNumbers|;
    }
  }

  lemma MultiplyBelow(i: nat, n: nat, w: nat, j: nat)
    requires i < n && j < w
    ensures i * w + j < n * w
  {
    assert (i + 1) * w <= n * w;
  }

  /** The winning pairs, in the order given, each with its level. */
  function Wins(pairs: seq<(LotteryNumbers, WinningNumbers)>, lotteryType: LotteryType): (entries: seq<Entry>)
    ensures |entries| <= |pairs|
    ensures forall e | e in entries ::
      (e.personal, e.winning) in pairs && CheckPrize(Some(e.personal), Some(e.winning), lotteryType) == Some(e.prize)
  {
    if pairs == [] then []
    else
      var n := |pairs| - 1;
      var front := Wins(pairs[..n], lotteryType);
      var last := pairs[n];
      assert forall p | p in pairs[..n] :: p in pairs;
      match CheckPrize(Some(last.0), Some(last.1), lotteryType)
      case None => front
      case Some(prize) => front + [Entry(last.0, last.1, prize)]
  }

  lemma {:induction false} WinsAppend(a: seq<(LotteryNumbers, WinningNumbers)>, b: seq<(LotteryNumbers, WinningNumbers)>, lotteryType: LotteryType)
    ensures Wins(a + b, lotteryType) == Wins(a, lotteryType) + Wins(b, lotteryType)
    decreases |b|
  {
    if b != [] {
      var n := |b| - 1;
      WinsAppend(a, b[..n], lotteryType);
      assert (a + b)[..|a + b| - 1] == a + b[..n];
      assert (a + b)[|a + b| - 1] == b[n];
    } else {
      assert a + b == a;
    }
  }

  /** Every winning pair is reported: none is dropped by the filter. */
  lemma {:induction false} WinsComplete(pairs: seq<(LotteryNumbers, WinningNumbers)>, lotteryType: LotteryType, k: nat)
    requires k < |pairs|
    requires CheckPrize(Some(pairs[k].0), Some(pairs[k].1), lotteryType).Some?
    ensures Entry(pairs[k].0, pairs[k].1, CheckPrize(Some(pairs[k].0), Some(pairs[k].1), lotteryType).value)
      in Wins(pairs, lotteryType)
  {
    var n := |pairs| - 1;
    if k < n {
      WinsComplete(pairs[..n], lotteryType, k);
    }
  }

  /** One more drawing in the inner loop adds at most its own entry to the row's wins. */
  lemma RowStep(personal: LotteryNumbers, winningNumbers: seq<WinningNumbers>, j: nat, lotteryType: LotteryType)
    requires j < |winningNumbers|
    ensures var prize := CheckPrize(Some(personal), Some(winningNumbers[j]), lotteryType);
      Wins(Row(personal, winningNumbers[..j + 1]), lotteryType)
      == Wins(Row(personal, winningNumbers[..j]), lotteryType)
         + (if prize.Some? then [Entry(personal, winningNumbers[j], prize.value)] else [])
  {
    var pair := (personal, winningNumbers[j]);
    assert winningNumbers[..j + 1][..j] == winningNumbers[..j];
    assert Row(personal, winningNumbers[..j + 1]) == Row(personal, winningNumbers[..j]) + [pair];
    WinsAppend(Row(personal, winningNumbers[..j]), [pair], lotteryType);
  }

  /** The inner loop's step: pushing the entry of drawing j, if it wins, extends the row's wins. */
  lemma InnerStep(before: seq<Entry>, results: seq<Entry>, personal: LotteryNumbers, winningNumbers: seq<WinningNumbers>,
                  j: nat, lotteryType: LotteryType)
    requires j < |winningNumbers|
    requires results == before + Wins(Row(personal, winningNumbers[..j]), lotteryType)
    ensures var prize := CheckPrize(Some(personal), Some(winningNumbers[j]), lotteryType);
      (if prize.Some? then results + [Entry(personal, winningNumbers[j], prize.value)] else results)
      == before + Wins(Row(personal, winningNumbers[..j + 1]), lotteryType)
  {
    RowStep(personal, winningNumbers, j, lotteryType);
    var prize := CheckPrize(Some(personal), Some(winningNumbers[j]), lotteryType);
    if prize.Some? {
      var e := Entry(personal, winningNumbers[j], prize.value);
      assert results + [e] == before + (Wins(Row(personal, winningNumbers[..j]), lotteryType) + [e]);
    }
  }

  /** The outer loop's step: a finished row extends the wins of the tickets before it. */
  lemma OuterStep(results: seq<Entry>, personalHistory: seq<LotteryNumbers>, winningNumbers: seq<WinningNumbers>,
                  i: nat, lotteryType: LotteryType)
    requires i < |personalHistory|
    requires results == Wins(Pairs(personalHistory[..i], winningNumbers), lotteryType)
                      + Wins(Row(personalHistory[i], winningNumbers[..|winningNumbers|]), lotteryType)
    ensures results == Wins(Pairs(personalHistory[..i + 1], winningNumbers), lotteryType)
  {
    assert winningNumbers[..|winningNumbers|] == winningNumbers;
    assert personalHistory[..i + 1][..i] == personalHistory[..i];
    WinsAppend(Pairs(personalHistory[..i], winningNumbers), Row(personalHistory[i], winningNumbers), lotteryType);
  }

  /**
   * `checkMultiplePrizes`: checks every personal ticket against every drawing,
   * personal-major, and keeps the pairs that win, with their level.
   */
  method CheckMultiplePrizes(personalHistory: seq<LotteryNumbers>, winningNumbers: seq<WinningNumbers>, lotteryType: LotteryType)
    returns (results: seq<Entry>)
    ensures results == Wins(Pairs(personalHistory, winningNumbers), lotteryType)
    ensures |results| <= |personalHistory| * |winningNumbers|
  {
    results := [];
    for i := 0 to |personalHistory|
      invariant results == Wins(Pairs(personalHistory[..i], winningNumbers), lotteryType)
    {
      var personal := personalHistory[i];
      ghost var before := results;
      for j := 0 to |winningNumbers|
        invariant results == before + Wins(Row(personal, winningNumbers[..j]), lotteryType)
      {
        var winning := winningNumbers[j];
        var prize := CheckPrize(Some(personal), Some(winning), lotteryType);
        InnerStep(before, results, personal, winningNumbers, j, lotteryType);
        if prize.Some? {
          results := results + [Entry(personal, winning, prize.value)];
        }
      }
      OuterStep(results, personalHistory, winningNumbers, i, lotteryType);
    }
    assert personalHistory[..|personalHistory|] == personalHistory;
    PairsLength(personalHistory, winningNumbers);
  }

  /** SSQ fallback drawing 2025096 against itself: 6 red and 1 blue match. */
  lemma SSQJackpotVector()
    ensures CheckPrize(Some(LotteryNumbers([7, 9, 11, 12, 16, 29], [15], "2025-08-21", false)),
                       Some(WinningNumbers(2025096, "2025-08-21", [7, 9, 11, 12, 16, 29], [15])), SSQTag)
         == Some(First)
  {
  }

  /** A ticket with the red numbers of drawing 2025096 and blue 4 instead of 15: the second level. */
  lemma SSQSecondVector()
    ensures CheckPrize(Some(LotteryNumbers([7, 9, 11, 12, 16, 29], [4], "2025-08-21", false)),
                       Some(WinningNumbers(2025096, "2025-08-21", [7, 9, 11, 12, 16, 29], [15])), SSQTag)
         == Some(Second)
  {
  }

  /** SSQ fallback drawings 2025096 and 2025095 share only 16: no prize. */
  lemma SSQNoPrizeVector()
    ensures CheckPrize(Some(LotteryNumbers([7, 9, 11, 12, 16, 29], [15], "2025-08-21", false)),
                       Some(WinningNumbers(2025095, "2025-08-19", [15, 16, 22, 23, 26, 32], [4])), SSQTag)
         == None
  {
  }

  /** DLT fallback drawing 25094 against itself: 5 red and 2 blue match. */
  lemma DLTJackpotVector()
    ensures CheckPrize(Some(LotteryNumbers([4, 9, 17, 30, 33], [5, 9], "2025-08-18", false)),
                       Some(WinningNumbers(25094, "2025-08-18", [4, 9, 17, 30, 33], [5, 9])), DLTTag)
         == Some(First)
  {
  }

  /** DLT fallback drawings 25094 and 25091 share 4 and 17 and blue 9: the ninth level. */
  lemma DLTNinthVector()
    ensures CheckPrize(Some(LotteryNumbers([4, 9, 17, 30, 33], [5, 9], "2025-08-18", false)),
                       Some(WinningNumbers(25091, "2025-08-10", [4, 11, 17, 24, 32], [6, 9])), DLTTag)
         == Some(NinthFiveYuan)
  {
  }

  /**
   * DLT fallback ticket 25094 against a constructed drawing (period 0) that
   * shares 3 red and both blue numbers: the bare sixth level, "六等奖".
   */
  lemma DLTSixthVector()
    ensures CheckPrize(Some(LotteryNumbers([4, 9, 17, 30, 33], [5, 9], "2025-08-18", false)),
                       Some(WinningNumbers(0, "", [1, 2, 4, 9, 17], [5, 9])), DLTTag)
         == Some(Sixth)
    ensures Label(Sixth) == "六等奖"
  {
  }

  /**
   * The DLT chain returns a string outside the declared level union for
   * exactly one pair of counts, (3, 2); every other level either checker
   * returns is declared.
   */
  lemma UndeclaredLevelOnlyAtDLTThreeTwo(red: nat, blue: nat)
    ensures CheckSSQPrize(red, blue).Some? ==> Label(CheckSSQPrize(red, blue).value) in DeclaredLabels
    ensures CheckDLTPrize(red, blue).Some? ==>
      (Label(CheckDLTPrize(red, blue).value) !in DeclaredLabels <==> red == 3 && blue == 2)
  {
    if CheckSSQPrize(red, blue).Some? {
      DeclaredExceptSixth(CheckSSQPrize(red, blue).value);
    }
    if CheckDLTPrize(red, blue).Some? {
      DeclaredExceptSixth(CheckDLTPrize(red, blue).value);
    }
  }
}
