/**
 * The records and labels of `src/types/lottery.ts`, and the two fixed
 * number formats the generator and the prize checker hard-code.
 */
module LotteryTypes {
  import opened Sequences

  /** The format tags `'ssq'` and `'dlt'`; any other string is an unknown tag. */
  type LotteryType = string

  const SSQTag: LotteryType := "ssq"
  const DLTTag: LotteryType := "dlt"

  /** A personal ticket: its numbers, the day it was generated for, and whether it was bought. */
  datatype LotteryNumbers = LotteryNumbers(red: seq<int>, blue: seq<int>, date: string, purchased: bool)

  /** An official drawing result. */
  datatype WinningNumbers = WinningNumbers(period: int, date: string, red: seq<int>, blue: seq<int>)

  /**
   * The non-null prize levels; `null` (no prize) is `None` of an Option.
   * `Sixth` is the bare sixth level the DLT checker returns, next to the SSQ
   * checker's `SixthFiveYuan`.
   */
  datatype PrizeLevel =
    | First | Second | Third | Fourth | Fifth | Sixth | SixthFiveYuan | Seventh | Eighth | NinthFiveYuan

  /** The label each level carries in the source. */
  function Label(p: PrizeLevel): string
  {
    match p
    case First => "一等奖"
    case Second => "二等奖"
    case Third => "三等奖"
    case Fourth => "四等奖"
    case Fifth => "五等奖"
    case Sixth => "六等奖"
    case SixthFiveYuan => "六等奖 5元"
    case Seventh => "七等奖"
    case Eighth => "八等奖"
    case NinthFiveYuan => "九等奖 5元"
  }

  /** The strings the declared prize-level union lists, `null` aside. */
  const DeclaredLabels: set<string> := {
    "一等奖", "二等奖", "三等奖", "四等奖", "五等奖", "六等奖 5元", "七等奖", "八等奖", "九等奖 5元"
  }

  /** The strings the checkers can return: the declared ones and the bare "六等奖". */
  const LevelLabels: set<string> := DeclaredLabels + {"六等奖"}

  /** Every level the declared union lists except the bare sixth level. */
  lemma DeclaredExceptSixth(p: PrizeLevel)
    ensures Label(p) in DeclaredLabels <==> p != Sixth
  {
    assert "六等奖" != "六等奖 5元";
  }

  /** Every level's label is one of the strings the checkers return. */
  lemma LabelsCoverCheckerStrings(p: PrizeLevel)
    ensures Label(p) in LevelLabels
  {
    DeclaredExceptSixth(p);
  }

  /** Different levels carry different labels. */
  lemma LabelIsInjective(p: PrizeLevel, q: PrizeLevel)
    ensures Label(p) == Label(q) ==> p == q
  {
    if Label(p) == Label(q) {
      assert Label(p)[0] == Label(q)[0] && |Label(p)| == |Label(q)|;
    }
  }

  /** A format: how many red and blue numbers a ticket holds, and their ranges. */
  datatype Format = Format(redMin: int, redMax: int, redCount: nat, blueMin: int, blueMax: int, blueCount: nat)

  /** 6 red of 1..33 and 1 blue of 1..16. */
  const SSQ: Format := Format(1, 33, 6, 1, 16, 1)

  /** 5 red of 1..35 and 2 blue of 1..12. */
  const DLT: Format := Format(1, 35, 5, 1, 12, 2)

  /** count distinct values of [min, max], ascending. */
  predicate IsPick(xs: seq<int>, min: int, max: int, count: nat)
  {
    |xs| == count && StrictlyAscending(xs) && forall x :: x in xs ==> min <= x <= max
  }

  /** The red and the blue numbers each form a pick of the format. */
  predicate Fits(red: seq<int>, blue: seq<int>, f: Format)
  {
    IsPick(red, f.redMin, f.redMax, f.redCount) && IsPick(blue, f.blueMin, f.blueMax, f.blueCount)
  }
}
