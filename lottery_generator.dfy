/**
 * Ticket generation of `src/services/lotteryGenerator.ts`. Today's date string
 * is a parameter; the source reads it from the clock.
 */
module LotteryGenerator {
  import opened Wrappers
  import opened Sequences
  import opened RandomUtils
  import opened LotteryTypes

  /**
   * The SSQ ticket for a day: 6 red numbers sampled from 1..33, then one blue
   * number from 1..16 drawn by the seventh step of the same stream.
   */
  function SSQTicket(today: string): (t: LotteryNumbers)
    ensures Fits(t.red, t.blue, SSQ) && t.date == today && !t.purchased
  {
    var seed := DailySeed(today);
    var red := Sample(seed, 1, 33, 6);
    var blue := Scale(StepN(seed, 7), 1, 16);
    SampleIsPick(seed, 1, 33, 6);
    assert IsPick(red, 1, 33, 6) && IsPick([blue], 1, 16, 1);
    LotteryNumbers(red, [blue], today, false)
  }

  /**
   * The DLT ticket for a day: 5 red numbers sampled from 1..35, then 2 blue
   * numbers sampled from 1..12 by the stream as the red draws left it.
   */
  function DLTTicket(today: string): (t: LotteryNumbers)
    ensures Fits(t.red, t.blue, DLT) && t.date == today && !t.purchased
  {
    var seed := DailySeed(today);
    var red := Sample(seed, 1, 35, 5);
    var blue := Sample(StepN(seed, 5), 1, 12, 2);
    SampleIsPick(seed, 1, 35, 5);
    SampleIsPick(StepN(seed, 5), 1, 12, 2);
    assert IsPick(red, 1, 35, 5) && IsPick(blue, 1, 12, 2);
    LotteryNumbers(red, blue, today, false)
  }

  /**
   * The single blue `nextInt(1, 16)` is what sampling one number of 1..16 from
   * the stream after the red draws would give.
   */
  lemma SSQBlueIsOneSample(today: string)
    ensures SSQTicket(today).blue == Sample(StepN(DailySeed(today), 6), 1, 16, 1)
  {
    SampleOfOne(StepN(DailySeed(today), 6), 1, 16);
  }

  /** `generateSSQNumbers`. */
  method GenerateSSQNumbers(today: string) returns (t: LotteryNumbers)
    ensures t == SSQTicket(today)
    ensures Fits(t.red, t.blue, SSQ) && t.date == today && !t.purchased
  {
    var seed := GenerateSeed(today);
    var random := new SeededRandom(seed);
    var red := SelectRandomNumbers(random, 1, 33, 6);
    var b := random.NextInt(1, 16);
    t := LotteryNumbers(red, [b], today, false);
  }

  /** `generateDLTNumbers`. */
  method GenerateDLTNumbers(today: string) returns (t: LotteryNumbers)
    ensures t == DLTTicket(today)
    ensures Fits(t.red, t.blue, DLT) && t.date == today && !t.purchased
  {
    var seed := GenerateSeed(today);
    var random := new SeededRandom(seed);
    var red := SelectRandomNumbers(random, 1, 35, 5);
    var blue := SelectRandomNumbers(random, 1, 12, 2);
    t := LotteryNumbers(red, blue, today, false);
  }

  /** `generateLotteryNumbers`: dispatches on the tag and throws for any other. */
  method GenerateLotteryNumbers(lotteryType: LotteryType, today: string) returns (r: Result<LotteryNumbers, string>)
    ensures lotteryType == SSQTag ==> r == Ok(SSQTicket(today))
    ensures lotteryType == DLTTag ==> r == Ok(DLTTicket(today))
    ensures lotteryType != SSQTag && lotteryType != DLTTag ==>
      r == Err("Unsupported lottery type: " + lotteryType)
  {
    if lotteryType == SSQTag {
      var t := GenerateSSQNumbers(today);
      r := Ok(t);
    } else if lotteryType == DLTTag {
      var t := GenerateDLTNumbers(today);
      r := Ok(t);
    } else {
      r := Err("Unsupported lottery type: " + lotteryType);
    }
  }

  /**
   * Determinism: generating twice for the same day and tag gives the same
   * ticket, or the same error.
   */
  method GenerateTwice(lotteryType: LotteryType, today: string) returns (first: Result<LotteryNumbers, string>, second: Result<LotteryNumbers, string>)
    ensures first == second
    ensures first.Ok? <==> lotteryType == SSQTag || lotteryType == DLTTag
  {
    first := GenerateLotteryNumbers(lotteryType, today);
    second := GenerateLotteryNumbers(lotteryType, today);
  }
}
