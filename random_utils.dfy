/**
 * The seeded pseudo-random stream, the daily seed and the distinct-number
 * sampler of `src/utils/randomUtils.ts`.
 *
 * The generator's `next()` yields `seed / 233280` as a double; here it yields
 * the same quotient as an exact `real`, and `nextInt` floors the exact product.
 */
module RandomUtils {
  import opened Sequences

  const Multiplier: int := 9301
  const Increment: int := 49297
  const Modulus: int := 233280

  /**
   * JavaScript's `a % 233280`: the remainder of the division truncated toward
   * zero, so it takes the sign of the dividend.
   */
  function JsRem(a: int): (r: int)
    ensures a >= 0 ==> 0 <= r < Modulus
    ensures a < 0 ==> -Modulus < r <= 0
    ensures (a - r) % Modulus == 0
  {
    if a >= 0 then a % Modulus else -((-a) % Modulus)
  }

  /** One step of the linear congruential generator. */
  function Step(seed: int): (next: int)
    ensures seed >= 0 ==> 0 <= next < Modulus
  {
    JsRem(seed * Multiplier + Increment)
  }

  /** The state after k steps. */
  function StepN(seed: int, k: nat): (s: int)
    ensures seed >= 0 ==> s >= 0
    ensures seed >= 0 && k > 0 ==> s < Modulus
  {
    if k == 0 then seed else Step(StepN(seed, k - 1))
  }

  /** What `next()` returns once the state is `seed`. */
  function Ratio(seed: int): (r: real)
    ensures 0 <= seed < Modulus ==> 0.0 <= r < 1.0
  {
    seed as real / Modulus as real
  }

  /**
   * What `nextInt(min, max)` returns once the state is `seed`: the integer
   * quotient of `seed * (max - min + 1)` by the modulus, plus min, which lies
   * in [min, max]. `ScaleIsFloorOfRatio` shows it is the floor of the exact
   * product `(seed / 233280) * (max - min + 1)`, plus min.
   */
  function Scale(seed: int, min: int, max: int): (r: int)
    ensures 0 <= seed < Modulus && min <= max ==> min <= r <= max
  {
    QuotientBelow(seed, max - min + 1);
    seed * (max - min + 1) / Modulus + min
  }

  /**
   * Scale is the floor of the exact product `next() * (max - min + 1)`, plus
   * min; the source floors the double-rounded product instead.
   */
  lemma ScaleIsFloorOfRatio(seed: int, min: int, max: int)
    ensures Scale(seed, min, max) == (Ratio(seed) * (max - min + 1) as real).Floor + min
  {
    FloorOfScaledRatio(seed, max - min + 1);
  }

  lemma FloorOfScaledRatio(seed: int, n: int)
    ensures (Ratio(seed) * n as real).Floor == seed * n / Modulus
  {
    var a := seed * n;
    var q, r := a / Modulus, a % Modulus;
    assert (seed * n) as real == seed as real * n as real;
    assert Ratio(seed) * n as real == a as real / Modulus as real;
    assert a == q * Modulus + r;
    assert a as real / Modulus as real == q as real + r as real / Modulus as real;
  }

  lemma QuotientBelow(seed: int, n: int)
    ensures 0 <= seed < Modulus && n > 0 ==> 0 <= seed * n / Modulus < n
  {
    if 0 <= seed < Modulus && n > 0 {
      assert 0 <= seed * n < Modulus * n;
    }
  }

  class SeededRandom {
    var seed: int

    constructor (seed: int)
      ensures this.seed == seed
    {
      this.seed := seed;
    }

    /** Advances the state once and returns it as a fraction of the modulus. */
    method Next() returns (r: real)
      modifies this
      ensures seed == Step(old(seed)) && r == Ratio(seed)
      ensures old(seed) >= 0 ==> 0 <= seed < Modulus && 0.0 <= r < 1.0
    {
      seed := JsRem(seed * Multiplier + Increment);
      r := seed as real / Modulus as real;
    }

    /** Advances the state once and returns an integer of [min, max]. */
    method NextInt(min: int, max: int) returns (r: int)
      modifies this
      ensures seed == Step(old(seed)) && r == Scale(seed, min, max)
      ensures old(seed) >= 0 && min <= max ==> min <= r <= max
    {
      var x := Next();
      r := (x * (max - min + 1) as real).Floor + min;
      ScaleIsFloorOfRatio(seed, min, max);
    }
  }

  /** A call made on a generator, and the value it returns. */
  datatype Call = NextCall | NextIntCall(min: int, max: int)
  datatype Value = RatioValue(ratio: real) | IntValue(n: int)

  method Perform(g: SeededRandom, c: Call) returns (v: Value)
    modifies g
    ensures g.seed == Step(old(g.seed))
    ensures v == match c
      case NextCall => RatioValue(Ratio(g.seed))
      case NextIntCall(min, max) => IntValue(Scale(g.seed, min, max))
  {
    match c
    case NextCall =>
      var r := g.Next();
      v := RatioValue(r);
    case NextIntCall(min, max) =>
      var n := g.NextInt(min, max);
      v := IntValue(n);
  }

  /**
   * Determinism of the stream: two generators built from the same seed and
   * given the same calls return the same values, call for call, and end in
   * the state reached by one step per call.
   */
  method TwoGeneratorsAgree(seed: int, calls: seq<Call>)
    returns (first: seq<Value>, second: seq<Value>, firstState: int, secondState: int)
    ensures first == second && |first| == |calls|
    ensures firstState == secondState == StepN(seed, |calls|)
  {
    var g := new SeededRandom(seed);
    var h := new SeededRandom(seed);
    first, second := [], [];
    for i := 0 to |calls|
      invariant g != h && g.seed == h.seed == StepN(seed, i)
      invariant first == second && |first| == i
    {
      var v := Perform(g, calls[i]);
      var w := Perform(h, calls[i]);
      first, second := first + [v], second + [w];
    }
    firstState, secondState := g.seed, h.seed;
  }

  /**
   * The daily seed: the sum of each character's code times its 1-based
   * position, built up one character at a time from the left.
   */
  function DailySeed(today: string): (seed: int)
    ensures seed >= 0
  {
    if |today| == 0 then 0
    else DailySeed(today[..|today| - 1]) + (today[|today| - 1] as int) * |today|
  }

  /** The same weighted sum read from the front, with weights starting at w. */
  function WeightedCodeSum(s: string, w: int): int
  {
    if |s| == 0 then 0 else (s[0] as int) * w + WeightedCodeSum(s[1..], w + 1)
  }

  lemma {:induction false} WeightedCodeSumSnoc(s: string, c: char, w: int)
    ensures WeightedCodeSum(s + [c], w) == WeightedCodeSum(s, w) + (c as int) * (w + |s|)
  {
    if |s| > 0 {
      assert (s + [c])[1..] == s[1..] + [c];
      WeightedCodeSumSnoc(s[1..], c, w + 1);
    }
  }

  /** The daily seed is Σ code(today[i]) * (i + 1). */
  lemma {:induction false} DailySeedIsPositionWeightedSum(today: string)
    ensures DailySeed(today) == WeightedCodeSum(today, 1)
  {
    if |today| > 0 {
      var n := |today|;
      DailySeedIsPositionWeightedSum(today[..n - 1]);
      assert today == today[..n - 1] + [today[n - 1]];
      WeightedCodeSumSnoc(today[..n - 1], today[n - 1], 1);
    }
  }

  /** `generateSeed`, with today's date string passed in. */
  method GenerateSeed(today: string) returns (seed: int)
    ensures seed == DailySeed(today)
    ensures seed == WeightedCodeSum(today, 1) && seed >= 0
  {
    seed := 0;
    for i := 0 to |today|
      invariant seed == DailySeed(today[..i])
    {
      assert today[..i + 1][..i] == today[..i];
      seed := seed + (today[i] as int) * (i + 1);
    }
    assert today[..|today|] == today;
    DailySeedIsPositionWeightedSum(today);
  }

  /** The daily seed of 2024-01-01, summed one character at a time. */
  lemma SeedOfNewYear2024()
    ensures DailySeed("2024-01-01") == 2642
  {
    var s := "2024-01-01";
    assert s[..1][..0] == s[..0];
    assert DailySeed(s[..1]) == 50;
    assert s[..2][..1] == s[..1];
    assert DailySeed(s[..2]) == 146;
    assert s[..3][..2] == s[..2];
    assert DailySeed(s[..3]) == 296;
    assert s[..4][..3] == s[..3];
    assert DailySeed(s[..4]) == 504;
    assert s[..5][..4] == s[..4];
    assert DailySeed(s[..5]) == 729;
    assert s[..6][..5] == s[..5];
    assert DailySeed(s[..6]) == 1017;
    assert s[..7][..6] == s[..6];
    assert DailySeed(s[..7]) == 1360;
    assert s[..8][..7] == s[..7];
    assert DailySeed(s[..8]) == 1720;
    assert s[..9][..8] == s[..8];
    assert DailySeed(s[..9]) == 2152;
    assert s[..10][..9] == s[..9];
    assert DailySeed(s[..10]) == 2642;
    assert s[..10] == s;
  }

  /**
   * The values picked, in drawing order, when k draws are made from pool with
   * the generator in state `seed`: each draw steps the generator, scales it to
   * a position of the current pool, takes that value and removes it.
   */
  function Draw(seed: int, pool: seq<int>, k: nat): (picks: seq<int>)
    requires seed >= 0 && k <= |pool|
    ensures |picks| == k
    decreases k
  {
    if k == 0 then []
    else
      var next := Step(seed);
      var index := Scale(next, 0, |pool| - 1);
      [pool[index]] + Draw(next, RemoveAt(pool, index), k - 1)
  }

  /** The picks come from the pool, and are distinct when the pool is. */
  lemma {:induction false} DrawTakesFromPool(seed: int, pool: seq<int>, k: nat)
    requires seed >= 0 && k <= |pool|
    ensures forall x :: x in Draw(seed, pool, k) ==> x in pool
    ensures Distinct(pool) ==> Distinct(Draw(seed, pool, k))
    decreases k
  {
    if k > 0 {
      var next := Step(seed);
      var index := Scale(next, 0, |pool| - 1);
      var rest := Draw(next, RemoveAt(pool, index), k - 1);
      DrawTakesFromPool(next, RemoveAt(pool, index), k - 1);
      RemoveAtTakesOne(pool, index);
      assert Draw(seed, pool, k) == [pool[index]] + rest;
    }
  }

  /**
   * What `selectRandomNumbers(random, min, max, count)` returns when the
   * generator is in state `seed`: count draws from the whole range, sorted.
   */
  function Sample(seed: int, min: int, max: int, count: nat): (numbers: seq<int>)
    requires seed >= 0 && count <= max - min + 1
  {
    SortAsc(Draw(seed, Range(min, max), count))
  }

  /** The sample holds count distinct values of [min, max], in ascending order. */
  lemma SampleIsPick(seed: int, min: int, max: int, count: nat)
    requires seed >= 0 && count <= max - min + 1
    ensures |Sample(seed, min, max, count)| == count
    ensures StrictlyAscending(Sample(seed, min, max, count))
    ensures forall x :: x in Sample(seed, min, max, count) ==> min <= x <= max
  {
    var pool := Range(min, max);
    var picks := Draw(seed, pool, count);
    assert Distinct(pool);
    DrawTakesFromPool(seed, pool, count);
    SortAscSorts(picks);
    SortAscKeepsMembers(picks);
    var numbers := SortAsc(picks);
    assert |numbers| == |multiset(numbers)| == |multiset(picks)| == count;
    forall x | x in numbers ensures min <= x <= max {
      assert x in picks && x in pool;
    }
  }

  /** Drawing the whole range gives back the whole range, in order. */
  lemma SampleOfWholeRange(seed: int, min: int, max: int)
    requires seed >= 0 && min <= max
    ensures Sample(seed, min, max, max - min + 1) == Range(min, max)
  {
    SampleIsPick(seed, min, max, max - min + 1);
    StrictlyAscendingFillsRange(Sample(seed, min, max, max - min + 1), min, max);
  }

  /** A single draw from [min, max] is `nextInt(min, max)` on the next state. */
  lemma SampleOfOne(seed: int, min: int, max: int)
    requires seed >= 0 && min <= max
    ensures Sample(seed, min, max, 1) == [Scale(Step(seed), min, max)]
  {
    var pool := Range(min, max);
    var index := Scale(Step(seed), 0, |pool| - 1);
    assert pool[index] == min + index;
    assert Draw(seed, pool, 1) == [pool[index]];
    assert SortAsc([pool[index]]) == [pool[index]];
  }

  /**
   * One round of the sampling loop: `nextInt` picks a position of the pool,
   * and the value there is taken out of it. This is the first draw of Draw;
   * the pool loses exactly that value and stays ascending.
   */
  method TakeOne(random: SeededRandom, available: seq<int>, ghost k: nat) returns (picked: int, rest: seq<int>)
    requires random.seed >= 0 && 0 < k <= |available|
    modifies random
    ensures random.seed == Step(old(random.seed))
    ensures |rest| == |available| - 1
    ensures [picked] + Draw(random.seed, rest, k - 1) == Draw(old(random.seed), available, k)
    ensures multiset(rest) + multiset{picked} == multiset(available)
    ensures StrictlyAscending(available) ==> StrictlyAscending(rest)
  {
    var index := random.NextInt(0, |available| - 1);
    picked := available[index];
    rest := RemoveAt(available, index);
    RemoveAtTakesOne(available, index);
  }

  /**
   * The draws of the sampling loop after i rounds: the stream has stepped i
   * times, `numbers` holds the first i values Draw picks and `available` is
   * the pool Draw continues with.
   */
  ghost predicate DrawState(start: int, whole: seq<int>, count: nat, i: nat, seed: int, numbers: seq<int>, available: seq<int>)
  {
    && start >= 0 && i <= count <= |whole|
    && seed == StepN(start, i) && seed >= 0
    && |numbers| == i && |available| == |whole| - i
    && numbers + Draw(seed, available, count - i) == Draw(start, whole, count)
  }

  /** The pool of the sampling loop: with the picks, a permutation of the range, and still ascending. */
  ghost predicate PoolState(whole: seq<int>, numbers: seq<int>, available: seq<int>)
  {
    multiset(numbers) + multiset(available) == multiset(whole) && StrictlyAscending(available)
  }

  /** The whole state of the sampling loop after i rounds. */
  ghost predicate SamplingState(start: int, whole: seq<int>, count: nat, i: nat, seed: int, numbers: seq<int>, available: seq<int>)
  {
    DrawState(start, whole, count, i, seed, numbers, available) && PoolState(whole, numbers, available)
  }

  lemma DrawStep(start: int, whole: seq<int>, count: nat, i: nat, seed: int, numbers: seq<int>, available: seq<int>,
                 picked: int, rest: seq<int>)
    requires DrawState(start, whole, count, i, seed, numbers, available) && i < count
    requires |rest| == |available| - 1
    requires [picked] + Draw(Step(seed), rest, count - i - 1) == Draw(seed, available, count - i)
    ensures DrawState(start, whole, count, i + 1, Step(seed), numbers + [picked], rest)
  {
    ConcatStep(numbers, picked, Draw(Step(seed), rest, count - (i + 1)), Draw(seed, available, count - i), Draw(start, whole, count));
  }

  /** Moving the head of the remaining draws onto the picks keeps their concatenation. */
  lemma ConcatStep(numbers: seq<int>, picked: int, later: seq<int>, current: seq<int>, target: seq<int>)
    requires numbers + current == target && [picked] + later == current
    ensures numbers + [picked] + later == target
  {
    assert numbers + [picked] + later == numbers + ([picked] + later);
  }

  lemma PoolStep(whole: seq<int>, numbers: seq<int>, available: seq<int>, picked: int, rest: seq<int>)
    requires PoolState(whole, numbers, available)
    requires multiset(rest) + multiset{picked} == multiset(available)
    requires StrictlyAscending(rest)
    ensures PoolState(whole, numbers + [picked], rest)
  {
    assert multiset(numbers + [picked]) == multiset(numbers) + multiset{picked};
  }

  /** One round of `TakeOne`, from state `seed` to state `next`, keeps the loop state one round further on. */
  lemma SamplingStep(start: int, whole: seq<int>, count: nat, i: nat, seed: int, numbers: seq<int>, available: seq<int>,
                     next: int, picked: int, rest: seq<int>)
    requires SamplingState(start, whole, count, i, seed, numbers, available) && i < count
    requires next == Step(seed) && |rest| == |available| - 1
    requires [picked] + Draw(next, rest, count - i - 1) == Draw(seed, available, count - i)
    requires multiset(rest) + multiset{picked} == multiset(available)
    requires StrictlyAscending(available) ==> StrictlyAscending(rest)
    ensures SamplingState(start, whole, count, i + 1, next, numbers + [picked], rest)
  {
    DrawStep(start, whole, count, i, seed, numbers, available, picked, rest);
    PoolStep(whole, numbers, available, picked, rest);
  }

  /** Before the first round nothing is picked and the pool is the whole range. */
  lemma SamplingStart(start: int, min: int, max: int, count: nat)
    requires start >= 0 && count <= max - min + 1
    ensures SamplingState(start, Range(min, max), count, 0, start, [], Range(min, max))
  {
    assert [] + Draw(start, Range(min, max), count) == Draw(start, Range(min, max), count);
  }

  /** While rounds remain, the state is non-negative and the pool has a value per round left. */
  lemma SamplingBounds(start: int, whole: seq<int>, count: nat, i: nat, seed: int, numbers: seq<int>, available: seq<int>)
    requires SamplingState(start, whole, count, i, seed, numbers, available)
    ensures seed >= 0 && count - i <= |available|
  {
  }

  /** After the last round the picks are all of Draw's. */
  lemma SamplingDone(start: int, whole: seq<int>, count: nat, seed: int, numbers: seq<int>, available: seq<int>)
    requires SamplingState(start, whole, count, count, seed, numbers, available)
    ensures numbers == Draw(start, whole, count) && seed == StepN(start, count)
  {
    assert Draw(seed, available, 0) == [];
    assert numbers + [] == numbers;
  }

  /**
   * `selectRandomNumbers`: keeps a shrinking pool, moves the value at a drawn
   * position of it into the result, then sorts the result.
   */
  method SelectRandomNumbers(random: SeededRandom, min: int, max: int, count: nat) returns (numbers: seq<int>)
    requires random.seed >= 0 && count <= max - min + 1
    modifies random
    ensures numbers == Sample(old(random.seed), min, max, count)
    ensures random.seed == StepN(old(random.seed), count)
  {
    ghost var start := random.seed;
    ghost var whole := Range(min, max);
    numbers := [];
    var available := Range(min, max);
    SamplingStart(start, min, max, count);
    for i := 0 to count
      invariant SamplingState(start, whole, count, i, random.seed, numbers, available)
    {
      ghost var seed := random.seed;
      SamplingBounds(start, whole, count, i, seed, numbers, available);
      var picked, rest := TakeOne(random, available, count - i);
      SamplingStep(start, whole, count, i, seed, numbers, available, random.seed, picked, rest);
      numbers := numbers + [picked];
      available := rest;
    }
    SamplingDone(start, whole, count, random.seed, numbers, available);
    numbers := SortAsc(numbers);
  }
}
