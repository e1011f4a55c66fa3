# Lottery helper core: seeded number generation and prize classification

This project models, in Dafny, the deterministic core of a browser-extension
lottery helper. The core has three parts.

- **Random stream and daily seed** (`src/utils/randomUtils.ts`).
  - `SeededRandom` is a linear congruential generator: `state := (state * 9301 + 49297) % 233280`.
  - `generateSeed` turns today's `YYYY-MM-DD` string into a seed: each character code times its 1-based position, summed.
  - `selectRandomNumbers` draws `count` distinct numbers from `[min, max]`. It keeps a shrinking pool, moves the value at a drawn position into the result, and sorts the result at the end.
- **Ticket generation** (`src/services/lotteryGenerator.ts`).
  - SSQ is 6 red numbers of 1..33 and 1 blue number of 1..16.
  - DLT is 5 red numbers of 1..35 and 2 blue numbers of 1..12.
  - Both colours come from one generator, red first. Blue continues the same stream.
  - An unknown format tag throws.
- **Prize classification** (`src/services/prizeChecker.ts`).
  - `checkPrize` counts how many personal red and blue numbers occur in the drawing.
  - It looks the pair of counts up in an ordered per-format rule chain; the first hit wins, and `null` means no prize.
  - `checkMultiplePrizes` keeps the winning (ticket, drawing) pairs, ticket-major.

Files:

- `wrappers.dfy`: `Option` stands for a nullable value; `Result` for a value or a thrown error.
- `sequences.dfy`: the array operations the sampler uses. `Range` is the pool built by `Array.from`, `RemoveAt` is `splice(i, 1)`, and `SortAsc` is `sort((a, b) => a - b)`.
- `random_utils.dfy`: the `SeededRandom` class with its mutable `seed` field. It also holds `GenerateSeed` and `SelectRandomNumbers`, each a method with a loop, proved against the functions `DailySeed` and `Sample`.
- `lottery_types.dfy`: the records `LotteryNumbers` (`src/types/lottery.ts:13-18`) and `WinningNumbers` (23-28). It also holds the prize levels `PrizeLevel` (43-53) and the two formats as data. `Label` gives the string each checker returns for a level. That includes the bare "六等奖" of the DLT checker, which the declared union does not list (see Findings).
- `lottery_generator.dfy`: the generators, as methods that thread one `SeededRandom` through the draws. Each is proved equal to a ticket function of the date string.
- `prize_checker.dfy`: the classifier as functions, plus the two rule chains written out as data tables. `CheckMultiplePrizes` is a nested loop proved against a filter over the ticket-major list of pairs.

Modelling choices:

- The clock is a parameter. Today's date string is passed in where the source calls `getTodayString()`. The source reads the clock twice per ticket: once for the seed (src/utils/randomUtils.ts:37) and once for the ticket's `date` (src/services/lotteryGenerator.ts:25 and :46). The single parameter stands for both reads, so the model assumes they return the same day; if midnight passes between them, the source's seed and `date` disagree.
- `next()` is idealised. The source divides `seed` by 233280 in IEEE doubles and floors `next() * (max - min + 1)` in doubles. `SeededRandom.Next` and `SeededRandom.NextInt` do both in exact `real` arithmetic, with `.Floor`. The specification function `Scale` is the integer quotient `seed * (max - min + 1) / 233280 + min`, and `RandomUtils.ScaleIsFloorOfRatio` shows that it equals the floor of the exact product (seed / 233280) · (max - min + 1), not of its double rounding.
- The generator state stays an exact integer in doubles, because `seed * 9301 + 49297` is far below 2^53 for every state below 233280 and for the daily seed of a ten-character date string, which is a few thousand. Only the division and the scaled floor are idealised.
- JavaScript's `%` truncates toward zero. `RandomUtils.JsRem` models it so, which matters only for a negative seed.
- `charCodeAt` is taken as the character's code point. The two agree for the ASCII date strings the generator is given.
- Format tags stay strings. This keeps the throwing branch of `generateLotteryNumbers` and the "anything but `'ssq'` is DLT" branch of `checkPrize`.

## Model

| member | source | states |
|---|---|---|
| `Sequences.Range` | src/utils/randomUtils.ts:55 | the initial pool has max - min + 1 entries, holds exactly the integers of [min, max] and is strictly ascending |
| `Sequences.RemoveAt` | src/utils/randomUtils.ts:60 | `splice(index, 1)` leaves one entry fewer; `RemoveAtIndex` and `RemoveAtTakesOne` state which entries remain and in what order |
| `Sequences.RemoveAtTakesOne` | src/utils/randomUtils.ts:60 | `splice(index, 1)` removes exactly the one value at index (as multisets), keeps the pool distinct and strictly ascending, and the removed value no longer occurs |
| `Sequences.SortAsc` | src/utils/randomUtils.ts:63 | the numeric `sort((a, b) => a - b)`; `SortAscSorts` and `SortAscKeepsMembers` state that it gives an ascending permutation of its input |
| `Sequences.SortAscSorts` | src/utils/randomUtils.ts:63 | the final sort yields an ascending permutation of the picks, strictly ascending when the picks are distinct |
| `Sequences.StrictlyAscendingFillsRange` | src/utils/randomUtils.ts:55-63 | a strictly ascending sequence of max - min + 1 values of [min, max] is exactly min, min+1, …, max |
| `RandomUtils.JsRem` | src/utils/randomUtils.ts:21 | JavaScript `%` by 233280: the remainder has the dividend's sign, is smaller than the modulus in size, and differs from the dividend by a multiple of it |
| `RandomUtils.Step` | src/utils/randomUtils.ts:21 | from a non-negative state the next state lies in [0, 233280) |
| `RandomUtils.StepN` | src/utils/randomUtils.ts:20-23 | after k ≥ 1 steps from a non-negative seed the state lies in [0, 233280) |
| `RandomUtils.Ratio` | src/utils/randomUtils.ts:22 | for a state in [0, 233280), `next()` returns a value in [0, 1) |
| `RandomUtils.Scale` | src/utils/randomUtils.ts:28-30 | for a state in [0, 233280) and min ≤ max, `nextInt(min, max)` lies in [min, max] |
| `RandomUtils.ScaleIsFloorOfRatio` | src/utils/randomUtils.ts:29 | the integer quotient seed * (max - min + 1) div 233280 + min equals the floor of the exact product (seed / 233280) · (max - min + 1), plus min |
| `RandomUtils.SeededRandom.constructor` | src/utils/randomUtils.ts:13-15 | the generator starts in the given seed |
| `RandomUtils.SeededRandom.Next` | src/utils/randomUtils.ts:20-23 | the state becomes (old * 9301 + 49297) % 233280 and the result is state / 233280; from a non-negative state, the result is in [0, 1) |
| `RandomUtils.SeededRandom.NextInt` | src/utils/randomUtils.ts:28-30 | advances the state exactly once and, for min ≤ max from a non-negative state, returns an integer of [min, max] |
| `RandomUtils.Perform` | src/utils/randomUtils.ts:20-30 | each `next`/`nextInt` call steps the state once and returns a value fixed by the new state and the call |
| `RandomUtils.TwoGeneratorsAgree` | src/utils/randomUtils.ts:10-31 | two generators built from one seed and given the same calls return identical values, one per call, and both end in the state reached by one step per call (`StepN(seed, \|calls\|)`) |
| `RandomUtils.DailySeed` | src/utils/randomUtils.ts:36-43 | the daily seed is never negative |
| `RandomUtils.DailySeedIsPositionWeightedSum` | src/utils/randomUtils.ts:38-41 | the seed is Σ code(s[i]) * (i + 1) over the string, read from the front |
| `RandomUtils.GenerateSeed` | src/utils/randomUtils.ts:36-43 | the accumulating loop returns the position-weighted character sum, which is non-negative |
| `RandomUtils.SeedOfNewYear2024` | src/utils/randomUtils.ts:36-43 | the daily seed of "2024-01-01" is 2642 |
| `RandomUtils.Draw` | src/utils/randomUtils.ts:57-61 | k draws from a pool give exactly k picks |
| `RandomUtils.DrawTakesFromPool` | src/utils/randomUtils.ts:57-61 | every pick comes from the pool, and the picks are pairwise distinct when the pool is |
| `RandomUtils.Sample` | src/utils/randomUtils.ts:48-63 | the draws of `Draw` from the whole range, sorted; `SampleIsPick`, `SampleOfWholeRange` and `SampleOfOne` state what it holds |
| `RandomUtils.SampleIsPick` | src/utils/randomUtils.ts:48-63 | with count ≤ max - min + 1 the sample has exactly count values, all in [min, max], strictly ascending (hence distinct) |
| `RandomUtils.SampleOfWholeRange` | src/utils/randomUtils.ts:55-63 | with count == max - min + 1 the result is exactly [min, min+1, …, max] |
| `RandomUtils.SampleOfOne` | src/utils/randomUtils.ts:57-63 | selecting one number of [min, max] gives `[nextInt(min, max)]` on the next state |
| `RandomUtils.TakeOne` | src/utils/randomUtils.ts:58-60 | one loop round steps the stream once and takes out of the pool exactly the first value Draw picks, leaving the pool Draw continues with; the pool loses exactly that value and stays strictly ascending |
| `RandomUtils.SamplingStep` | src/utils/randomUtils.ts:57-61 | each round keeps the loop state: the stream has stepped once per round, the picks are Draw's first values, picks plus pool are a permutation of [min, max], and the pool stays strictly ascending |
| `RandomUtils.SelectRandomNumbers` | src/utils/randomUtils.ts:48-64 | returns Sample of the old state (so, by `SampleIsPick`, count distinct ascending values of [min, max]); the stream advances exactly count times |
| `LotteryGenerator.SSQTicket` | src/services/lotteryGenerator.ts:12-28 | an SSQ ticket has 6 strictly ascending red numbers of 1..33 and one blue of 1..16, the given date and purchased = false |
| `LotteryGenerator.DLTTicket` | src/services/lotteryGenerator.ts:33-49 | a DLT ticket has 5 strictly ascending red numbers of 1..35, 2 strictly ascending blue numbers of 1..12, the given date and purchased = false |
| `LotteryGenerator.SSQBlueIsOneSample` | src/services/lotteryGenerator.ts:19-20 | the SSQ blue `[nextInt(1, 16)]` equals `selectRandomNumbers(random, 1, 16, 1)` on the stream after the 6 red draws |
| `LotteryGenerator.GenerateSSQNumbers` | src/services/lotteryGenerator.ts:12-28 | returns the SSQ ticket of the date: red sampled from the daily seed, blue from the 7th state of the same stream |
| `LotteryGenerator.GenerateDLTNumbers` | src/services/lotteryGenerator.ts:33-49 | returns the DLT ticket of the date: red sampled from the daily seed, blue sampled from the stream after the 5 red draws |
| `LotteryGenerator.GenerateLotteryNumbers` | src/services/lotteryGenerator.ts:54-63 | `'ssq'` and `'dlt'` yield their format's ticket; every other tag yields the "Unsupported lottery type" error |
| `LotteryGenerator.GenerateTwice` | src/services/lotteryGenerator.ts:54-63 | generating twice for the same date and tag gives the identical ticket (or the same error), and succeeds exactly for the two known tags |
| `PrizeChecker.MatchCount` | src/services/prizeChecker.ts:17-18 | the number of matches never exceeds the number of personal numbers |
| `PrizeChecker.MatchCountFull` | src/services/prizeChecker.ts:17-18 | the count equals the length exactly when every personal number occurs in the drawing |
| `PrizeChecker.MatchCountIsIntersection` | src/services/prizeChecker.ts:17-18 | for distinct personal numbers the count is the size of the set intersection |
| `PrizeChecker.CheckSSQPrize` | src/services/prizeChecker.ts:30-44 | the SSQ comparison chain; `SSQChainIsTable`, `SSQNoPrize`, `SSQLastRulesUnreachable` and `SSQMonotone` state what it computes |
| `PrizeChecker.CheckDLTPrize` | src/services/prizeChecker.ts:49-65 | the DLT comparison chain; `DLTChainIsTable`, `DLTNoPrize`, `DLTMonotone` and `UndeclaredLevelOnlyAtDLTThreeTwo` state what it computes |
| `PrizeChecker.FirstHitIsFirst` | src/services/prizeChecker.ts:30-44 | reading a rule table gives no prize exactly when no rule hits, else the level of a hitting rule with no earlier rule hitting |
| `PrizeChecker.SSQChainIsTable` | src/services/prizeChecker.ts:30-44 | the SSQ comparison chain equals the SSQ table read first hit first, for every pair of counts |
| `PrizeChecker.DLTChainIsTable` | src/services/prizeChecker.ts:49-65 | the DLT comparison chain equals the DLT table read first hit first, for every pair of counts; (3, 2) gives the bare sixth level "六等奖" |
| `PrizeChecker.FirstHitIgnoresShadowed` | src/services/prizeChecker.ts:38-41 | rules after position m can be dropped when every hitting rule past m has an earlier hitting rule before m |
| `PrizeChecker.SSQLastRulesUnreachable` | src/services/prizeChecker.ts:38-41 | dropping the three rules after `red < 3 && blue == 1` changes no SSQ result |
| `PrizeChecker.SSQNoPrize` | src/services/prizeChecker.ts:30-44 | for counts red ≤ 6, blue ≤ 1, SSQ gives no prize exactly when blue = 0 and red < 4 |
| `PrizeChecker.DLTNoPrize` | src/services/prizeChecker.ts:49-65 | for counts red ≤ 5, blue ≤ 2, DLT gives no prize exactly for (2,0), (1,1), (1,0), (0,1), (0,0) |
| `PrizeChecker.SSQMonotone` | src/services/prizeChecker.ts:30-44 | matching more red or more blue numbers never lowers the SSQ level |
| `PrizeChecker.DLTMonotone` | src/services/prizeChecker.ts:49-65 | matching more red or more blue numbers never lowers the DLT level |
| `PrizeChecker.CheckPrize` | src/services/prizeChecker.ts:10-25 | no prize when the personal or the winning record is absent |
| `PrizeChecker.OtherTagsUseDLT` | src/services/prizeChecker.ts:20-24 | every tag other than `'ssq'` is classified exactly as `'dlt'`, by the DLT table |
| `PrizeChecker.FullMatchWinsFirst` | src/services/prizeChecker.ts:10-25 | a well-formed ticket whose red and blue numbers all occur in the drawing gets 一等奖 |
| `PrizeChecker.Row` | src/services/prizeChecker.ts:78-83 | the inner loop visits one ticket against each drawing, in drawing order |
| `PrizeChecker.Pairs` | src/services/prizeChecker.ts:77-84 | the pairs the nested loops visit, ticket-major; `PairsAt` gives their number and the pair at every position |
| `PrizeChecker.PairsAt` | src/services/prizeChecker.ts:77-84 | there are \|history\| × \|drawings\| pairs, and pair i·\|drawings\| + j is ticket i against drawing j (ticket-major order) |
| `PrizeChecker.Wins` | src/services/prizeChecker.ts:79-82 | the kept entries are at most as many as the pairs, and each is a checked pair whose non-null level is `checkPrize` of that pair |
| `PrizeChecker.WinsComplete` | src/services/prizeChecker.ts:79-82 | every pair with a non-null level is reported with that level |
| `PrizeChecker.CheckMultiplePrizes` | src/services/prizeChecker.ts:70-87 | the nested loops return the winning entries of the ticket-major pair list, in order; there are at most \|history\| × \|drawings\| of them |
| `PrizeChecker.SSQJackpotVector` | src/services/prizeChecker.ts:10-25 | SSQ fallback drawing 2025096 against itself gives 一等奖 |
| `PrizeChecker.SSQSecondVector` | src/services/prizeChecker.ts:10-25 | a constructed ticket with the red numbers of fallback drawing 2025096 and blue 4, checked against that drawing, gives 二等奖 |
| `PrizeChecker.SSQNoPrizeVector` | src/services/prizeChecker.ts:10-25 | SSQ fallback drawings 2025096 and 2025095 share one red number and no blue: no prize |
| `PrizeChecker.DLTJackpotVector` | src/services/prizeChecker.ts:10-25 | DLT fallback drawing 25094 `[4,9,17,30,33]+[5,9]` against itself gives 一等奖 |
| `PrizeChecker.DLTNinthVector` | src/services/prizeChecker.ts:10-25 | DLT fallback drawings 25094 and 25091 share 2 red and 1 blue: 九等奖 5元 |
| `PrizeChecker.DLTSixthVector` | src/services/prizeChecker.ts:55 | DLT ticket 25094 against a constructed drawing sharing 3 red and 2 blue gets the level labelled "六等奖" |
| `PrizeChecker.UndeclaredLevelOnlyAtDLTThreeTwo` | src/services/prizeChecker.ts:30-65 | every level the SSQ checker returns is listed in the declared union; the DLT checker returns an unlisted string exactly for counts (3, 2) |
| `LotteryTypes.Label` | src/services/prizeChecker.ts:31-62 | the string each level carries; `LabelIsInjective`, `LabelsCoverCheckerStrings` and `DeclaredExceptSixth` state that the strings are distinct and which of them the declared union lists |
| `LotteryTypes.DeclaredExceptSixth` | src/types/lottery.ts:43-53 | the declared union lists every level's string except the bare "六等奖" |
| `LotteryTypes.LabelsCoverCheckerStrings` | src/types/lottery.ts:43-53 | with "六等奖" added to the union, every level's string is in it |
| `LotteryTypes.LabelIsInjective` | src/types/lottery.ts:43-53 | different levels carry different strings, so "六等奖" and "六等奖 5元" stay apart |

## Findings

| source | as written | input that shows it | evidently intended | confidence | as-written member | corrected member |
|---|---|---|---|---|---|---|
| src/services/prizeChecker.ts:55, src/types/lottery.ts:43-53 | `checkDLTPrize` returns `'六等奖'` for 3 red and 2 blue matches, but the `PrizeLevel` union lists only `'六等奖 5元'` for the sixth level | a DLT ticket `[4,9,17,30,33]+[5,9]` against a drawing with red `[1,2,4,9,17]` and blue `[5,9]` | "六等奖" is a DLT level of its own, and the union should list it | not executed; high (a strict type check rejects line 55; a build that only strips types ships the string) | `PrizeChecker.UndeclaredLevelOnlyAtDLTThreeTwo` | `LotteryTypes.LabelsCoverCheckerStrings` |

The model follows the code: it adds a level `Sixth`, labelled "六等奖", and the DLT rule for (3, 2) returns it.

## Left out

- Floating point: `next()` and `nextInt` are computed with exact reals instead of IEEE doubles; double rounding in `seed / 233280` and in the product is not modelled.
- `RandomUtils.SelectRandomNumbers` requires `count <= max - min + 1`. When the range is too short, the source pushes `undefined` (it reads `available[0]` of an empty array); that path is not modelled.
- `RandomUtils.SelectRandomNumbers` requires a non-negative generator state; with a negative seed the source can index the pool at a negative position. Every caller seeds from `generateSeed`, which is never negative.
- `RandomUtils.SelectRandomNumbers` takes `count` as a natural number; a negative count, for which the source's loop does not run, is not modelled.
- `RandomUtils.GenerateSeed` uses `c as int` for `charCodeAt`; characters outside the Basic Multilingual Plane, which JavaScript sees as two UTF-16 units, are not modelled.
- The clock: `getTodayString` (src/utils/dateUtils.ts:8-14) reads the system date; `formatDateShort` and `getDaysDifference` (src/utils/dateUtils.ts:19-33) parse date strings with `Date` in the local time zone. None of them is modelled, and today's string is a parameter.
- `purchased` is optional in the source record; the model gives every ticket a boolean.
- Storage (src/services/lotteryStorage.ts, src/utils/storageUtils.ts): asynchronous browser storage, timestamps and the 30-day cutoff are not part of this model.
- Network retrieval of drawings (src/services/lotteryApi.ts) is not part of this model; its fallback drawings appear only as test vectors.
- DOM rendering, clipboard and event wiring (src/components/), including the keep-10 history trim, are not part of this model.
- The zodiac panel (src/services/zodiacService.ts) and the entry and build files are not part of this model.
- A concrete generated ticket for a given date is not stated; determinism is stated for every date instead (`LotteryGenerator.GenerateTwice`, `LotteryGenerator.GenerateSSQNumbers`).
