# BCrypt cost calibration benchmark, modelled in Dafny

The benchmark picks the BCrypt cost parameter ("rounds") for a server: starting
at cost 9 it hashes a fixed password 10 times per cost, averages the durations,
and raises the cost by one until the average reaches 250 000 000 ns (250 ms).
It then undoes the last increment and recommends either the last measured cost
or the one before it, whichever average lies closer to 250 ms (on equal
distance it keeps the last one). Each round and the recommendation are written
to a log file named after the normalised run title.

`benchmark.dfy` holds one module, `Benchmark`, mirroring the single Java class:

- the constants `IterationsForAverage` (10), `MinimumRounds` (9) and
  `MinimumHashingTimeNs` (250 000 000);
- `Hasher`, the hash as the benchmark sees it: the interval of costs it
  accepts and the duration of the i-th timed call at a given cost;
- `GenerateMeasurementsForRounds`, which fills an array with the 10 timed
  samples of one cost (or fails when the hash refuses the cost);
- `MeasureUntilTarget`, the `while` loop of `main`, and `RunBenchmark`, the rest
  of `main`: title, settings, the undo of the last increment, the tie-break,
  and the final log entries;
- the log as a sequence of `LogEntry` values, one per logger call, with
  `RoundToMillis` for the millisecond figures;
- the title normalisation (`toLowerCase().trim().replace(" ", "_")`).

The specification side is made of `History` (the averages of the first n
costs), `RoundLog` (their log entries), `TargetReachable`,
`StopsAtFirstReaching`, and `IsRecommendation`, which describes the
recommendation independently of the code: it is the one of the last two
measured costs whose average is closest to the target, the later one on equal
distance.

The comment above the tie-break (`Benchmark.java:72`) speaks of the setting with
the closest average, while the code compares only the last two measured costs.
The two agree when the averages never decrease with the cost
(`RecommendationClosestWhenNonDecreasing`). Otherwise the code can miss an earlier,
closer cost, as `RecommendationNotClosestOverall` shows with averages of 249 ms,
100 ms and 300 ms. The model follows the code.

## Model

| member | source | states |
|---|---|---|
| Benchmark.RunBenchmark | src/main/java/de/tum/in/www1/artemis/Benchmark.java:27-82 | The log is the title entry, the settings entry, one entry per measured cost, and then, on normal termination, the recommendation and the stop entry. The k-th average is the mean of the samples at cost 9 + k, and every measured cost was accepted. The run ends normally exactly when some accepted cost from 9 on reaches 250 ms. Then the search stopped at the first average reaching the target, `rounds` is the last measured cost, and the recommendation satisfies `IsRecommendation`. When the hash refuses a cost, all averages so far are below the target. |
| Benchmark.MeasureUntilTarget | src/main/java/de/tum/in/www1/artemis/Benchmark.java:42-68 | The loop measures costs 9, 10, … in order and appends one log entry per cost. It stops after the first average that is at least 250 ms, and every earlier average is below it. At least one round runs unless the hash refuses cost 9. It stops early only when the hash refuses a cost, and then no accepted cost reaches the target. |
| Benchmark.GenerateMeasurementsForRounds | src/main/java/de/tum/in/www1/artemis/Benchmark.java:90-102 | It returns a fresh array of exactly 10 samples, the i-th being the duration of the i-th timed hash at that cost. It fails exactly when the hash refuses the cost. |
| Benchmark.Average | src/main/java/de/tum/in/www1/artemis/Benchmark.java:49 | The mean is defined exactly when there is at least one sample. The NaN fallback is therefore unreachable for the 10 samples of a round. |
| Benchmark.AverageBounds | src/main/java/de/tum/in/www1/artemis/Benchmark.java:49 | The arithmetic mean of the samples lies between any lower bound and any upper bound of the samples. |
| Benchmark.HistoryAt | src/main/java/de/tum/in/www1/artemis/Benchmark.java:42-67 | The k-th recorded average is the mean of the samples taken at cost 9 + k. |
| Benchmark.RoundLogAt | src/main/java/de/tum/in/www1/artemis/Benchmark.java:48-67 | The k-th round's log entry reports cost 9 + k, so the first round runs at 9 and each later one at the previous cost plus one. The entry holds that cost's samples and average. |
| Benchmark.RejectedMeansUnreachable | src/main/java/de/tum/in/www1/artemis/Benchmark.java:46-67 | If every measured average is below the target and the hash refuses the next cost, then no accepted cost reaches the target. |
| Benchmark.FormatRound | src/main/java/de/tum/in/www1/artemis/Benchmark.java:52-60 | The round's log entry carries the cost, the 10 samples, each sample rounded to milliseconds, the average, and the average rounded to milliseconds. |
| Benchmark.RoundToMillis | src/main/java/de/tum/in/www1/artemis/Benchmark.java:55-59 | `Math.round(ns / 1000000)` is the integer within half a millisecond of the value. Halves round up. |
| Benchmark.PreviousIsCloserPicksClosest | src/main/java/de/tum/in/www1/artemis/Benchmark.java:73-77 | Stepping back exactly when there are at least two averages and the last lies strictly farther from the target picks the closest of the last two rounds, the later on a tie. No other index is picked (both directions). |
| Benchmark.RecommendationIsSound | src/main/java/de/tum/in/www1/artemis/Benchmark.java:69-77 | After the undo, `rounds` is 9 + (number of averages) − 1. The recommendation is `rounds` or `rounds − 1`, never below 9, and it is the closest of the last two rounds. Its average reaches the target exactly when it is `rounds`. |
| Benchmark.RecommendationClosestWhenNonDecreasing | src/main/java/de/tum/in/www1/artemis/Benchmark.java:72-77 | When the averages never decrease with the cost, the recommended cost's average is no farther from 250 ms than any measured average, so the comment's "closest average" holds. |
| Benchmark.RecommendationNotClosestOverall | src/main/java/de/tum/in/www1/artemis/Benchmark.java:72-77 | With averages of 249 ms, 100 ms and 300 ms at costs 9, 10 and 11, the search stops at 11 and keeps 11 as the recommendation, even though cost 9 lies closer to 250 ms. |
| Benchmark.RecommendationIsUnique | src/main/java/de/tum/in/www1/artemis/Benchmark.java:73-77 | The recommendation is determined by the averages: two sound recommendations are equal. |
| Benchmark.SkipLeading | src/main/java/de/tum/in/www1/artemis/Benchmark.java:29 | `trim` skips exactly the leading characters at or below the space character. |
| Benchmark.SkipTrailing | src/main/java/de/tum/in/www1/artemis/Benchmark.java:29 | `trim` drops exactly the trailing characters at or below the space character. |
| Benchmark.TrimIsMiddlePart | src/main/java/de/tum/in/www1/artemis/Benchmark.java:29 | The trimmed title is a contiguous middle part of the title. Only characters at or below the space character are dropped around it, and it neither starts nor ends with one. |
| Benchmark.NormalizedTitleShape | src/main/java/de/tum/in/www1/artemis/Benchmark.java:29 | The normalised title has no spaces and no upper-case ASCII letters. It neither starts nor ends with a blank or control character, and it is no longer than the title. |
| Benchmark.NormalizeTitleIdempotent | src/main/java/de/tum/in/www1/artemis/Benchmark.java:29 | Normalising a normalised title changes nothing. |
| Benchmark.TieBreakExamples | src/main/java/de/tum/in/www1/artemis/Benchmark.java:73-77 | With averages 200 ms and 260 ms the last cost is kept. With 240 ms and 400 ms the benchmark steps back. A tie (240 ms and 260 ms) keeps the last cost, and a single round never steps back. |
| Benchmark.AverageExample | src/main/java/de/tum/in/www1/artemis/Benchmark.java:49 | The mean of 100, 200 and 300 is 200. |
| Benchmark.RoundToMillisExamples | src/main/java/de/tum/in/www1/artemis/Benchmark.java:55-59 | 1 500 000 ns rounds to 2 ms, 1 499 999 ns rounds to 1 ms, and 250 000 000 ns rounds to 250 ms. |
| Benchmark.DefaultTitleExample | src/main/java/de/tum/in/www1/artemis/Benchmark.java:29 | Without arguments the title is `hashing_benchmark`. |

## Left out

- BCrypt's `gensalt` and `hashpw` are library code and are not part of this model. A `Hasher` value stands in for them: it gives the durations, and an interval of accepted costs stands for the library's cost check. BCrypt's own limits (4 to 31) belong to that library, so the interval is a parameter.
- A refused cost throws an exception in the Java program. The model returns `CostRejected` with the averages measured so far instead.
- `System.nanoTime` is replaced by the durations the `Hasher` supplies: a natural number of nanoseconds per call, fixed by the cost and the sample index.
- The fixed password is not modelled, because the durations abstract the hash.
- The real loop has no ceiling on the cost. The model is bounded by the largest accepted cost, which also proves termination.
- The `java.util.logging` setup and the `FileHandler` (including its `IOException`) are I/O and are not modelled. The logger is modelled as the sequence of `LogEntry` values it receives.
- The text of the log lines is not produced. `Double.toString` formatting, line separators and the start-information string are not modelled. The settings line is the `Settings` entry.
- `double` arithmetic is modelled as exact reals. `DoubleStream.average` uses compensated summation, and the conversion of long durations to double is exact only below 2^53. Neither rounding effect is modelled.
- RoundToMillis: Java's `Math.round` also saturates at the bounds of `long` and maps NaN to 0. Neither can happen with these durations, so neither is modelled.
- Benchmark.ToLowerAscii: `toLowerCase` is modelled on ASCII letters only. Other characters are kept unchanged, which ignores locale and Unicode case mappings.
