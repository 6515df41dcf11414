/**
 * Calibration of the BCrypt cost parameter ("rounds"): starting at a minimum
 * cost, hash a fixed password several times per cost, average the durations,
 * and raise the cost until the average reaches a target duration; then
 * recommend the last cost or the one before it, whichever average lies closer
 * to the target.
 *
 * The hash function and the clock are not modelled: a Hasher value says which
 * costs the hash accepts and how many nanoseconds each timed call takes.
 * The logger is modelled as the sequence of entries it receives.
 */
module Benchmark {

  /** Number of timed hashes averaged per cost. */
  const IterationsForAverage: nat := 10

  /** The cost the search starts at. */
  const MinimumRounds: int := 9

  /** The target duration of one hash, in nanoseconds. */
  const MinimumHashingTimeNs: int := 250000000

  /** The run's title when no argument is given. */
  const DefaultTitle: string := "Hashing Benchmark"

  datatype Option<T> = None | Some(value: T)

  /**
   * The hash as the benchmark sees it: the costs it accepts (a cost outside
   * [minCost, maxCost] makes it fail) and, for cost c, the duration in
   * nanoseconds of the i-th timed call at that cost.
   */
  datatype Hasher = Hasher(minCost: int, maxCost: int, elapsedNs: (int, nat) -> nat)
  {
    predicate Accepts(cost: int) {
      minCost <= cost <= maxCost
    }
  }

  /** What the benchmark hands to its logger, one value per logger call. */
  datatype LogEntry =
    | Starting(title: string)
    | Settings(iterationsForAverage: nat, minimumRounds: int, minimumHashingTimeNs: int)
    | RoundResult(rounds: int, measurements: seq<real>, measurementsMs: seq<int>, average: real, averageMs: int)
    | Recommendation(recommendedRounds: int)
    | Stopping(title: string)

  /**
   * How a run ends: either the target was reached, with the last measured
   * cost and the recommended one, or the hash refused a cost before that.
   * Both keep the averages measured so far, the k-th one at cost
   * MinimumRounds + k.
   */
  datatype Outcome =
    | Calibrated(rounds: int, recommendedRounds: int, averageMeasurements: seq<real>)
    | CostRejected(rounds: int, averageMeasurements: seq<real>)

  // ---------------------------------------------------------------------------
  // Averaging

  function Sum(s: seq<real>): real
  {
    if s == [] then 0.0 else Sum(s[..|s| - 1]) + s[|s| - 1]
  }

  /** The arithmetic mean of the samples; None for no samples, where `DoubleStream.average().orElse(Double.NaN)` gives NaN. */
  function Average(s: seq<real>): (r: Option<real>)
    ensures r.Some? <==> |s| > 0
  {
    if |s| == 0 then None else Some(Sum(s) / |s| as real)
  }

  lemma {:induction false} SumBounds(s: seq<real>, lo: real, hi: real)
    requires forall i :: 0 <= i < |s| ==> lo <= s[i] <= hi
    ensures |s| as real * lo <= Sum(s) <= |s| as real * hi
  {
    if s != [] {
      SumBounds(s[..|s| - 1], lo, hi);
      assert lo <= s[|s| - 1] <= hi;
    }
  }

  /** The mean of the samples lies between any lower and any upper bound of the samples. */
  lemma AverageBounds(s: seq<real>, lo: real, hi: real)
    requires |s| > 0
    requires forall i :: 0 <= i < |s| ==> lo <= s[i] <= hi
    ensures lo <= Average(s).value <= hi
  {
    SumBounds(s, lo, hi);
  }

  // ---------------------------------------------------------------------------
  // Measuring one cost

  /** The samples one round at cost `rounds` yields: one timed call per iteration. */
  function Measurements(hasher: Hasher, rounds: int): (m: seq<real>)
    ensures |m| == IterationsForAverage
  {
    seq(IterationsForAverage, i requires 0 <= i < IterationsForAverage => hasher.elapsedNs(rounds, i) as real)
  }

  /** The average of the samples one round at cost `rounds` yields. */
  function RoundAverage(hasher: Hasher, rounds: int): real
  {
    Average(Measurements(hasher, rounds)).value
  }

  /**
   * Takes IterationsForAverage timed samples at cost `rounds`. When the hash
   * refuses the cost the first call fails and `accepted` is false.
   */
  method GenerateMeasurementsForRounds(hasher: Hasher, rounds: int) returns (accepted: bool, measurements: array<real>)
    ensures fresh(measurements) && measurements.Length == IterationsForAverage
    ensures accepted <==> hasher.Accepts(rounds)
    ensures accepted ==> measurements[..] == Measurements(hasher, rounds)
  {
    measurements := new real[IterationsForAverage];
    for i := 0 to IterationsForAverage
      invariant i > 0 ==> hasher.Accepts(rounds)
      invariant forall j :: 0 <= j < i ==> measurements[j] == hasher.elapsedNs(rounds, j) as real
    {
      if !hasher.Accepts(rounds) {
        return false, measurements;
      }
      measurements[i] := hasher.elapsedNs(rounds, i) as real;
    }
    accepted := true;
  }

  // ---------------------------------------------------------------------------
  // Log entries

  /** Java's Math.round of ns / 1 000 000: the nearest integer, halves rounded up. */
  function RoundToMillis(ns: real): (ms: int)
    ensures ms as real - 0.5 <= ns / 1000000.0 < ms as real + 0.5
  {
    (ns / 1000000.0 + 0.5).Floor
  }

  /** The log entry for one round: each sample and the average, in ns and rounded to ms. */
  function RoundReport(rounds: int, measurements: seq<real>, average: real): LogEntry
  {
    RoundResult(rounds, measurements,
                seq(|measurements|, i requires 0 <= i < |measurements| => RoundToMillis(measurements[i])),
                average, RoundToMillis(average))
  }

  /** Builds the log entry for one round, sample by sample. */
  method FormatRound(rounds: int, measurements: array<real>, average: real) returns (entry: LogEntry)
    requires measurements.Length == IterationsForAverage
    ensures entry == RoundReport(rounds, measurements[..], average)
    // follows from the previous clause; stated for callers
    ensures entry.RoundResult? && |entry.measurementsMs| == IterationsForAverage
  {
    var ms: seq<int> := [];
    for i := 0 to IterationsForAverage
      invariant |ms| == i
      invariant forall j :: 0 <= j < i ==> ms[j] == RoundToMillis(measurements[j])
    {
      ms := ms + [RoundToMillis(measurements[i])];
    }
    entry := RoundResult(rounds, measurements[..], ms, average, RoundToMillis(average));
  }

  // ---------------------------------------------------------------------------
  // The recommendation

  /** How far an average lies from the target duration. */
  function Distance(average: real): real
  {
    var target := MinimumHashingTimeNs as real;
    if average >= target then average - target else target - average
  }

  /**
   * The overshoot correction: there are at least two averages and the last one
   * lies strictly farther from the target than the one before it.
   */
  predicate PreviousIsCloser(averageMeasurements: seq<real>)
  {
    var n := |averageMeasurements|;
    n > 1 && Distance(averageMeasurements[n - 1]) > Distance(averageMeasurements[n - 2])
  }

  /** The first index of the last two (or of the only one) of n averages. */
  function LastTwoStart(n: nat): nat
  {
    if n > 1 then n - 2 else 0
  }

  /**
   * Index j of the averages is the one of the last two rounds whose average is
   * closest to the target, the later one winning on equal distance.
   */
  ghost predicate IsClosestOfLastTwo(averages: seq<real>, j: int)
  {
    var n := |averages|;
    LastTwoStart(n) <= j < n
    && (forall i :: LastTwoStart(n) <= i < n ==> Distance(averages[j]) <= Distance(averages[i]))
    && (forall i :: j < i < n ==> Distance(averages[j]) < Distance(averages[i]))
  }

  /** Stepping back exactly when the previous round is closer picks the closest of the last two rounds, and only it. */
  lemma PreviousIsCloserPicksClosest(averages: seq<real>, j: int)
    requires |averages| > 0
    ensures IsClosestOfLastTwo(averages, j) <==> j == |averages| - (if PreviousIsCloser(averages) then 2 else 1)
  {
  }

  // ---------------------------------------------------------------------------
  // The run's title

  predicate IsUpperAscii(c: char)
  {
    'A' <= c <= 'Z'
  }

  function LowerAscii(c: char): char
  {
    if IsUpperAscii(c) then (c as int + 32) as char else c
  }

  /** String.toLowerCase on ASCII letters; every other character is kept. */
  function ToLowerAscii(s: string): string
  {
    seq(|s|, i requires 0 <= i < |s| => LowerAscii(s[i]))
  }

  /** The index of the first character from i on that is above the space character, or |s|. */
  function SkipLeading(s: string, i: nat): (a: nat)
    requires i <= |s|
    ensures i <= a <= |s|
    ensures a < |s| ==> s[a] > ' '
    ensures forall k :: i <= k < a ==> s[k] <= ' '
    decreases |s| - i
  {
    if i < |s| && s[i] <= ' ' then SkipLeading(s, i + 1) else i
  }

  /** The end of s[a..b] once the characters at or below the space character are dropped from its end. */
  function SkipTrailing(s: string, a: nat, b: nat): (e: nat)
    requires a <= b <= |s|
    ensures a <= e <= b
    ensures a < e ==> s[e - 1] > ' '
    ensures forall k :: e <= k < b ==> s[k] <= ' '
  {
    if a < b && s[b - 1] <= ' ' then SkipTrailing(s, a, b - 1) else b
  }

  /** String.trim: drops the characters at or below the space character at both ends. */
  function Trim(s: string): string
  {
    var a := SkipLeading(s, 0);
    s[a..SkipTrailing(s, a, |s|)]
  }

  /**
   * Trim keeps the middle part s[a..b] of s that neither starts nor ends with a
   * character at or below the space character, and drops only such characters.
   */
  lemma TrimIsMiddlePart(s: string)
    ensures var r := Trim(s);
            && (r == [] || (r[0] > ' ' && r[|r| - 1] > ' '))
            && exists a, b :: 0 <= a <= b <= |s| && r == s[a..b]
                              && (forall i :: 0 <= i < a ==> s[i] <= ' ')
                              && (forall i :: b <= i < |s| ==> s[i] <= ' ')
  {
  }

  /** String.replace(" ", "_"). */
  function ReplaceSpaces(s: string): string
  {
    seq(|s|, i requires 0 <= i < |s| => if s[i] == ' ' then '_' else s[i])
  }

  /** The title as the benchmark normalises it: lower-cased, trimmed, spaces replaced by underscores. */
  function NormalizeTitle(title: string): string
  {
    ReplaceSpaces(Trim(ToLowerAscii(title)))
  }

  /**
   * A normalised title has no spaces and no upper-case ASCII letters, neither
   * starts nor ends with a character at or below the space character, and is
   * no longer than the title.
   */
  lemma NormalizedTitleShape(title: string)
    ensures var r := NormalizeTitle(title);
            && |r| <= |title|
            && (forall i :: 0 <= i < |r| ==> r[i] != ' ' && !IsUpperAscii(r[i]))
            && (r == [] || (r[0] > ' ' && r[|r| - 1] > ' '))
  {
  }

  /** The title of a run: its first argument, or the default title, normalised. */
  function Title(args: seq<string>): string
  {
    NormalizeTitle(if |args| > 0 then args[0] else DefaultTitle)
  }

  /** A normalised title normalises to itself. */
  lemma NormalizeTitleIdempotent(title: string)
    ensures NormalizeTitle(NormalizeTitle(title)) == NormalizeTitle(title)
  {
  }

  // ---------------------------------------------------------------------------
  // The search

  /** The averages of the first n rounds, the k-th measured at cost MinimumRounds + k. */
  function History(hasher: Hasher, n: nat): (h: seq<real>)
    ensures |h| == n
  {
    if n == 0 then [] else History(hasher, n - 1) + [RoundAverage(hasher, MinimumRounds + n - 1)]
  }

  /** The k-th average of the history is the average at cost MinimumRounds + k. */
  lemma {:induction false} HistoryAt(hasher: Hasher, n: nat, k: nat)
    requires k < n
    ensures History(hasher, n)[k] == RoundAverage(hasher, MinimumRounds + k)
  {
    if k < n - 1 {
      HistoryAt(hasher, n - 1, k);
    }
  }

  /** The log entries of the first n rounds. */
  function RoundLog(hasher: Hasher, n: nat): (log: seq<LogEntry>)
    ensures |log| == n
  {
    if n == 0 then []
    else
      var rounds := MinimumRounds + n - 1;
      RoundLog(hasher, n - 1) + [RoundReport(rounds, Measurements(hasher, rounds), RoundAverage(hasher, rounds))]
  }

  /**
   * The k-th round's log entry reports cost MinimumRounds + k: the first round
   * runs at MinimumRounds and each later one at one more than the one before.
   * Its samples and average are those measured at that cost.
   */
  lemma {:induction false} RoundLogAt(hasher: Hasher, n: nat, k: nat)
    requires k < n
    ensures RoundLog(hasher, n)[k].RoundResult?
    ensures RoundLog(hasher, n)[k].rounds == MinimumRounds + k
    ensures RoundLog(hasher, n)[k].measurements == Measurements(hasher, MinimumRounds + k)
    ensures RoundLog(hasher, n)[k].average == RoundAverage(hasher, MinimumRounds + k)
  {
    if k < n - 1 {
      RoundLogAt(hasher, n - 1, k);
    }
  }

  /** Some accepted cost from MinimumRounds on has an average that reaches the target. */
  ghost predicate TargetReachable(hasher: Hasher)
  {
    exists cost :: hasher.minCost <= MinimumRounds <= cost <= hasher.maxCost
                   && RoundAverage(hasher, cost) >= MinimumHashingTimeNs as real
  }

  /**
   * When every cost measured so far stayed below the target and the hash
   * refuses the next cost, no accepted cost reaches the target.
   */
  lemma RejectedMeansUnreachable(hasher: Hasher, n: nat)
    requires forall k :: 0 <= k < n ==> History(hasher, n)[k] < MinimumHashingTimeNs as real
    requires n > 0 ==> hasher.Accepts(MinimumRounds)
    requires !hasher.Accepts(MinimumRounds + n)
    ensures !TargetReachable(hasher)
  {
    forall cost | hasher.minCost <= MinimumRounds <= cost <= hasher.maxCost
      ensures RoundAverage(hasher, cost) < MinimumHashingTimeNs as real
    {
      HistoryAt(hasher, n, cost - MinimumRounds);
    }
  }

  /** The search stopped at the first average that reaches the target. */
  ghost predicate StopsAtFirstReaching(averages: seq<real>)
  {
    && |averages| > 0
    && averages[|averages| - 1] >= MinimumHashingTimeNs as real
    && (forall k :: 0 <= k < |averages| - 1 ==> averages[k] < MinimumHashingTimeNs as real)
  }

  /**
   * `recommended` is a sound recommendation after the costs MinimumRounds to
   * `rounds` were measured with these averages: it is the cost of one of the
   * last two rounds, the one closest to the target (the later one on equal
   * distance), and its average reaches the target exactly when it is the last
   * cost.
   */
  ghost predicate IsRecommendation(averages: seq<real>, rounds: int, recommended: int)
  {
    && |averages| > 0
    && rounds == MinimumRounds + |averages| - 1
    && MinimumRounds <= recommended
    && rounds - 1 <= recommended <= rounds
    && IsClosestOfLastTwo(averages, recommended - MinimumRounds)
    && (averages[recommended - MinimumRounds] >= MinimumHashingTimeNs as real <==> recommended == rounds)
  }

  /**
   * Keeping the last cost, or stepping back one when the previous round is
   * closer, gives a sound recommendation.
   */
  lemma RecommendationIsSound(averages: seq<real>, rounds: int, recommended: int)
    requires StopsAtFirstReaching(averages)
    requires rounds == MinimumRounds + |averages| - 1
    requires recommended == if PreviousIsCloser(averages) then rounds - 1 else rounds
    ensures IsRecommendation(averages, rounds, recommended)
  {
  }

  /** At most one cost is a sound recommendation for given averages. */
  lemma RecommendationIsUnique(averages: seq<real>, rounds: int, r1: int, r2: int)
    requires IsRecommendation(averages, rounds, r1)
    requires IsRecommendation(averages, rounds, r2)
    ensures r1 == r2
  {
  }

  /**
   * When the averages never decrease with the cost, the recommended average is
   * no farther from the target than any measured average: the last-two rule
   * then picks the closest average overall.
   */
  lemma RecommendationClosestWhenNonDecreasing(averages: seq<real>, rounds: int, recommended: int, i: int)
    requires StopsAtFirstReaching(averages)
    requires forall p, q :: 0 <= p <= q < |averages| ==> averages[p] <= averages[q]
    requires IsRecommendation(averages, rounds, recommended)
    requires 0 <= i < |averages|
    ensures Distance(averages[recommended - MinimumRounds]) <= Distance(averages[i])
  {
    var n := |averages|;
    if i < LastTwoStart(n) {
      assert averages[i] <= averages[n - 2] < MinimumHashingTimeNs as real;
      assert Distance(averages[n - 2]) <= Distance(averages[i]);
      assert Distance(averages[recommended - MinimumRounds]) <= Distance(averages[n - 2]);
    }
  }

  /**
   * Without that ordering the last-two rule can miss the closest average:
   * averages of 249 ms, 100 ms and 300 ms at costs 9, 10 and 11 recommend
   * cost 11, 50 ms off the target, while cost 9 is 1 ms off.
   */
  lemma RecommendationNotClosestOverall()
    ensures var averages := [249000000.0, 100000000.0, 300000000.0];
            && StopsAtFirstReaching(averages)
            && !PreviousIsCloser(averages)
            && IsRecommendation(averages, 11, 11)
            && Distance(averages[0]) < Distance(averages[2])
  {
    var averages := [249000000.0, 100000000.0, 300000000.0];
    RecommendationIsSound(averages, 11, 11);
  }

  /** Everything a run logs, given its title and how it ended. */
  function BenchmarkLog(title: string, hasher: Hasher, outcome: Outcome): seq<LogEntry>
  {
    [Starting(title), Settings(IterationsForAverage, MinimumRounds, MinimumHashingTimeNs)]
    + RoundLog(hasher, |outcome.averageMeasurements|)
    + (if outcome.Calibrated? then [Recommendation(outcome.recommendedRounds), Stopping(title)] else [])
  }

  /**
   * The search loop: appends one log entry per round and measures the
   * average hashing time at costs MinimumRounds, MinimumRounds + 1, ... until
   * an average reaches the target (`reached`) or the hash refuses a cost.
   * `rounds` is one past the last measured cost, or the refused cost.
   */
  method MeasureUntilTarget(hasher: Hasher, logBefore: seq<LogEntry>)
    returns (reached: bool, rounds: int, averageMeasurements: seq<real>, log: seq<LogEntry>)
    ensures rounds == MinimumRounds + |averageMeasurements|
    ensures averageMeasurements == History(hasher, |averageMeasurements|)
    ensures log == logBefore + RoundLog(hasher, |averageMeasurements|)
    ensures reached <==> TargetReachable(hasher)
    ensures reached ==> StopsAtFirstReaching(averageMeasurements)
    ensures forall cost :: MinimumRounds <= cost < rounds ==> hasher.Accepts(cost)
    // at least one round runs unless the first cost is refused
    ensures hasher.Accepts(MinimumRounds) ==> |averageMeasurements| > 0
    ensures !reached ==>
              && !hasher.Accepts(rounds)
              && (forall k :: 0 <= k < |averageMeasurements| ==> averageMeasurements[k] < MinimumHashingTimeNs as real)
  {
    log := logBefore;
    rounds := MinimumRounds;
    averageMeasurements := [];
    var hashingTime: real := 0.0;

    while hashingTime < MinimumHashingTimeNs as real
      invariant rounds == MinimumRounds + |averageMeasurements|
      invariant averageMeasurements == History(hasher, |averageMeasurements|)
      invariant log == logBefore + RoundLog(hasher, |averageMeasurements|)
      invariant |averageMeasurements| == 0 ==> hashingTime == 0.0
      invariant |averageMeasurements| > 0 ==> hashingTime == averageMeasurements[|averageMeasurements| - 1]
      invariant forall cost :: MinimumRounds <= cost < rounds ==> hasher.Accepts(cost)
      invariant forall k :: 0 <= k < |averageMeasurements| - 1 ==>
                  averageMeasurements[k] < MinimumHashingTimeNs as real
      decreases hasher.maxCost - rounds
    {
      var accepted, measurements := GenerateMeasurementsForRounds(hasher, rounds);
      if !accepted {
        // the hash refuses this cost: the run ends with what was measured so far
        RejectedMeansUnreachable(hasher, |averageMeasurements|);
        return false, rounds, averageMeasurements, log;
      }
      // never NaN: there are IterationsForAverage > 0 samples
      var average := Average(measurements[..]).value;
      var entry := FormatRound(rounds, measurements, average);
      log := log + [entry];

      hashingTime := average;
      averageMeasurements := averageMeasurements + [average];
      rounds := rounds + 1;
    }
    HistoryAt(hasher, |averageMeasurements|, |averageMeasurements| - 1);
    assert hasher.Accepts(MinimumRounds) && hasher.Accepts(rounds - 1);
    reached := true;
  }

  /**
   * The benchmark: logs its title and settings, runs the search loop, then
   * recommends the last measured cost or the one before it, whichever average
   * is closer to the target. Returns what was logged and how the run ended.
   */
  method RunBenchmark(args: seq<string>, hasher: Hasher) returns (log: seq<LogEntry>, outcome: Outcome)
    ensures log == BenchmarkLog(Title(args), hasher, outcome)
    ensures outcome.averageMeasurements == History(hasher, |outcome.averageMeasurements|)
    // the run ends normally exactly when some accepted cost reaches the target
    ensures outcome.Calibrated? <==> TargetReachable(hasher)
    ensures outcome.Calibrated? ==>
              && StopsAtFirstReaching(outcome.averageMeasurements)
              && IsRecommendation(outcome.averageMeasurements, outcome.rounds, outcome.recommendedRounds)
    // every measured cost was accepted
    ensures forall cost :: MinimumRounds <= cost < MinimumRounds + |outcome.averageMeasurements| ==> hasher.Accepts(cost)
    ensures outcome.CostRejected? ==>
              && outcome.rounds == MinimumRounds + |outcome.averageMeasurements|
              && !hasher.Accepts(outcome.rounds)
              && (forall k :: 0 <= k < |outcome.averageMeasurements| ==>
                    outcome.averageMeasurements[k] < MinimumHashingTimeNs as real)
  {
    var title := Title(args);
    log := [Starting(title), Settings(IterationsForAverage, MinimumRounds, MinimumHashingTimeNs)];

    var reached, rounds, averageMeasurements;
    reached, rounds, averageMeasurements, log := MeasureUntilTarget(hasher, log);
    if !reached {
      outcome := CostRejected(rounds, averageMeasurements);
      return;
    }
    // undo the last increment: rounds is the cost of the last measured round
    rounds := rounds - 1;

    var recommendedRounds := rounds;
    if PreviousIsCloser(averageMeasurements) {
      recommendedRounds := recommendedRounds - 1;
    }
    RecommendationIsSound(averageMeasurements, rounds, recommendedRounds);

    log := log + [Recommendation(recommendedRounds), Stopping(title)];
    outcome := Calibrated(rounds, recommendedRounds, averageMeasurements);
  }

  // ---------------------------------------------------------------------------
  // Worked examples

  /** A round just below and one well above the target: the later is kept only when it is at least as close. */
  lemma TieBreakExamples()
    ensures !PreviousIsCloser([200000000.0, 260000000.0])
    ensures PreviousIsCloser([240000000.0, 400000000.0])
    ensures !PreviousIsCloser([240000000.0, 260000000.0])
    ensures !PreviousIsCloser([260000000.0])
  {
  }

  lemma AverageExample()
    ensures Average([100.0, 200.0, 300.0]) == Some(200.0)
  {
    assert [100.0, 200.0, 300.0][..2] == [100.0, 200.0];
    assert [100.0, 200.0][..1] == [100.0];
    assert [100.0][..0] == [];
  }

  lemma RoundToMillisExamples()
    ensures RoundToMillis(1500000.0) == 2
    ensures RoundToMillis(1499999.0) == 1
    ensures RoundToMillis(250000000.0) == 250
  {
  }

  lemma DefaultTitleExample()
    ensures Title([]) == "hashing_benchmark"
  {
  }
}
