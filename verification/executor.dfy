/**
 * The interval executor: every interval it runs the callee's `DoIteration`
 * a configured number of times, one after another, sleeping a random part
 * of the slack left before each run once the average run time is known.
 * The clock, the random source and the callee's results are inputs here.
 */
module Executor {
  import opened Wrappers

  /** `runsCounter` is an unsigned 64-bit counter. */
  const Uint64Modulus: nat := 0x1_0000_0000_0000_0000

  /** What one iteration observes: the time since the interval started, taken
      before the slack estimate; the random number behind the sleep; the
      duration of `DoIteration`; and what `DoIteration` returned. */
  datatype Tick = Tick(elapsed: int, jitter: nat, duration: nat, outcome: Outcome)

  /** What the executor does that can be seen from outside. */
  datatype Event =
    | Slept(duration: nat)
    | Iterated(interval: nat, iteration: nat, outcome: Outcome)
    | SchedulerStarted

  /** The moving average of iteration durations: the first sample is stored as it
      is, later ones weigh one tenth, with integer truncation. */
  function NextAverage(prev: int, d: nat): (r: int)
    requires prev >= 0
    ensures prev == 0 ==> r == d
    ensures prev > 0 && prev <= d ==> prev <= r <= d
    ensures prev > 0 && d < prev ==> d <= r <= prev
  {
    if prev == 0 then d else (prev * 9 + d) / 10
  }

  /** Time left in the interval minus what the remaining iterations are expected to take. */
  function MaxSlack(avg: int, total: int, num: int, i: int, elapsed: int): (r: int)
    ensures avg >= 0 && i <= num ==> r <= total - elapsed
    ensures avg == 0 || i == num ==> r == total - elapsed
  {
    (total - elapsed) - avg * (num - i)
  }

  /** The sleep before iteration `i` (counting from 0): none while the average is
      unknown (0) or when there is no slack, otherwise a length below the slack. */
  function SleepBefore(avg: int, total: int, num: int, i: int, tick: Tick): (s: Option<nat>)
    ensures s.Some? <==> avg > 0 && MaxSlack(avg, total, num, i, tick.elapsed) > 0
    ensures s.Some? ==> s.value < MaxSlack(avg, total, num, i, tick.elapsed)
  {
    if avg > 0 && MaxSlack(avg, total, num, i, tick.elapsed) > 0 then
      Some(tick.jitter % MaxSlack(avg, total, num, i, tick.elapsed))
    else None
  }

  /** Iterations `i` to `num - 1` of interval `run`, starting from average `avg`:
      the events they produce and the average they leave. */
  function RunFrom(avg: int, total: int, num: int, run: nat, ticks: seq<Tick>, i: nat): (r: (seq<Event>, int))
    requires avg >= 0
    requires num <= |ticks|
    ensures r.1 >= 0
    ensures i >= num ==> r == ([], avg)
    ensures i < num ==> num - i <= |r.0| <= 2 * (num - i)
    decreases num - i
  {
    if i >= num then ([], avg)
    else
      var sleep := SleepBefore(avg, total, num, i, ticks[i]);
      var here := (if sleep.Some? then [Slept(sleep.value)] else []) + [Iterated(run, i + 1, ticks[i].outcome)];
      var rest := RunFrom(NextAverage(avg, ticks[i].duration), total, num, run, ticks, i + 1);
      (here + rest.0, rest.1)
  }

  /** The iteration numbers of the `Iterated` events, in order. */
  function Iterations(events: seq<Event>): seq<nat>
  {
    if |events| == 0 then []
    else (if events[0].Iterated? then [events[0].iteration] else []) + Iterations(events[1..])
  }

  /** The numbers `lo` to `hi - 1`. */
  function Range(lo: nat, hi: int): (r: seq<nat>)
    ensures |r| == if lo < hi then hi - lo else 0
    ensures forall k :: 0 <= k < |r| ==> r[k] == lo + k
    decreases hi - lo
  {
    if lo >= hi then [] else [lo] + Range(lo + 1, hi)
  }

  lemma {:induction false} IterationsAppend(a: seq<Event>, b: seq<Event>)
    ensures Iterations(a + b) == Iterations(a) + Iterations(b)
    decreases |a|
  {
    if |a| > 0 {
      assert (a + b)[1..] == a[1..] + b;
      IterationsAppend(a[1..], b);
    } else {
      assert a + b == b;
    }
  }

  /** `DoIteration` is called exactly once for each of the iterations `i + 1` to `num`,
      in order, whatever each call returns; none is called when `num <= i`. */
  lemma {:induction false} CallsEveryIterationOnce(avg: int, total: int, num: int, run: nat, ticks: seq<Tick>, i: nat)
    requires avg >= 0
    requires num <= |ticks|
    ensures Iterations(RunFrom(avg, total, num, run, ticks, i).0) == Range(i + 1, num + 1)
    decreases num - i
  {
    if i < num {
      var sleep := SleepBefore(avg, total, num, i, ticks[i]);
      var here := (if sleep.Some? then [Slept(sleep.value)] else []) + [Iterated(run, i + 1, ticks[i].outcome)];
      var rest := RunFrom(NextAverage(avg, ticks[i].duration), total, num, run, ticks, i + 1);
      CallsEveryIterationOnce(NextAverage(avg, ticks[i].duration), total, num, run, ticks, i + 1);
      IterationsAppend(here, rest.0);
      if sleep.Some? {
        IterationsAppend([Slept(sleep.value)], [Iterated(run, i + 1, ticks[i].outcome)]);
      }
    }
  }

  /** While the average is still 0 the next iteration starts without a sleep;
      in particular the very first iteration of a fresh executor. */
  lemma FirstIterationNotDelayed(total: int, num: int, run: nat, ticks: seq<Tick>, i: nat)
    requires num <= |ticks|
    requires i < num
    ensures RunFrom(0, total, num, run, ticks, i).0[0] == Iterated(run, i + 1, ticks[i].outcome)
  {
  }

  /** The average never rises above the largest of its start value and the durations seen. */
  lemma {:induction false} AverageBoundedAbove(avg: int, total: int, num: int, run: nat, ticks: seq<Tick>, i: nat, bound: int)
    requires 0 <= avg <= bound
    requires num <= |ticks|
    requires forall k :: i <= k < num ==> ticks[k].duration <= bound
    ensures RunFrom(avg, total, num, run, ticks, i).1 <= bound
    decreases num - i
  {
    if i < num {
      AverageBoundedAbove(NextAverage(avg, ticks[i].duration), total, num, run, ticks, i + 1, bound);
    }
  }

  /** Once every duration is at least `bound`, so is the average after at least one
      iteration, whatever it started from. */
  lemma {:induction false} AverageBoundedBelow(avg: int, total: int, num: int, run: nat, ticks: seq<Tick>, i: nat, bound: int)
    requires avg >= 0
    requires avg >= bound || (avg == 0 && i < num)
    requires num <= |ticks|
    requires forall k :: i <= k < num ==> ticks[k].duration >= bound
    ensures RunFrom(avg, total, num, run, ticks, i).1 >= bound
    decreases num - i
  {
    if i < num {
      AverageBoundedBelow(NextAverage(avg, ticks[i].duration), total, num, run, ticks, i + 1, bound);
    }
  }

  /** The interval executor, driving a callee whose results arrive as `Tick`s. */
  class IterationsExecutor {
    const numOfTradeIterationsInInterval: int
    const intervalExecutionDuration: int
    var averageDuration: int
    var runsCounter: nat
    var lastRunEpoch: nat
    /** Whether the periodic scheduler has been started. */
    var started: bool
    /** Sleeps, callee calls and the scheduler start, in order. */
    var events: seq<Event>

    ghost predicate Valid()
      reads this
    {
      averageDuration >= 0 && runsCounter < Uint64Modulus
    }

    constructor (num: int, duration: int)
      ensures Valid()
      ensures numOfTradeIterationsInInterval == num && intervalExecutionDuration == duration
      ensures averageDuration == 0 && runsCounter == 0 && lastRunEpoch == 0
      ensures !started && events == []
    {
      numOfTradeIterationsInInterval := num;
      intervalExecutionDuration := duration;
      averageDuration := 0;
      runsCounter := 0;
      lastRunEpoch := 0;
      started := false;
      events := [];
    }

    /** `doInterval`: count the run, then run the callee `num` times, each
        preceded by a random sleep when there is slack. `now` is the clock
        when the interval ends, stored on every way out. */
    method DoInterval(ticks: seq<Tick>, now: nat)
      requires Valid()
      requires numOfTradeIterationsInInterval <= |ticks|
      modifies this
      ensures Valid()
      ensures runsCounter == (old(runsCounter) + 1) % Uint64Modulus
      ensures lastRunEpoch == now
      ensures started == old(started)
      ensures var run := RunFrom(old(averageDuration), intervalExecutionDuration,
                                 numOfTradeIterationsInInterval, runsCounter, ticks, 0);
              events == old(events) + run.0 && averageDuration == run.1
      ensures numOfTradeIterationsInInterval <= 0 ==>
              events == old(events) && averageDuration == old(averageDuration)
    {
      runsCounter := (runsCounter + 1) % Uint64Modulus;
      var run := runsCounter;
      var num := numOfTradeIterationsInInterval;
      if num <= 0 {
        lastRunEpoch := now;
        return;
      }
      var total := intervalExecutionDuration;
      var i := 0;
      while i < num
        invariant 0 <= i <= num
        invariant averageDuration >= 0
        invariant runsCounter == run && started == old(started)
        invariant old(events) + RunFrom(old(averageDuration), total, num, run, ticks, 0).0
                  == events + RunFrom(averageDuration, total, num, run, ticks, i).0
        invariant RunFrom(old(averageDuration), total, num, run, ticks, 0).1
                  == RunFrom(averageDuration, total, num, run, ticks, i).1
      {
        var lastAvg := averageDuration;
        ghost var before := events;
        ghost var sleep := SleepBefore(lastAvg, total, num, i, ticks[i]);
        if lastAvg > 0 {
          var remaining := total - ticks[i].elapsed;
          var remainingIterations := num - i;
          var maxSlack := remaining - lastAvg * remainingIterations;
          if maxSlack > 0 {
            var sleepTime := ticks[i].jitter % maxSlack;
            events := events + [Slept(sleepTime)];
          }
        }
        // The callee runs; an error is only logged and the loop goes on.
        events := events + [Iterated(run, i + 1, ticks[i].outcome)];
        ghost var here := (if sleep.Some? then [Slept(sleep.value)] else []) + [Iterated(run, i + 1, ticks[i].outcome)];
        assert events == before + here;
        var iterDur := ticks[i].duration;
        var prevAvg := averageDuration;
        if prevAvg == 0 {
          averageDuration := iterDur;
        } else {
          averageDuration := (prevAvg * 9 + iterDur) / 10;
        }
        assert averageDuration == NextAverage(lastAvg, ticks[i].duration);
        ghost var rest := RunFrom(averageDuration, total, num, run, ticks, i + 1);
        assert RunFrom(lastAvg, total, num, run, ticks, i) == (here + rest.0, rest.1);
        assert before + (here + rest.0) == events + rest.0;
        i := i + 1;
      }
      lastRunEpoch := now;
    }

    /** `Start`: one whole interval runs before the periodic scheduler starts. */
    method Start(ticks: seq<Tick>, now: nat)
      requires Valid()
      requires numOfTradeIterationsInInterval <= |ticks|
      modifies this
      ensures Valid() && started
      ensures runsCounter == (old(runsCounter) + 1) % Uint64Modulus
      ensures lastRunEpoch == now
      ensures var run := RunFrom(old(averageDuration), intervalExecutionDuration,
                                 numOfTradeIterationsInInterval, runsCounter, ticks, 0);
              events == old(events) + run.0 + [SchedulerStarted] && averageDuration == run.1
    {
      DoInterval(ticks, now);
      started := true;
      events := events + [SchedulerStarted];
    }
  }
}
