/** The stall accounting of the benchmark senders: the time without credit, from when
    sending stops to when it goes on. */
module StallClock {
  import opened Statistics

  /** Whether sending has stalled, since when, and the stall times recorded so far. */
  datatype Stall = Stall(stalled: bool, start: Timespec, samples: seq<nat>)

  function Stalled(k: Stall, now: Timespec): Stall {
    k.(stalled := true, start := now)
  }

  /** The end of a stall adds its length to the samples, if above zero. */
  function Resumed(k: Stall, end: Timespec): Stall {
    var diff := DiffTimespecUsec(k.start, end);
    k.(stalled := false, samples := k.samples + if k.stalled && diff > 0 then [diff] else [])
  }

  class Stalls {
    var stalled: bool
    var startStall: Timespec
    var tally: Tally
    /** The stall times recorded so far; no part of the program. */
    ghost var samples: seq<nat>

    ghost predicate Valid()
      reads this
    {
      tally == TallyOf(samples)
    }

    ghost function State(): Stall
      reads this
    {
      Stall(stalled, startStall, samples)
    }

    constructor ()
      ensures Valid() && !stalled && samples == []
    {
      stalled, startStall, tally, samples := false, Timespec(0, 0), EMPTY, [];
    }

    method Begin(now: Timespec)
      requires Valid()
      modifies this`stalled, this`startStall
      ensures Valid() && State() == Stalled(old(State()), now)
    {
      stalled, startStall := true, now;
    }

    /** Only a time above zero is recorded. */
    method End(end: Timespec)
      requires Valid()
      modifies this`stalled, this`tally, this`samples
      ensures Valid() && State() == Resumed(old(State()), end)
    {
      if stalled {
        var diff := DiffTimespecUsec(startStall, end);
        if diff > 0 {
          TallySnoc(samples, diff);
          tally, samples := Record(tally, diff), samples + [diff];
        }
        stalled := false;
      }
    }

    /** The variance printed at the end: that of the stalls recorded, while their
        accumulators are exact. */
    method PrintedVariance() returns (isos: int)
      requires Valid() && tally.n > 0
      ensures Exact64(samples) ==> samples != [] && isos == Variance(Sum(samples), SumSquares(samples), |samples|) >= 0
    {
      TallyHolds(samples);
      if Exact64(samples) {
        Statistics.PrintedVariance(samples);
      }
      var mean := tally.total / tally.n;
      isos := tally.squares / tally.n;
      isos := isos - mean * mean;
    }
  }
}
