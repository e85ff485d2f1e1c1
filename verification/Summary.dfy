/** The end-of-run counters and the progress-bar counters, updated in place. */
module Summaries {
  import opened ExitCodes

  class Summary {
    var ok: nat
    var failed: nat
    var warning: nat
    var skipped: nat

    function Tally(): Counts
      reads this
    {
      Counts(ok, failed, warning, skipped)
    }

    constructor ()
      ensures Tally() == NO_COUNTS
    {
      ok, failed, warning, skipped := 0, 0, 0, 0;
    }

    /** One line more, in the bucket the stop policy expects. */
    method Record(code: ExitCode)
      modifies this
      ensures Tally() == Bump(old(Tally()), code)
      ensures Tally().Total() == old(Tally().Total()) + 1
      ensures forall cow: bool ::
                StopWorthyIn(Tally(), cow) == old(StopWorthyIn(Tally(), cow)) + if IsStopWorthy(code, cow) then 1 else 0
    {
      match code
      case 0 => ok := ok + 1;
      case 3 => warning := warning + 1;
      case 4 => warning := warning + 1;
      case 130 => skipped := skipped + 1;
      case _ => failed := failed + 1;
    }

    /** Lines that were never run. */
    method Skip(n: nat)
      modifies this
      ensures Tally() == AddSkipped(old(Tally()), n)
    {
      skipped := skipped + n;
    }
  }

  datatype BarState = Live | Finished | Abandoned

  /** The bar only moves when it is shown. */
  class Progress {
    const shown: bool
    var ok: nat
    var failed: nat
    var warning: nat
    var skipped: nat
    var position: nat
    var state: BarState

    function Tally(): Counts
      reads this
    {
      Counts(ok, failed, warning, skipped)
    }

    constructor (show: bool)
      ensures Tally() == NO_COUNTS && state == Live && shown == show && position == 0
    {
      ok, failed, warning, skipped := 0, 0, 0, 0;
      shown, position, state := show, 0, Live;
    }

    /** Counts as `Summary.Record` does; a shown bar moves by as much as the counters. */
    method Tick(code: ExitCode)
      modifies this`ok, this`failed, this`warning, this`skipped, this`position
      ensures Tally() == Bump(old(Tally()), code)
      ensures position == old(position) + if shown then Tally().Total() - old(Tally().Total()) else 0
    {
      match code {
        case 0 => ok := ok + 1;
        case 3 => warning := warning + 1;
        case 4 => warning := warning + 1;
        case 130 => skipped := skipped + 1;
        case _ => failed := failed + 1;
      }
      if shown {
        position := position + 1;
      }
    }

    /** Leave the bar where it is when anything was skipped, else complete it. */
    method FinishOrAbandon(summary: Summary)
      modifies this`state
      ensures state == if summary.Tally().skipped > 0 then Abandoned else Finished
    {
      if summary.skipped > 0 {
        state := Abandoned;
      } else {
        state := Finished;
      }
    }
  }
}
