/**
 * The setup progress tracker: the current and total number of imported
 * records, the import stage and the last error, updated in place by the
 * import and read by the polling endpoint.
 */
module Progress {
  import opened Options
  import opened Rounding

  /** The number of records in the bundled data set, the total before an import reports its own. */
  const DefaultTotal := 894636

  const Idle := "idle"
  const Failed := "error"

  /** What the polling endpoint returns. */
  datatype Snapshot = Snapshot(current: int, total: int, stage: string, percentage: real, error: Option<string>)

  class ProgressState {
    var current: int
    var total: int
    var stage: string
    var error: Option<string>

    /** The state before any import, and after a reset. */
    predicate Initial()
      reads this
    {
      current == 0 && total == DefaultTotal && stage == Idle && error.None?
    }

    constructor ()
      ensures Initial()
    {
      current := 0;
      total := DefaultTotal;
      stage := Idle;
      error := None;
    }

    /** `update`: the three progress fields change, the error stays. */
    method Update(current': int, total': int, stage': string)
      modifies this
      ensures current == current' && total == total' && stage == stage'
      ensures error == old(error)
    {
      current := current';
      total := total';
      stage := stage';
    }

    /** `set_error`: records the error and moves to the error stage; the counts stay. */
    method SetError(message: string)
      modifies this
      ensures error == Some(message) && stage == Failed
      ensures current == old(current) && total == old(total)
    {
      error := Some(message);
      stage := Failed;
    }

    /** `reset`: back to the initial state, error cleared. */
    method Reset()
      modifies this
      ensures Initial()
    {
      current := 0;
      total := DefaultTotal;
      stage := Idle;
      error := None;
    }

    /**
     * `get_snapshot`: the fields as they are, with the completion percentage
     * rounded to one decimal, 0 while the total is not positive. Nothing changes.
     */
    method GetSnapshot() returns (s: Snapshot)
      ensures s.current == current && s.total == total && s.stage == stage && s.error == error
      ensures total > 0 ==> s.percentage == Percentage(current, total)
      ensures total <= 0 ==> s.percentage == 0.0
      ensures 0 <= current <= total ==> 0.0 <= s.percentage <= 100.0
      ensures 0 < total == current ==> s.percentage == 100.0
      ensures current == 0 ==> s.percentage == 0.0
    {
      var percentage := 0.0;
      if total > 0 {
        percentage := Round1(current as real / total as real * 100.0);
        if 0 <= current <= total {
          PercentageRange(current, total);
        }
        if current == 0 {
          PercentageRange(0, total);
        }
      }
      s := Snapshot(current, total, stage, percentage, error);
    }
  }
}
