/** An append-only log that can be cut back to an earlier position
    (backend/sumo/controller/metrics_logger.py). */
module MetricsLogger {

  class CsvLogger<T> {
    var rows: seq<T>

    constructor ()
      ensures rows == []
    {
      rows := [];
    }

    method Write(row: T)
      modifies this
      ensures rows == old(rows) + [row]
    {
      rows := rows + [row];
    }

    method Checkpoint() returns (position: nat)
      ensures position == |rows|
    {
      position := |rows|;
    }

    /** Discard what was written after the position. */
    method Restore(position: nat)
      modifies this
      ensures rows == if position <= |old(rows)| then old(rows)[..position] else old(rows)
    {
      if position <= |rows| {
        rows := rows[..position];
      }
    }
  }
}
