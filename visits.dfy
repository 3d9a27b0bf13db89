/**
 * The ledger `plates_log.csv` shared by both stations, held in memory as its
 * data rows. Every field is the string the CSV reader returns; an empty
 * string is an absent field.
 */
module Visits {
  /** One visit: the six columns written at car_entry.py:43. */
  datatype Row = Row(
    plate: string,
    entryTime: string,
    exitTime: string,
    paymentStatus: string,
    paymentTime: string,
    amountPaid: string)

  const Unpaid: string := "0"
  const Paid: string := "1"

  /** The row `log_entry` writes: entered now, not exited, unpaid. */
  function NewVisit(plate: string, timestamp: string): Row {
    Row(plate, timestamp, "", Unpaid, "", "")
  }

  /** The condition `verify_payment` tests on each row. */
  predicate IsOpenPaidFor(r: Row, plate: string) {
    r.plate == plate && r.paymentStatus == Paid && r.exitTime == ""
  }

  /** Some row of `plate` is paid and has no exit time yet. */
  ghost predicate HasOpenPaid(rows: seq<Row>, plate: string) {
    exists i :: 0 <= i < |rows| && IsOpenPaidFor(rows[i], plate)
  }

  /** What `log_exit` does to one row. */
  function CloseRow(r: Row, plate: string, timestamp: string): Row {
    if r.plate == plate && r.exitTime == "" then r.(exitTime := timestamp) else r
  }

  /** The rows `log_exit` writes back. */
  function CloseOpen(rows: seq<Row>, plate: string, timestamp: string): seq<Row> {
    if rows == [] then []
    else CloseOpen(rows[..|rows| - 1], plate, timestamp) + [CloseRow(rows[|rows| - 1], plate, timestamp)]
  }

  /** `CloseOpen` keeps the number and order of rows and treats each row on its own. */
  lemma {:induction false} CloseOpenAt(rows: seq<Row>, plate: string, timestamp: string)
    ensures |CloseOpen(rows, plate, timestamp)| == |rows|
    ensures forall i :: 0 <= i < |rows| ==>
      CloseOpen(rows, plate, timestamp)[i] == CloseRow(rows[i], plate, timestamp)
  {
    if rows != [] {
      CloseOpenAt(rows[..|rows| - 1], plate, timestamp);
    }
  }

  /**
   * `log_exit` stamps the exit time on exactly the rows of `plate` that had
   * none, paid or not; every other field and every other row is unchanged,
   * and a non-empty exit time is never overwritten.
   */
  lemma CloseOpenFrame(rows: seq<Row>, plate: string, timestamp: string, i: int)
    requires 0 <= i < |rows|
    ensures |CloseOpen(rows, plate, timestamp)| == |rows|
    ensures var r, r' := rows[i], CloseOpen(rows, plate, timestamp)[i];
      r'.plate == r.plate && r'.entryTime == r.entryTime &&
      r'.paymentStatus == r.paymentStatus && r'.paymentTime == r.paymentTime &&
      r'.amountPaid == r.amountPaid &&
      r'.exitTime == (if r.plate == plate && r.exitTime == "" then timestamp else r.exitTime)
    ensures rows[i].plate != plate || rows[i].exitTime != "" ==> CloseOpen(rows, plate, timestamp)[i] == rows[i]
  {
    CloseOpenAt(rows, plate, timestamp);
  }

  /** After `log_exit(plate)` with a non-empty timestamp no visit of `plate` is open, so none is open and paid. */
  lemma CloseOpenClosesPlate(rows: seq<Row>, plate: string, timestamp: string)
    requires timestamp != ""
    ensures forall i :: 0 <= i < |CloseOpen(rows, plate, timestamp)| ==>
      CloseOpen(rows, plate, timestamp)[i].plate == plate ==> CloseOpen(rows, plate, timestamp)[i].exitTime != ""
    ensures !HasOpenPaid(CloseOpen(rows, plate, timestamp), plate)
  {
  }

  /** Closing one plate's visits does not change whether another plate may leave. */
  lemma CloseOpenOtherPlates(rows: seq<Row>, plate: string, timestamp: string, other: string)
    requires other != plate
    ensures HasOpenPaid(CloseOpen(rows, plate, timestamp), other) <==> HasOpenPaid(rows, other)
  {
    var out := CloseOpen(rows, plate, timestamp);
    CloseOpenAt(rows, plate, timestamp);
    if HasOpenPaid(rows, other) {
      var i :| 0 <= i < |rows| && IsOpenPaidFor(rows[i], other);
      assert IsOpenPaidFor(out[i], other);
    }
    if HasOpenPaid(out, other) {
      var i :| 0 <= i < |out| && IsOpenPaidFor(out[i], other);
      assert IsOpenPaidFor(rows[i], other);
    }
  }

  /** A second `log_exit` for the same plate changes nothing. */
  lemma CloseOpenIdempotent(rows: seq<Row>, plate: string, t1: string, t2: string)
    requires t1 != ""
    ensures CloseOpen(CloseOpen(rows, plate, t1), plate, t2) == CloseOpen(rows, plate, t1)
  {
  }

  /** A new entry is unpaid, so it never makes any plate able to leave. */
  lemma EntryAddsNoPaidVisit(rows: seq<Row>, plate: string, timestamp: string, other: string)
    ensures HasOpenPaid(rows + [NewVisit(plate, timestamp)], other) <==> HasOpenPaid(rows, other)
  {
    var rows' := rows + [NewVisit(plate, timestamp)];
    if HasOpenPaid(rows', other) {
      var i :| 0 <= i < |rows'| && IsOpenPaidFor(rows'[i], other);
      assert i < |rows|;
      assert rows'[i] == rows[i];
    }
    if HasOpenPaid(rows, other) {
      var i :| 0 <= i < |rows| && IsOpenPaidFor(rows[i], other);
      assert rows'[i] == rows[i];
    }
  }

  /**
   * An entry of one plate and an exit of another commute: whichever of the
   * two stations writes first, both updates are in the final rows.
   */
  lemma EntryAndExitCommute(rows: seq<Row>, leaving: string, exitTime: string, entering: string, entryTime: string)
    requires leaving != entering
    ensures CloseOpen(rows + [NewVisit(entering, entryTime)], leaving, exitTime) ==
      CloseOpen(rows, leaving, exitTime) + [NewVisit(entering, entryTime)]
  {
  }

  /**
   * The ledger file. `present` is false before the file exists; the file then
   * holds no rows.
   */
  class Ledger {
    var present: bool
    var rows: seq<Row>

    ghost predicate Valid()
      reads this
    {
      !present ==> rows == []
    }

    /** A ledger file that does not exist yet. */
    constructor Absent()
      ensures Valid() && !present && rows == []
    {
      present := false;
      rows := [];
    }

    /** A ledger file that already holds `rows`. */
    constructor Existing(rows: seq<Row>)
      ensures Valid() && present && this.rows == rows
    {
      present := true;
      this.rows := rows;
    }

    /** Create the file, with only its header, when it does not exist (car_entry.py:15-19). */
    method CreateIfMissing()
      requires Valid()
      modifies this
      ensures Valid() && present && rows == old(rows)
    {
      if !present {
        present := true;
        rows := [];
      }
    }

    /** `log_entry(plate)`: append one open, unpaid visit after all existing rows. */
    method LogEntry(plate: string, timestamp: string)
      requires Valid() && present
      modifies this
      ensures Valid() && present
      ensures rows == old(rows) + [NewVisit(plate, timestamp)]
    {
      rows := rows + [NewVisit(plate, timestamp)];
    }

    /** `verify_payment(plate)`: false without a file, else whether some visit of `plate` is paid and still open. */
    method VerifyPayment(plate: string) returns (paid: bool)
      ensures paid <==> present && HasOpenPaid(rows, plate)
    {
      if !present {
        return false;
      }
      var i := 0;
      while i < |rows|
        invariant 0 <= i <= |rows|
        invariant forall k :: 0 <= k < i ==> !IsOpenPaidFor(rows[k], plate)
      {
        if IsOpenPaidFor(rows[i], plate) {
          return true;
        }
        i := i + 1;
      }
      return false;
    }

    /**
     * `log_exit(plate)`: read every row, stamp the exit time on the open rows
     * of `plate`, and write the rows back. The source reads the file without
     * checking that it exists; its only caller has just seen a paid visit.
     */
    method LogExit(plate: string, timestamp: string)
      requires Valid() && present
      modifies this
      ensures Valid() && present
      ensures rows == CloseOpen(old(rows), plate, timestamp)
    {
      var written: seq<Row> := [];
      var i := 0;
      while i < |rows|
        invariant 0 <= i <= |rows|
        invariant written == CloseOpen(rows[..i], plate, timestamp)
      {
        var row := rows[i];
        if row.plate == plate && row.exitTime == "" {
          row := row.(exitTime := timestamp);
        }
        assert rows[..i + 1][..i] == rows[..i];
        written := written + [row];
        i := i + 1;
      }
      assert rows[..i] == rows;
      rows := written;
    }
  }
}
