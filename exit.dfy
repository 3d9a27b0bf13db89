/**
 * The exit station (car_exit.py): readings from frames where a vehicle is
 * present go into a buffer; every third reading is put to the vote, and the
 * voted plate may leave only when the ledger holds a paid visit of it that
 * has not been closed yet. There is no cooldown at the exit.
 */
module Exit {
  import Vote
  import Visits
  import Gate
  import Sensor

  /** What one reading leads to. */
  datatype Decision = Pending | Granted(plate: string) | Denied(plate: string)

  /**
   * One validated reading, with `timestamp` the formatted date `log_exit`
   * would write if the reading leads to a granted exit.
   */
  datatype Reading = Reading(plate: string, timestamp: string)

  /**
   * Everything the exit station can observe or change: its `plate_buffer`,
   * whether the ledger file exists, the ledger rows and the bytes sent to the
   * gate.
   */
  datatype Station = Station(buffer: seq<string>, present: bool, rows: seq<Visits.Row>, sent: seq<char>)

  /** `verify_payment(plate)` (car_exit.py:15-27). */
  ghost predicate MayLeave(s: Station, plate: string) {
    s.present && Visits.HasOpenPaid(s.rows, plate)
  }

  /**
   * One reading (car_exit.py:67, 74-88): a decision empties the buffer and
   * consults the ledger; a grant closes the plate's open visits and opens
   * then closes the gate, a denial sounds the buzzer and leaves the ledger
   * alone.
   */
  ghost function Step(s: Station, connected: bool, r: Reading): (Station, Decision) {
    var buffer := s.buffer + [r.plate];
    if |buffer| >= Vote.Threshold then
      var decided := Vote.MostCommon(buffer);
      if MayLeave(s, decided) then
        (Station([], s.present, Visits.CloseOpen(s.rows, decided, r.timestamp),
                 s.sent + Gate.Emitted(connected, [Gate.OpenGate, Gate.CloseGate])),
         Granted(decided))
      else
        (Station([], s.present, s.rows, s.sent + Gate.Emitted(connected, [Gate.Buzzer])), Denied(decided))
    else (s.(buffer := buffer), Pending)
  }

  /** A sequence of readings, applied in order. */
  ghost function Run(s: Station, connected: bool, rs: seq<Reading>): Station {
    if rs == [] then s else Step(Run(s, connected, rs[..|rs| - 1]), connected, rs[|rs| - 1]).0
  }

  /**
   * One reading: no decision until the buffer holds three readings; a
   * decision is the stable mode of those readings and empties the buffer;
   * it is a grant exactly when `verify_payment` holds for the voted plate.
   * A grant stamps the exit time and sends open then close; a denial sends
   * the buzzer byte and changes no row.
   */
  lemma StepDecision(s: Station, connected: bool, r: Reading)
    requires |s.buffer| < Vote.Threshold
    ensures var (s', d) := Step(s, connected, r);
      |s'.buffer| < Vote.Threshold && s'.present == s.present &&
      (d == Pending <==> |s.buffer| + 1 < Vote.Threshold) &&
      (d == Pending ==> s' == s.(buffer := s.buffer + [r.plate])) &&
      (d != Pending ==> s'.buffer == [] && Vote.IsStableMode(s.buffer + [r.plate], d.plate)) &&
      (d.Granted? <==> d != Pending && MayLeave(s, d.plate)) &&
      (d.Granted? ==> s'.rows == Visits.CloseOpen(s.rows, d.plate, r.timestamp) &&
                      s'.sent == s.sent + Gate.Emitted(connected, [Gate.OpenGate, Gate.CloseGate])) &&
      (d.Denied? ==> s'.rows == s.rows && s'.sent == s.sent + Gate.Emitted(connected, [Gate.Buzzer]))
  {
    if |s.buffer| + 1 >= Vote.Threshold {
      Vote.MostCommonIsStableMode(s.buffer + [r.plate]);
    }
  }

  /** A run leaves in the buffer exactly the readings since its last decision. */
  lemma {:induction false} RunLeftover(s: Station, connected: bool, rs: seq<Reading>)
    requires |s.buffer| < Vote.Threshold
    ensures |Run(s, connected, rs).buffer| == Vote.Leftover(|s.buffer|, |rs|)
  {
    if rs != [] {
      var n := |rs| - 1;
      RunLeftover(s, connected, rs[..n]);
      StepDecision(Run(s, connected, rs[..n]), connected, rs[n]);
    }
  }

  /**
   * Decisions come on every third reading, each starting a fresh count:
   * after any run the buffer holds the readings counted since the last
   * decision, never three or more.
   */
  lemma RunCadence(s: Station, connected: bool, rs: seq<Reading>)
    requires |s.buffer| < Vote.Threshold
    ensures |Run(s, connected, rs).buffer| == (|s.buffer| + |rs|) % Vote.Threshold
  {
    RunLeftover(s, connected, rs);
    Vote.LeftoverIsRemainder(|s.buffer|, |rs|);
  }

  /**
   * A granted plate cannot leave again: once its visits are closed with a
   * non-empty time, a later decision for it is denied, even after the entry
   * station has appended new (unpaid) visits.
   */
  lemma SecondAttemptDenied(s: Station, connected: bool, r: Reading, t: Station, r2: Reading,
                            added: seq<Visits.Row>)
    requires r.timestamp != "" && Step(s, connected, r).1.Granted?
    requires t.rows == Step(s, connected, r).0.rows + added
    requires forall k :: 0 <= k < |added| ==> added[k].paymentStatus == Visits.Unpaid
    requires Step(t, connected, r2).1 != Pending
    ensures Step(t, connected, r2).1.plate == Step(s, connected, r).1.plate ==> Step(t, connected, r2).1.Denied?
  {
    var p := Step(s, connected, r).1.plate;
    Visits.CloseOpenClosesPlate(s.rows, p, r.timestamp);
  }

  /**
   * The exit station never adds, removes or reorders rows, never changes a
   * field other than the exit time, and never overwrites an exit time
   * already written.
   */
  ghost predicate KeepsHistory(rows: seq<Visits.Row>, rows': seq<Visits.Row>) {
    |rows'| == |rows| &&
    forall i :: 0 <= i < |rows| ==>
      rows'[i].plate == rows[i].plate && rows'[i].entryTime == rows[i].entryTime &&
      rows'[i].paymentStatus == rows[i].paymentStatus && rows'[i].paymentTime == rows[i].paymentTime &&
      rows'[i].amountPaid == rows[i].amountPaid &&
      (rows[i].exitTime != "" ==> rows'[i].exitTime == rows[i].exitTime)
  }

  lemma KeepsHistoryTransitive(a: seq<Visits.Row>, b: seq<Visits.Row>, c: seq<Visits.Row>)
    requires KeepsHistory(a, b) && KeepsHistory(b, c)
    ensures KeepsHistory(a, c)
  {
  }

  /** One reading keeps the history of the ledger. */
  lemma StepKeepsHistory(s: Station, connected: bool, r: Reading)
    ensures KeepsHistory(s.rows, Step(s, connected, r).0.rows)
    ensures Step(s, connected, r).0.present == s.present
  {
    var (s', d) := Step(s, connected, r);
    if d.Granted? {
      Visits.CloseOpenAt(s.rows, d.plate, r.timestamp);
      forall i | 0 <= i < |s.rows|
        ensures s'.rows[i].plate == s.rows[i].plate && s'.rows[i].entryTime == s.rows[i].entryTime &&
          s'.rows[i].paymentStatus == s.rows[i].paymentStatus && s'.rows[i].paymentTime == s.rows[i].paymentTime &&
          s'.rows[i].amountPaid == s.rows[i].amountPaid &&
          (s.rows[i].exitTime != "" ==> s'.rows[i].exitTime == s.rows[i].exitTime)
      {
        Visits.CloseOpenFrame(s.rows, d.plate, r.timestamp, i);
      }
    }
  }

  /** Any run of the exit station keeps the history of the ledger. */
  lemma {:induction false} RunKeepsHistory(s: Station, connected: bool, rs: seq<Reading>)
    ensures KeepsHistory(s.rows, Run(s, connected, rs).rows)
    ensures Run(s, connected, rs).present == s.present
  {
    if rs != [] {
      var n := |rs| - 1;
      RunKeepsHistory(s, connected, rs[..n]);
      var mid := Run(s, connected, rs[..n]);
      StepKeepsHistory(mid, connected, rs[n]);
      KeepsHistoryTransitive(s.rows, mid.rows, Run(s, connected, rs).rows);
    }
  }

  /** Three readings of `plate`. */
  function Burst(plate: string, timestamp: string): seq<Reading> {
    [Reading(plate, timestamp), Reading(plate, timestamp), Reading(plate, timestamp)]
  }

  /** Two readings from an empty buffer only fill it. */
  lemma TwoReadingsPending(s: Station, connected: bool, r1: Reading, r2: Reading)
    requires s.buffer == []
    ensures Run(s, connected, [r1, r2]) == s.(buffer := [r1.plate, r2.plate])
  {
    assert [r1, r2][..1] == [r1] && [r1][..0] == [];
    assert Run(s, connected, [r1]) == s.(buffer := [r1.plate]);
  }

  /** Three identical readings from an empty buffer grant or deny that plate, as `verify_payment` says. */
  lemma BurstDecides(s: Station, connected: bool, plate: string, timestamp: string)
    requires s.buffer == []
    ensures Run(s, connected, Burst(plate, timestamp)) ==
      if MayLeave(s, plate) then
        Station([], s.present, Visits.CloseOpen(s.rows, plate, timestamp),
                s.sent + Gate.Emitted(connected, [Gate.OpenGate, Gate.CloseGate]))
      else Station([], s.present, s.rows, s.sent + Gate.Emitted(connected, [Gate.Buzzer]))
  {
    var rs := Burst(plate, timestamp);
    var r := rs[0];
    assert rs[..2] == [r, r];
    TwoReadingsPending(s, connected, r, r);
    Vote.MajorityWins([plate, plate, plate], plate);
    assert [plate, plate] + [plate] == [plate, plate, plate];
  }

  /** An unpaid visit is denied: the buzzer sounds and the ledger is left as it was. */
  lemma UnpaidVisitDenied(connected: bool, plate: string, entered: string, sent: seq<char>, t: string)
    ensures var s := Station([], true, [Visits.NewVisit(plate, entered)], sent);
      Run(s, connected, Burst(plate, t)) == s.(sent := sent + Gate.Emitted(connected, [Gate.Buzzer]))
  {
    var s := Station([], true, [Visits.NewVisit(plate, entered)], sent);
    assert !Visits.IsOpenPaidFor(s.rows[0], plate);
    BurstDecides(s, connected, plate, t);
  }

  /** Once that visit is paid, the plate is granted: its exit time is set and the gate opens and closes. */
  lemma PaidVisitGranted(connected: bool, plate: string, entered: string, paidAt: string, sent: seq<char>, t: string)
    ensures var paid := Visits.NewVisit(plate, entered).(paymentStatus := Visits.Paid, paymentTime := paidAt);
      var s := Station([], true, [paid], sent);
      Run(s, connected, Burst(plate, t)) ==
        Station([], true, [paid.(exitTime := t)], sent + Gate.Emitted(connected, [Gate.OpenGate, Gate.CloseGate]))
  {
    var paid := Visits.NewVisit(plate, entered).(paymentStatus := Visits.Paid, paymentTime := paidAt);
    var s := Station([], true, [paid], sent);
    assert Visits.IsOpenPaidFor(s.rows[0], plate);
    BurstDecides(s, connected, plate, t);
    Visits.CloseOpenAt(s.rows, plate, t);
  }

  /** A third attempt, after the exit time was set, is denied again. */
  lemma ClosedVisitDenied(connected: bool, closed: Visits.Row, sent: seq<char>, t: string)
    requires closed.exitTime != ""
    ensures var s := Station([], true, [closed], sent);
      Run(s, connected, Burst(closed.plate, t)) == s.(sent := sent + Gate.Emitted(connected, [Gate.Buzzer]))
  {
    var s := Station([], true, [closed], sent);
    assert !Visits.IsOpenPaidFor(s.rows[0], closed.plate);
    BurstDecides(s, connected, closed.plate, t);
  }

  /** The exit station: its buffer, the shared ledger and the gate. */
  class ExitStation {
    const ledger: Visits.Ledger
    const gate: Gate.Actuator
    var buffer: seq<string>

    /** Everything the station can observe or change. */
    ghost function Snapshot(): Station
      reads this, ledger, gate
    {
      Station(buffer, ledger.present, ledger.rows, gate.sent)
    }

    ghost predicate Valid()
      reads this, ledger
    {
      |buffer| < Vote.Threshold && ledger.Valid()
    }

    /** Start-up (car_exit.py:48): an empty buffer; the exit script does not create the ledger file. */
    constructor (ledger: Visits.Ledger, gate: Gate.Actuator)
      requires ledger.Valid()
      ensures this.ledger == ledger && this.gate == gate
      ensures Valid() && buffer == []
    {
      this.ledger := ledger;
      this.gate := gate;
      buffer := [];
    }

    /** Handle one validated reading (car_exit.py:67, 74-88). */
    method Observe(plate: string, timestamp: string)
      requires Valid()
      modifies this, ledger, gate
      ensures Valid()
      ensures Snapshot() == Step(old(Snapshot()), gate.connected, Reading(plate, timestamp)).0
    {
      ghost var before := Snapshot();
      ghost var step := Step(before, gate.connected, Reading(plate, timestamp));
      buffer := buffer + [plate];
      if |buffer| >= Vote.Threshold {
        var mostCommon := Vote.MostCommon(buffer);
        buffer := [];
        var paid := ledger.VerifyPayment(mostCommon);
        if paid {
          assert step.1 == Granted(mostCommon);
          ledger.LogExit(mostCommon, timestamp);
          gate.Write(Gate.OpenGate);
          gate.Write(Gate.CloseGate);
        } else {
          assert step.1 == Denied(mostCommon);
          gate.Write(Gate.Buzzer);
        }
      } else {
        assert step.1 == Pending;
      }
    }

    /**
     * One camera frame (car_exit.py:61-67): when the sensor reports a
     * vehicle, each plate found in the frame is handled in turn.
     */
    method ProcessFrame(distance: int, readings: seq<Reading>)
      requires Valid()
      modifies this, ledger, gate
      ensures Valid()
      ensures Snapshot() == if Sensor.VehiclePresent(distance) then Run(old(Snapshot()), gate.connected, readings) else old(Snapshot())
    {
      if Sensor.VehiclePresent(distance) {
        ghost var start := Snapshot();
        for i := 0 to |readings|
          invariant Valid()
          invariant Snapshot() == Run(start, gate.connected, readings[..i])
        {
          assert readings[..i + 1][..i] == readings[..i];
          Observe(readings[i].plate, readings[i].timestamp);
        }
        assert readings[..|readings|] == readings;
      }
    }
  }
}
