/**
 * The entry station (car_entry.py): readings from frames where a vehicle is
 * present go into a buffer; every third reading is put to the vote, and the
 * voted plate is entered unless it repeats the last entry within the
 * cooldown.
 */
module Entry {
  import opened Wrappers
  import Vote
  import Visits
  import Gate
  import Sensor

  /** Seconds during which a repeat of the last entered plate is ignored. */
  const EntryCooldown: int := 300
  /** What one reading leads to. */
  datatype Decision = Pending | Commit(plate: string) | Skip(plate: string)

  /**
   * One validated reading, with `now` the value of `time.time()` in whole
   * seconds and `timestamp` the formatted date `log_entry` would write if the
   * reading leads to an entry.
   */
  datatype Reading = Reading(plate: string, now: int, timestamp: string)

  /** The station's own memory: `plate_buffer`, `last_plate`, `last_entry_time`. */
  datatype Controller = Controller(buffer: seq<string>, lastPlate: Option<string>, lastEntryTime: int)

  /** The memory when the script starts (car_entry.py:53-55). */
  const Start: Controller := Controller([], None, 0)

  /** The test at car_entry.py:86-87: a different plate, or the cooldown strictly exceeded. */
  predicate Admits(c: Controller, plate: string, now: int) {
    c.lastPlate != Some(plate) || now - c.lastEntryTime > EntryCooldown
  }

  /** One reading (car_entry.py:74, 81-99). */
  function Step(c: Controller, plate: string, now: int): (Controller, Decision) {
    var buffer := c.buffer + [plate];
    if |buffer| >= Vote.Threshold then
      var decided := Vote.MostCommon(buffer);
      if Admits(c, decided, now) then (Controller([], Some(decided), now), Commit(decided))
      else (c.(buffer := []), Skip(decided))
    else (c.(buffer := buffer), Pending)
  }

  /** The station's memory together with the ledger rows and the bytes sent to the gate. */
  datatype Station = Station(memory: Controller, rows: seq<Visits.Row>, sent: seq<char>)

  /**
   * One reading and its effects: an entry appends one open, unpaid visit to
   * the ledger and sends open then close to the gate.
   */
  function Apply(s: Station, connected: bool, r: Reading): Station {
    var (memory, d) := Step(s.memory, r.plate, r.now);
    if d.Commit? then
      Station(memory, s.rows + [Visits.NewVisit(d.plate, r.timestamp)],
              s.sent + Gate.Emitted(connected, [Gate.OpenGate, Gate.CloseGate]))
    else Station(memory, s.rows, s.sent)
  }

  /** A sequence of readings, applied in order. */
  function Run(s: Station, connected: bool, rs: seq<Reading>): Station {
    if rs == [] then s else Apply(Run(s, connected, rs[..|rs| - 1]), connected, rs[|rs| - 1])
  }

  /**
   * One reading: no decision until the buffer holds three readings; a
   * decision is the stable mode of those readings and empties the buffer;
   * it is an entry exactly when the cooldown test admits it, and only an
   * entry updates the last plate and time.
   */
  lemma StepDecision(c: Controller, plate: string, now: int)
    requires |c.buffer| < Vote.Threshold
    ensures var (c', d) := Step(c, plate, now);
      |c'.buffer| < Vote.Threshold &&
      (d == Pending <==> |c.buffer| + 1 < Vote.Threshold) &&
      (d == Pending ==> c' == c.(buffer := c.buffer + [plate])) &&
      (d != Pending ==> c'.buffer == [] && Vote.IsStableMode(c.buffer + [plate], d.plate)) &&
      (d.Commit? <==> d != Pending && Admits(c, d.plate, now)) &&
      (d.Commit? ==> c'.lastPlate == Some(d.plate) && c'.lastEntryTime == now) &&
      (!d.Commit? ==> c'.lastPlate == c.lastPlate && c'.lastEntryTime == c.lastEntryTime)
  {
    if |c.buffer| + 1 >= Vote.Threshold {
      Vote.MostCommonIsStableMode(c.buffer + [plate]);
    }
  }

  /** A run leaves in the buffer exactly the readings since its last decision. */
  lemma {:induction false} RunLeftover(s: Station, connected: bool, rs: seq<Reading>)
    requires |s.memory.buffer| < Vote.Threshold
    ensures |Run(s, connected, rs).memory.buffer| == Vote.Leftover(|s.memory.buffer|, |rs|)
  {
    if rs != [] {
      var n := |rs| - 1;
      RunLeftover(s, connected, rs[..n]);
      StepDecision(Run(s, connected, rs[..n]).memory, rs[n].plate, rs[n].now);
    }
  }

  /**
   * Decisions come on every third reading: after any run the buffer holds
   * the readings counted since the last decision, never three or more.
   */
  lemma RunCadence(s: Station, connected: bool, rs: seq<Reading>)
    requires |s.memory.buffer| < Vote.Threshold
    ensures |Run(s, connected, rs).memory.buffer| == (|s.memory.buffer| + |rs|) % Vote.Threshold
  {
    RunLeftover(s, connected, rs);
    Vote.LeftoverIsRemainder(|s.memory.buffer|, |rs|);
  }

  /** Two entries of the same plate in a row are more than the cooldown apart. */
  lemma RepeatEntryOutsideCooldown(c: Controller, plate: string, now: int)
    requires Step(c, plate, now).1.Commit? && c.lastPlate == Some(Step(c, plate, now).1.plate)
    ensures now - c.lastEntryTime > EntryCooldown
  {
  }

  /**
   * The ledger is append-only under the entry station: a run keeps every
   * earlier row, every appended row is an open, unpaid visit, and when the
   * gate is connected it receives exactly two bytes per appended row.
   */
  lemma {:induction false} RunAppendsVisits(s: Station, connected: bool, rs: seq<Reading>)
    ensures var s' := Run(s, connected, rs);
      |s.rows| <= |s'.rows| && s'.rows[..|s.rows|] == s.rows &&
      (forall k :: |s.rows| <= k < |s'.rows| ==>
        s'.rows[k].exitTime == "" && s'.rows[k].paymentStatus == Visits.Unpaid) &&
      |s'.sent| == |s.sent| + (if connected then 2 * (|s'.rows| - |s.rows|) else 0)
  {
    if rs != [] {
      var n := |rs| - 1;
      RunAppendsVisits(s, connected, rs[..n]);
      var mid := Run(s, connected, rs[..n]);
      var s' := Apply(mid, connected, rs[n]);
      assert s'.rows[..|mid.rows|] == mid.rows;
      assert s'.rows[..|s.rows|] == mid.rows[..|s.rows|];
    }
  }

  /** Three readings of `plate` at time `t`. */
  function Burst(plate: string, t: int, timestamp: string): seq<Reading> {
    [Reading(plate, t, timestamp), Reading(plate, t, timestamp), Reading(plate, t, timestamp)]
  }

  /** Two readings from an empty buffer only fill it. */
  lemma TwoReadingsPending(s: Station, connected: bool, r1: Reading, r2: Reading)
    requires s.memory.buffer == []
    ensures Run(s, connected, [r1, r2]) == s.(memory := s.memory.(buffer := [r1.plate, r2.plate]))
  {
    assert [r1, r2][..1] == [r1] && [r1][..0] == [];
    assert Run(s, connected, [r1]) == s.(memory := s.memory.(buffer := [r1.plate]));
  }

  /** Three identical readings from an empty buffer decide on that plate, entering it iff the cooldown test admits it. */
  lemma BurstDecides(s: Station, connected: bool, plate: string, t: int, timestamp: string)
    requires s.memory.buffer == []
    ensures Run(s, connected, Burst(plate, t, timestamp)) ==
      if Admits(s.memory, plate, t) then
        Station(Controller([], Some(plate), t), s.rows + [Visits.NewVisit(plate, timestamp)],
                s.sent + Gate.Emitted(connected, [Gate.OpenGate, Gate.CloseGate]))
      else s
  {
    var rs := Burst(plate, t, timestamp);
    var r := rs[0];
    assert rs[..2] == [r, r];
    TwoReadingsPending(s, connected, r, r);
    Vote.MajorityWins([plate, plate, plate], plate);
    assert [plate, plate] + [plate] == [plate, plate, plate];
  }

  /**
   * Until the first entry `last_plate` is `None`, so the first decision,
   * taken on the third reading, is always an entry of the voted plate.
   */
  lemma FirstDecisionEnters(c: Controller, plate: string, now: int)
    requires c.lastPlate == None && |c.buffer| == Vote.Threshold - 1
    ensures Step(c, plate, now).1 == Commit(Vote.MostCommon(c.buffer + [plate]))
  {
  }

  /**
   * The cooldown at work: after entering at time 0, the same plate is
   * skipped at 100 s and at exactly 300 s, and entered again at 400 s.
   */
  lemma CooldownTimeline(connected: bool, plate: string, timestamp: string)
    ensures var start := Station(Start, [], []);
      var s1 := Run(start, connected, Burst(plate, 0, timestamp));
      var s2 := Run(s1, connected, Burst(plate, 100, timestamp));
      var s3 := Run(s2, connected, Burst(plate, 300, timestamp));
      var s4 := Run(s3, connected, Burst(plate, 400, timestamp));
      |s1.rows| == 1 && s2 == s1 && s3 == s1 && |s4.rows| == 2
  {
    var start := Station(Start, [], []);
    BurstDecides(start, connected, plate, 0, timestamp);
    var s1 := Run(start, connected, Burst(plate, 0, timestamp));
    BurstDecides(s1, connected, plate, 100, timestamp);
    BurstDecides(s1, connected, plate, 300, timestamp);
    BurstDecides(s1, connected, plate, 400, timestamp);
  }

  /**
   * The station never consults the ledger before an entry: a plate that
   * stays past the cooldown is entered a second time while its first visit
   * is still open.
   */
  lemma SecondOpenVisit(connected: bool, plate: string, ts1: string, ts2: string)
    ensures var start := Station(Start, [], []);
      var s1 := Run(start, connected, Burst(plate, 0, ts1));
      Run(s1, connected, Burst(plate, 301, ts2)).rows == [Visits.NewVisit(plate, ts1), Visits.NewVisit(plate, ts2)]
  {
    var start := Station(Start, [], []);
    BurstDecides(start, connected, plate, 0, ts1);
    BurstDecides(Run(start, connected, Burst(plate, 0, ts1)), connected, plate, 301, ts2);
  }

  /** The entry station: its memory, the shared ledger and the gate. */
  class EntryStation {
    const ledger: Visits.Ledger
    const gate: Gate.Actuator
    var buffer: seq<string>
    var lastPlate: Option<string>
    var lastEntryTime: int

    function Memory(): Controller
      reads this
    {
      Controller(buffer, lastPlate, lastEntryTime)
    }

    /** Everything the station can observe or change. */
    ghost function Snapshot(): Station
      reads this, ledger, gate
    {
      Station(Memory(), ledger.rows, gate.sent)
    }

    ghost predicate Valid()
      reads this, ledger
    {
      |buffer| < Vote.Threshold && ledger.Valid() && ledger.present
    }

    /** Start-up: create the ledger file if it is missing, then start with an empty memory. */
    constructor (ledger: Visits.Ledger, gate: Gate.Actuator)
      requires ledger.Valid()
      modifies ledger
      ensures this.ledger == ledger && this.gate == gate
      ensures Valid() && Memory() == Start
      ensures ledger.rows == old(ledger.rows) && gate.sent == old(gate.sent)
    {
      this.ledger := ledger;
      this.gate := gate;
      buffer := [];
      lastPlate := None;
      lastEntryTime := 0;
      new;
      ledger.CreateIfMissing();
    }

    /** Handle one validated reading (car_entry.py:74, 81-99). */
    method Observe(plate: string, now: int, timestamp: string)
      requires Valid()
      modifies this, ledger, gate
      ensures Valid()
      ensures Snapshot() == Apply(old(Snapshot()), gate.connected, Reading(plate, now, timestamp))
    {
      ghost var before := Snapshot();
      ghost var step := Step(before.memory, plate, now);
      buffer := buffer + [plate];
      if |buffer| >= Vote.Threshold {
        var mostCommon := Vote.MostCommon(buffer);
        if lastPlate != Some(mostCommon) || now - lastEntryTime > EntryCooldown {
          assert step == (Controller([], Some(mostCommon), now), Commit(mostCommon));
          ledger.LogEntry(mostCommon, timestamp);
          gate.Write(Gate.OpenGate);
          gate.Write(Gate.CloseGate);
          lastPlate := Some(mostCommon);
          lastEntryTime := now;
        } else {
          assert step == (before.memory.(buffer := []), Skip(mostCommon));
        }
        buffer := [];
      } else {
        assert step == (Memory(), Pending);
      }
    }

    /**
     * One camera frame (car_entry.py:68-74): when the sensor reports a
     * vehicle, each plate found in the frame is handled in turn.
     */
    method ProcessFrame(distance: int, readings: seq<Reading>)
      requires Valid()
      modifies this, ledger, gate
      ensures Valid()
      ensures Snapshot() == if Sensor.VehiclePresent(distance) then Run(old(Snapshot()), gate.connected, readings) else old(Snapshot())
    {
      if Sensor.VehiclePresent(distance) {
        ghost var start := Snapshot();
        for i := 0 to |readings|
          invariant Valid()
          invariant Snapshot() == Run(start, gate.connected, readings[..i])
        {
          assert readings[..i + 1][..i] == readings[..i];
          Observe(readings[i].plate, readings[i].now, readings[i].timestamp);
        }
        assert readings[..|readings|] == readings;
      }
    }
  }
}
