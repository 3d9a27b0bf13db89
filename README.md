# Parking gate: plate validation, entry and exit stations

This project models the decision logic of a two-station car-park system. A
camera reads number plates at the entry and at the exit. Text from the
plate reader is accepted only when it has the regional plate format. Each
station buffers three accepted readings and takes their majority plate:

- the **entry station** records a visit in a shared CSV ledger
  (`plates_log.csv`) and opens and closes the gate, unless the voted plate
  repeats the last entered plate within 300 s (a repeat at exactly 300 s is
  skipped);
- the **exit station** lets a plate leave only when the ledger holds a paid
  visit of it with no exit time yet. It then stamps the exit time and opens
  the gate; otherwise it sounds the buzzer.

Modules:

| module | file | models |
|---|---|---|
| `Plates` | plates.dfy | `validate_plate` and the `str.find` it uses |
| `Vote` | vote.dfy | `Counter(buffer).most_common(1)[0][0]` and the buffer's three-reading cadence |
| `Visits` | visits.dfy | the ledger rows, `log_entry`, `verify_payment`, `log_exit` |
| `Gate` | gate.dfy | the serial line to the gate controller as a trace of bytes written |
| `Sensor` | sensor.dfy | the "vehicle present" test on the distance reading |
| `Entry` | entry.dfy | the entry station's buffer, vote, cooldown and effects |
| `Exit` | exit.dfy | the exit station's buffer, vote, payment check and effects |
| `Wrappers` | wrappers.dfy | `Option` (Python's `None`) |

Each station is a class: `EntryStation` and `ExitStation`. Its fields are the
script's globals. The ledger (`Visits.Ledger`) and the gate line
(`Gate.Actuator`) are objects that the station updates in place.
`Observe(plate, …)` handles one reading and `ProcessFrame(distance,
readings)` handles one camera frame. Each method is proved against a pure
step function over a `Station` value (`Entry.Apply`, `Exit.Step`): the new
`Snapshot()` of memory, ledger rows and bytes sent is that function of the
old one. `ProcessFrame` is proved against `Run`, which applies a sequence of
readings. The lemmas about the stations are stated over `Step`, `Apply` and
`Run`.

Inputs the scripts read from the world become parameters:

- the sensor distance;
- the plates found in a frame, as already validated strings;
- the clock, as `now` in whole seconds;
- the formatted date written to the ledger, as `timestamp`;
- whether a serial device was found, as `Actuator.connected`.

## Model

| member | source | states |
|---|---|---|
| Plates.Find | plate_utils.py:48-50 | `text.find("RA")` is -1 exactly when the marker occurs nowhere; otherwise it is the leftmost occurrence |
| Plates.SplitIsShape | plate_utils.py:54-56 | the prefix/digits/suffix test on a 7-character window holds iff positions 0-2 and 6 are capitals and 3-5 are digits |
| Plates.ValidateExaminesFirstMarker | plate_utils.py:48-58 | with `i` the first marker, the result is `text[i..i+7]` when 7 characters remain there and have the plate shape, and `None` otherwise |
| Plates.ValidateRejectsWithoutMarker | plate_utils.py:48-49 | text without `"RA"` is rejected |
| Plates.AcceptedPlate | plate_utils.py:50-57 | an accepted plate has the plate shape, starts with `"RA"`, and equals the 7-character window at the first marker, with no normalisation |
| Plates.ValidateIdempotent | plate_utils.py:48-57 | validating an accepted plate returns that same plate |
| Plates.LaterWindowIgnored | plate_utils.py:50-51 | `"RA1RAB123C"` is rejected although a well-formed window starts at its second marker |
| Plates.AcceptsValidPlate | plate_utils.py:46-57 | `"RAB123C"` and `"XXRAB123CYY"` both yield `"RAB123C"` |
| Plates.RejectsShortWindow | plate_utils.py:51-53 | `"RAB12"` is rejected: fewer than 7 characters from the marker |
| Plates.RejectsDigitInPrefix | plate_utils.py:54-58 | `"RA1123C"` is rejected |
| Plates.RejectsLowerCaseSuffix | plate_utils.py:54-58 | `"RAB123c"` is rejected |
| Plates.RejectsLetterInDigits | plate_utils.py:54-58 | `"XXRAB12CYY"` is rejected: its window `"RAB12CY"` has a letter among the digits |
| Vote.FirstIndex | car_entry.py:82 | the position of the first reading of a plate, and no earlier reading of it |
| Vote.KeysInReadingOrder | car_entry.py:82 | the counter's keys are exactly the distinct readings, ordered by first reading |
| Vote.BestIndexIsFirstMaximum | car_entry.py:82 | `max` by count returns a key no other key outnumbers, and every key before it is strictly rarer |
| Vote.MostCommon | car_entry.py:82 | the vote returns one of the readings |
| Vote.MostCommonIsStableMode | car_entry.py:82 | the vote is a most frequent reading, and of equally frequent readings it is the first read |
| Vote.StableModeUnique | car_entry.py:82 | that characterisation fixes the vote: two readings satisfying it are equal |
| Vote.MajorityWins | car_entry.py:80-82 | of three readings, one read at least twice wins |
| Vote.FirstReadingBreaksTie | car_entry.py:82 | three different readings: the first one wins |
| Vote.LeftoverIsRemainder | car_entry.py:74-99 | counting readings with a reset at every third gives the remainder of their number by 3 |
| Gate.Actuator.Write | car_entry.py:45-49 | one command byte is appended to the line when a device is connected; nothing is sent otherwise |
| Visits.CloseOpenAt | car_exit.py:32-44 | `log_exit` keeps the number and order of rows and rewrites each row on its own |
| Visits.CloseOpenFrame | car_exit.py:36-39 | only the exit time of the plate's rows with an empty exit time is set, paid or not; every other field and row is unchanged and a set exit time is never overwritten |
| Visits.CloseOpenClosesPlate | car_exit.py:37-38 | after `log_exit(p)` with a non-empty time, no row of `p` is open, so `verify_payment(p)` fails |
| Visits.CloseOpenOtherPlates | car_exit.py:36-39 | closing one plate's visits does not change whether another plate may leave |
| Visits.CloseOpenIdempotent | car_exit.py:37-38 | a second `log_exit` of the same plate changes nothing |
| Visits.EntryAddsNoPaidVisit | car_entry.py:41-43 | a new entry row is unpaid, so it never lets any plate leave |
| Visits.EntryAndExitCommute | car_exit.py:32-44 | an entry of one plate and an exit of another give the same rows in either order |
| Visits.Ledger.Absent | car_exit.py:17-18 | a ledger whose file does not exist has no rows |
| Visits.Ledger.Existing | car_exit.py:20-21 | a ledger file holding the given rows |
| Visits.Ledger.CreateIfMissing | car_entry.py:15-19 | the file exists afterwards; existing rows are kept, and a new file has none |
| Visits.Ledger.LogEntry | car_entry.py:38-43 | exactly one row `[plate, ts, '', 0, '', '']` is appended after all existing rows |
| Visits.Ledger.VerifyPayment | car_exit.py:15-27 | true iff the file exists and some row has the plate, status `'1'` and an empty exit time |
| Visits.Ledger.LogExit | car_exit.py:29-44 | the rows become the plate's open visits closed with `ts`, everything else as it was |
| Entry.StepDecision | car_entry.py:74-99 | no decision before the third reading; a decision is the vote and empties the buffer; it is an entry iff the plate differs from the last entry or more than 300 s have passed; only an entry updates the last plate and time |
| Entry.RunLeftover | car_entry.py:71-99 | over a run, the buffer length follows the reset-every-third count |
| Entry.RunCadence | car_entry.py:71-99 | after any run the buffer holds (readings so far) mod 3, never three or more |
| Entry.RepeatEntryOutsideCooldown | car_entry.py:86-87 | two entries of the same plate in a row are more than 300 s apart |
| Entry.RunAppendsVisits | car_entry.py:86-95 | the entry station only appends rows, each one open and unpaid, and sends two bytes per appended row when connected |
| Entry.TwoReadingsPending | car_entry.py:74-81 | two readings into an empty buffer only fill it |
| Entry.BurstDecides | car_entry.py:74-99 | three readings of a plate enter it, with its row and `'1'`,`'0'`, iff the cooldown test admits it; otherwise nothing changes |
| Entry.FirstDecisionEnters | car_entry.py:86-87 | while `last_plate` is still `None`, the first decision is an entry of the vote |
| Entry.CooldownTimeline | car_entry.py:86-87 | entered at 0 s, the same plate is skipped at 100 s and at exactly 300 s, and entered again at 400 s |
| Entry.SecondOpenVisit | car_entry.py:86-89 | a plate still inside after the cooldown gets a second open visit; entry never checks the ledger |
| Entry.EntryStation.constructor | car_entry.py:53-55 | start-up: empty buffer, no last plate, last entry time 0, ledger file created if missing |
| Entry.EntryStation.Observe | car_entry.py:74-99 | one reading changes memory, ledger and gate line exactly as the step function says, and keeps the buffer under three |
| Entry.EntryStation.ProcessFrame | car_entry.py:68-99 | a frame with a vehicle present runs every reading in order; otherwise nothing changes |
| Exit.StepDecision | car_exit.py:67-88 | no decision before the third reading; a decision empties the buffer (that it is cleared before the ledger is read is the statement order of `ExitStation.Observe`, not part of this contract); a grant happens iff `verify_payment` holds for the vote; a grant closes the plate's visits and sends `'1'`,`'0'`; a denial sends `'2'` and changes no row |
| Exit.RunLeftover | car_exit.py:64-88 | over a run, the buffer length follows the reset-every-third count |
| Exit.RunCadence | car_exit.py:64-88 | after any run the buffer holds (readings so far) mod 3, so every decision starts a fresh count |
| Exit.SecondAttemptDenied | car_exit.py:78-80 | after a grant, the next decision for the same plate is a denial, even after new unpaid entries |
| Exit.StepKeepsHistory | car_exit.py:74-88 | one reading never adds, removes or reorders rows, changes no field but the exit time, and never overwrites a set exit time |
| Exit.RunKeepsHistory | car_exit.py:61-88 | the same holds for any run of the exit station |
| Exit.TwoReadingsPending | car_exit.py:67-74 | two readings into an empty buffer only fill it |
| Exit.BurstDecides | car_exit.py:67-88 | three readings of a plate grant it iff `verify_payment` holds, closing its visits and sending `'1'`,`'0'`; otherwise only `'2'` is sent |
| Exit.UnpaidVisitDenied | car_exit.py:84-88 | a plate whose visit is unpaid is denied; the buzzer sounds and the ledger is unchanged |
| Exit.PaidVisitGranted | car_exit.py:78-83 | once that visit is paid the plate is granted, its exit time is set, and the gate opens and closes |
| Exit.ClosedVisitDenied | car_exit.py:23-25 | a visit with an exit time no longer lets its plate leave |
| Exit.ExitStation.constructor | car_exit.py:48 | start-up: empty buffer; the exit script does not create the ledger file |
| Exit.ExitStation.Observe | car_exit.py:67-88 | one reading changes buffer, ledger and gate line exactly as the step function says |
| Exit.ExitStation.ProcessFrame | car_exit.py:61-88 | a frame with a vehicle present runs every reading in order; otherwise nothing changes |

## Left out

- Camera capture, `cv2.imshow`, `waitKey` and the `q` key, and the end of the loop on a failed capture: this is I/O and user interface. The model handles one frame at a time.
- `detect_plate` and `process_plate_image`, with the YOLO detector, Tesseract OCR and OpenCV preprocessing: these are foreign libraries. The stations take the plates found in a frame as already validated strings.
- `connect_arduino` (the port scan) and the serial library: the scan's outcome is the `connected` flag of `Gate.Actuator`, and the bytes written are its `sent` trace.
- The random mock distance sensor: the distance is a parameter.
- `time.time()` floats: the clock is whole seconds, passed as `now`. At the entry, `now` is the value taken when the third reading is decided.
- `time.sleep(15)` between opening and closing the gate: the pause changes no state.
- `datetime.now().strftime(...)`: the timestamp is a parameter. `Visits.CloseOpenClosesPlate` and `Exit.SecondAttemptDenied` need it to be non-empty, as the formatted date always is.
- CSV parsing, quoting and the header row: the ledger is its list of data rows, each field a string. The `0` that `log_entry` writes reads back as the string `"0"`.
- Processes racing on the ledger file: this is concurrency. Only sequential interleavings are modelled (`Visits.EntryAndExitCommute`).
- Console `print` output.
- `str.isalpha`, `str.isupper` and `str.isdigit` are narrowed to ASCII `'A'..'Z'` and `'0'..'9'`. Non-ASCII capitals or digits that Python accepts are rejected by `Plates.ValidatePlate`.
- Visits.Ledger.LogEntry: requires the ledger file to exist. car_entry.py:15-19 creates it with its header at start-up; appending to a missing file would leave a file without a header, which the station never does.
- Visits.Ledger.LogExit: requires the ledger file to exist. The source would raise on a missing file, but its only caller runs it just after `verify_payment` found a paid row.
- The missing imports and definitions in car_exit.py: `os`, `random`, `connect_arduino` and `control_gate` are used there without being imported or defined. The exit station's gate writes are modelled like `control_gate` at car_entry.py:45-49.
- Double entry is modelled as written, not resolved. A plate that stays past the cooldown gets a second open visit (`Entry.SecondOpenVisit`).
- Denials are not deduplicated. A lingering unpaid vehicle sounds the buzzer at every decision, as `Exit.BurstDecides` shows.
