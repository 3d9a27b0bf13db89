/**
 * Plate validation (plate_utils.py, `validate_plate`): a total function from
 * raw OCR text to a plate string or nothing.
 *
 * Python's `str.isalpha`, `str.isupper` and `str.isdigit` are narrowed here to
 * the ASCII ranges 'A'..'Z' and '0'..'9'.
 */
module Plates {
  import opened Wrappers

  /** The regional marker the plate must contain. */
  const Marker: string := "RA"
  /** Number of characters taken from the first marker onward. */
  const PlateLength: nat := 7

  /** `pat` occurs in `text` starting at index `i`. */
  ghost predicate OccursAt(text: string, pat: string, i: int) {
    0 <= i && i + |pat| <= |text| && text[i..i + |pat|] == pat
  }

  /** `i` is the leftmost occurrence of `pat` in `text`. */
  ghost predicate IsFirstOccurrence(text: string, pat: string, i: int) {
    OccursAt(text, pat, i) && forall j :: 0 <= j < i ==> !OccursAt(text, pat, j)
  }

  /** Python's `text.find(pat, from)`: the leftmost index at or after `from`, or -1. */
  function FindFrom(text: string, pat: string, from: nat): (r: int)
    requires from <= |text|
    ensures r == -1 || (from <= r && OccursAt(text, pat, r))
    ensures forall j :: from <= j && (r == -1 || j < r) ==> !OccursAt(text, pat, j)
    decreases |text| - from
  {
    if from + |pat| > |text| then -1
    else if text[from..from + |pat|] == pat then from
    else FindFrom(text, pat, from + 1)
  }

  /** Python's `text.find(pat)`. */
  function Find(text: string, pat: string): (r: int)
    ensures r == -1 <==> forall j :: !OccursAt(text, pat, j)
    ensures r != -1 ==> IsFirstOccurrence(text, pat, r)
  {
    FindFrom(text, pat, 0)
  }

  predicate IsUpper(c: char) { 'A' <= c <= 'Z' }

  predicate IsDigit(c: char) { '0' <= c <= '9' }

  /** `s.isalpha() and s.isupper()` on ASCII: non-empty, all capital letters. */
  predicate AllUpper(s: string) {
    |s| > 0 && forall i :: 0 <= i < |s| ==> IsUpper(s[i])
  }

  /** `s.isdigit()` on ASCII: non-empty, all decimal digits. */
  predicate AllDigits(s: string) {
    |s| > 0 && forall i :: 0 <= i < |s| ==> IsDigit(s[i])
  }

  /** The plate format, position by position: three capitals, three digits, one capital. */
  ghost predicate IsPlateShape(p: string) {
    |p| == PlateLength &&
    forall i :: 0 <= i < |p| ==> if 3 <= i < 6 then IsDigit(p[i]) else IsUpper(p[i])
  }

  function Min(a: int, b: int): int { if a < b then a else b }

  /** `validate_plate(text)`. */
  function ValidatePlate(text: string): (r: Option<string>)
  {
    if Find(text, Marker) == -1 then None
    else
      var start := Find(text, Marker);
      // Python slicing clips at the end of the string
      var plate := text[start..Min(start + PlateLength, |text|)];
      if |plate| != PlateLength then None
      else
        var prefix, digits, suffix := plate[..3], plate[3..6], plate[6];
        if AllUpper(prefix) && AllDigits(digits) && IsUpper(suffix) then Some(plate) else None
  }

  /** The three-way split checked by the source is the position-wise plate shape. */
  lemma SplitIsShape(p: string)
    requires |p| == PlateLength
    ensures (AllUpper(p[..3]) && AllDigits(p[3..6]) && IsUpper(p[6])) <==> IsPlateShape(p)
  {
  }

  /**
   * Only the window at the FIRST marker decides: the text is accepted iff at
   * least seven characters remain there and they have the plate shape, and
   * the accepted plate is that window, unchanged.
   */
  lemma ValidateExaminesFirstMarker(text: string, i: int)
    requires IsFirstOccurrence(text, Marker, i)
    ensures ValidatePlate(text) ==
      if i + PlateLength <= |text| && IsPlateShape(text[i..i + PlateLength])
      then Some(text[i..i + PlateLength]) else None
  {
  }

  /** Text without the marker is rejected. */
  lemma ValidateRejectsWithoutMarker(text: string)
    requires forall j :: !OccursAt(text, Marker, j)
    ensures ValidatePlate(text) == None
  {
  }

  /** Every accepted plate has the plate shape, starts with the marker and is a window of the input at its first marker. */
  lemma AcceptedPlate(text: string, p: string)
    requires ValidatePlate(text) == Some(p)
    ensures IsPlateShape(p) && p[..2] == Marker
    ensures exists i :: IsFirstOccurrence(text, Marker, i) && i + PlateLength <= |text| && p == text[i..i + PlateLength]
  {
  }

  /** Validating an accepted plate gives it back: validation is idempotent. */
  lemma ValidateIdempotent(text: string, p: string)
    requires ValidatePlate(text) == Some(p)
    ensures ValidatePlate(p) == Some(p)
  {
    AcceptedPlate(text, p);
    assert OccursAt(p, Marker, 0);
    ValidateExaminesFirstMarker(p, 0);
    assert p[0..PlateLength] == p;
  }

  /** A well-formed window after the first marker does not rescue a text whose first window fails. */
  lemma LaterWindowIgnored()
    ensures OccursAt("RA1RAB123C", Marker, 3) && IsPlateShape("RA1RAB123C"[3..10])
    ensures ValidatePlate("RA1RAB123C") == None
  {
  }

  /** The marker cannot start at a character other than its first. */
  lemma NoMarkerAt(text: string, i: nat)
    requires i < |text| && text[i] != Marker[0]
    ensures !OccursAt(text, Marker, i)
  {
  }

  /** A valid plate is accepted, alone or surrounded by other characters. */
  lemma AcceptsValidPlate()
    ensures ValidatePlate("RAB123C") == Some("RAB123C")
    ensures ValidatePlate("XXRAB123CYY") == Some("RAB123C")
  {
    assert OccursAt("RAB123C", Marker, 0);
    ValidateExaminesFirstMarker("RAB123C", 0);
    assert "RAB123C"[0..7] == "RAB123C";
    assert IsPlateShape("RAB123C");
    var t := "XXRAB123CYY";
    assert OccursAt(t, Marker, 2);
    NoMarkerAt(t, 0);
    NoMarkerAt(t, 1);
    ValidateExaminesFirstMarker(t, 2);
    assert t[2..9] == "RAB123C";
  }

  /** A window shorter than seven characters is rejected. */
  lemma RejectsShortWindow()
    ensures ValidatePlate("RAB12") == None
  {
  }

  /** A digit in the letter prefix is rejected. */
  lemma RejectsDigitInPrefix()
    ensures ValidatePlate("RA1123C") == None
  {
    var t := "RA1123C";
    assert OccursAt(t, Marker, 0);
    ValidateExaminesFirstMarker(t, 0);
    assert !IsUpper(t[0..7][2]);
  }

  /** A lower-case suffix is rejected. */
  lemma RejectsLowerCaseSuffix()
    ensures ValidatePlate("RAB123c") == None
  {
  }

  /** A letter where a digit belongs is rejected. */
  lemma RejectsLetterInDigits()
    ensures ValidatePlate("XXRAB12CYY") == None
  {
    var t := "XXRAB12CYY";
    assert OccursAt(t, Marker, 2);
    NoMarkerAt(t, 0);
    NoMarkerAt(t, 1);
    ValidateExaminesFirstMarker(t, 2);
    assert !IsDigit(t[2..9][5]);
  }
}
