/**
 * The three-reading majority vote both stations use:
 * `Counter(plate_buffer).most_common(1)[0][0]` (car_entry.py:82, car_exit.py:75).
 *
 * A `Counter` keeps its keys in first-insertion order, and `most_common(1)`
 * returns the first key, in that order, whose count is largest. So the vote
 * picks a most frequent reading and, among equally frequent ones, the one
 * read first.
 */
module Vote {
  /** Readings collected before a decision is taken. */
  const Threshold: nat := 3

  /** How often `x` was read. */
  function Count(s: seq<string>, x: string): nat {
    multiset(s)[x]
  }

  /** Index of the first reading of `x`. */
  function FirstIndex(s: seq<string>, x: string): (r: nat)
    requires x in s
    ensures r < |s| && s[r] == x
    ensures forall k :: 0 <= k < r ==> s[k] != x
  {
    if x in s[..|s| - 1] then FirstIndex(s[..|s| - 1], x) else |s| - 1
  }

  /**
   * `x` is a most frequent reading of `s`, and every reading as frequent
   * as `x` was first read no earlier than `x`.
   */
  ghost predicate IsStableMode(s: seq<string>, x: string) {
    x in s &&
    (forall y :: y in s ==> Count(s, y) <= Count(s, x)) &&
    (forall y :: y in s && Count(s, y) == Count(s, x) ==> FirstIndex(s, x) <= FirstIndex(s, y))
  }

  /** The keys of `Counter(s)`, in the order the counter keeps them. */
  function Keys(s: seq<string>): (d: seq<string>)
  {
    if s == [] then []
    else
      var d := Keys(s[..|s| - 1]);
      if s[|s| - 1] in d then d else d + [s[|s| - 1]]
  }

  /** The counter has one key per distinct reading, ordered by first reading. */
  lemma {:induction false} KeysInReadingOrder(s: seq<string>)
    ensures forall x :: x in Keys(s) <==> x in s
    ensures forall i, j :: 0 <= i < j < |Keys(s)| ==> FirstIndex(s, Keys(s)[i]) < FirstIndex(s, Keys(s)[j])
  {
    if s != [] {
      var init := s[..|s| - 1];
      KeysInReadingOrder(init);
      assert forall x :: x in init ==> FirstIndex(s, x) == FirstIndex(init, x);
    }
  }

  /** Index of the key `max` returns when keys are compared by count. */
  function BestIndex(s: seq<string>, keys: seq<string>): (b: nat)
    requires |keys| > 0
    ensures b < |keys|
  {
    if |keys| == 1 then 0
    else
      var b := BestIndex(s, keys[..|keys| - 1]);
      if Count(s, keys[|keys| - 1]) > Count(s, keys[b]) then |keys| - 1 else b
  }

  /**
   * `max` keeps the first key whose count no other key exceeds: every key
   * before it is strictly less frequent.
   */
  lemma {:induction false} BestIndexIsFirstMaximum(s: seq<string>, keys: seq<string>)
    requires |keys| > 0
    ensures forall k :: 0 <= k < |keys| ==> Count(s, keys[k]) <= Count(s, keys[BestIndex(s, keys)])
    ensures forall k :: 0 <= k < BestIndex(s, keys) ==> Count(s, keys[k]) < Count(s, keys[BestIndex(s, keys)])
  {
    if |keys| > 1 {
      var n := |keys| - 1;
      BestIndexIsFirstMaximum(s, keys[..n]);
      var b := BestIndex(s, keys[..n]);
      assert forall k :: 0 <= k < n ==> keys[..n][k] == keys[k];
      if Count(s, keys[n]) > Count(s, keys[b]) {
        assert BestIndex(s, keys) == n;
      } else {
        assert BestIndex(s, keys) == b;
      }
    }
  }

  /** `Counter(s).most_common(1)[0][0]`. */
  function MostCommon(s: seq<string>): (r: string)
    requires |s| > 0
    ensures r in s
  {
    var keys := Keys(s);
    KeysInReadingOrder(s);
    assert s[0] in keys;
    keys[BestIndex(s, keys)]
  }

  /** The vote returns the stable mode of the readings. */
  lemma MostCommonIsStableMode(s: seq<string>)
    requires |s| > 0
    ensures IsStableMode(s, MostCommon(s))
  {
    var keys := Keys(s);
    KeysInReadingOrder(s);
    var b := BestIndex(s, keys);
    BestIndexIsFirstMaximum(s, keys);
    var r := keys[b];
    assert r == MostCommon(s);
    forall y | y in s
      ensures Count(s, y) <= Count(s, r)
      ensures Count(s, y) == Count(s, r) ==> FirstIndex(s, r) <= FirstIndex(s, y)
    {
      assert y in keys;
      var k :| 0 <= k < |keys| && keys[k] == y;
      if k < b {
        assert Count(s, y) < Count(s, r);
      } else if k > b {
        assert FirstIndex(s, r) < FirstIndex(s, y);
      }
    }
  }

  /** The stable mode is unique, so the vote is determined by the readings alone. */
  lemma StableModeUnique(s: seq<string>, x: string, y: string)
    requires IsStableMode(s, x) && IsStableMode(s, y)
    ensures x == y
  {
  }

  /** Among three readings, one read at least twice wins the vote, wherever it stands. */
  lemma MajorityWins(s: seq<string>, a: string)
    requires |s| == Threshold && Count(s, a) >= 2
    ensures MostCommon(s) == a
  {
    MostCommonIsStableMode(s);
    assert multiset(s) == multiset{s[0], s[1], s[2]} by {
      assert s == [s[0], s[1], s[2]];
    }
  }

  /** Three different readings: the first one read wins. */
  lemma FirstReadingBreaksTie(a: string, b: string, c: string)
    requires a != b && b != c && a != c
    ensures MostCommon([a, b, c]) == a
  {
    var s := [a, b, c];
    var r := MostCommon(s);
    MostCommonIsStableMode(s);
    assert Count(s, a) == 1 && Count(s, b) == 1 && Count(s, c) == 1;
    assert FirstIndex(s, a) == 0;
    assert FirstIndex(s, r) <= FirstIndex(s, a);
  }

  /** Readings left in the buffer after `n` more readings, starting from `b`: a decision every third. */
  function Leftover(b: nat, n: nat): nat {
    if n == 0 then b
    else if Leftover(b, n - 1) + 1 < Threshold then Leftover(b, n - 1) + 1
    else 0
  }

  /** The leftover is the remainder of the total number of readings by the threshold. */
  lemma {:induction false} LeftoverIsRemainder(b: nat, n: nat)
    requires b < Threshold
    ensures Leftover(b, n) == (b + n) % Threshold
  {
    if n > 0 {
      LeftoverIsRemainder(b, n - 1);
      var k := b + n - 1;
      var q := k / Threshold;
      assert k == q * Threshold + k % Threshold;
      if k % Threshold + 1 < Threshold {
        assert k + 1 == q * Threshold + (k % Threshold + 1);
      } else {
        assert k + 1 == (q + 1) * Threshold;
      }
    }
  }
}
