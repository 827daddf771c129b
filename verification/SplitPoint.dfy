/** Where to cut a long text: after the last good break in the second half of the window, else at its end. */
module SplitPoint {
  import opened Common
  import opened Utf8

  const PARAGRAPH: Bytes := [0x0A, 0x0A]
  const DANDA: Bytes := [0xE0, 0xA5, 0xA4]
  const NEWLINE: Bytes := [0x0A]
  const SPACE: Bytes := [0x20]

  /** Breaks from most to least preferred: paragraph, sentence ends, newline, space. */
  const BREAKS: seq<Bytes> :=
    [PARAGRAPH, [0x2E, 0x20], [0x2E, 0x0A], [0x21, 0x20], [0x3F, 0x20], DANDA, NEWLINE, SPACE]

  // ----- what a cut should be -----

  /** `q` is where `pat` last occurs in the window. */
  ghost predicate LastAt(window: Bytes, pat: Bytes, q: nat) {
    Occurs(window, pat, q) && forall j :: j > q ==> !Occurs(window, pat, j)
  }

  /** The `k`-th break in order of preference: blank line; ". ", ".\n", "! ", "? ", danda; newline; space. */
  ghost function BreakOf(k: nat): Bytes {
    match k
    case 0 => [0x0A, 0x0A]
    case 1 => [0x2E, 0x20]
    case 2 => [0x2E, 0x0A]
    case 3 => [0x21, 0x20]
    case 4 => [0x3F, 0x20]
    case 5 => [0xE0, 0xA5, 0xA4]
    case 6 => [0x0A]
    case _ => [0x20]
  }

  /** The `k`-th break last occurs in the second half of the window. */
  ghost predicate Usable(window: Bytes, k: nat) {
    exists q: nat :: LastAt(window, BreakOf(k), q) && q > |window| / 2
  }

  /** The end of the most preferred usable break, or of the window when none of the eight is usable. */
  ghost predicate CutsWindow(window: Bytes, p: nat) {
    if exists k :: 0 <= k < 8 && Usable(window, k) then
      exists k, q: nat :: 0 <= k < 8 && LastAt(window, BreakOf(k), q) && q > |window| / 2 && p == q + |BreakOf(k)| &&
                          forall b :: 0 <= b < k ==> !Usable(window, b)
    else p == |window|
  }

  /** A text within the limit is not cut; a longer one is cut in the window up to the last boundary in the limit. */
  ghost predicate IsCut(s: Bytes, limit: nat, p: nat) {
    if |s| <= limit then p == |s|
    else exists cap: nat :: LastBoundaryIs(s, limit, cap) && CutsWindow(s[..cap], p)
  }

  ghost predicate LastBoundaryIs(s: Bytes, limit: nat, cap: nat)
    requires limit < |s|
  {
    cap <= limit && Boundary(s, cap) && forall j :: cap < j <= limit ==> !Boundary(s, j)
  }

  /** The last occurrence of a pattern. */
  function LastOccurrence(s: Bytes, pat: Bytes, below: nat): (r: Option<nat>)
    requires below <= |s| + 1
    ensures r.Some? ==> r.value < below && Occurs(s, pat, r.value)
    ensures forall j :: 0 <= j < below && Occurs(s, pat, j) ==> r.Some? && j <= r.value
    decreases below
  {
    if below == 0 then None
    else if Occurs(s, pat, below - 1) then Some(below - 1)
    else LastOccurrence(s, pat, below - 1)
  }

  function RFind(s: Bytes, pat: Bytes): Option<nat> {
    LastOccurrence(s, pat, |s| + 1)
  }

  /** The cut after the first break, in order of preference, whose last occurrence lies beyond the floor. */
  function FirstGood(window: Bytes, breaks: seq<Bytes>, floor: nat): (r: Option<nat>)
    ensures r.Some? ==> r.value <= |window|
    decreases |breaks|
  {
    if |breaks| == 0 then None
    else
      var p := RFind(window, breaks[0]);
      if p.Some? && p.value > floor then Some(p.value + |breaks[0]|) else FirstGood(window, breaks[1..], floor)
  }

  function SplitAt(s: Bytes, limit: nat): (p: nat)
    ensures p <= |s|
  {
    if |s| <= limit then |s|
    else
      var cap := LastBoundary(s, limit);
      match FirstGood(s[..cap], BREAKS, cap / 2)
      case Some(p) => p
      case None => cap
  }

  method FindLast(s: Bytes, pat: Bytes) returns (r: Option<nat>)
    ensures r == RFind(s, pat)
  {
    var i := |s| + 1;
    while i > 0
      invariant 0 <= i <= |s| + 1
      invariant RFind(s, pat) == LastOccurrence(s, pat, i)
    {
      i := i - 1;
      if i + |pat| <= |s| && s[i..i + |pat|] == pat {
        return Some(i);
      }
    }
    r := None;
  }

  method FindSplit(s: Bytes, limit: nat) returns (p: nat)
    ensures p == SplitAt(s, limit) && IsCut(s, limit, p)
  {
    SplitIsCut(s, limit);
    hide IsCut;
    if |s| <= limit {
      return |s|;
    }
    var cap := limit;
    while cap > 0 && !Boundary(s, cap)
      invariant 0 <= cap <= limit
      invariant LastBoundary(s, limit) == LastBoundary(s, cap)
    {
      cap := cap - 1;
    }
    var window := s[..cap];
    var floor := cap / 2;
    var i := 0;
    assert BREAKS[0..] == BREAKS;
    while i < |BREAKS|
      invariant 0 <= i <= |BREAKS|
      invariant FirstGood(window, BREAKS, floor) == FirstGood(window, BREAKS[i..], floor)
    {
      assert BREAKS[i..][0] == BREAKS[i] && BREAKS[i..][1..] == BREAKS[i + 1..];
      var at := FindLast(window, BREAKS[i]);
      if at.Some? && at.value > floor {
        return at.value + |BREAKS[i]|;
      }
      i := i + 1;
    }
    p := cap;
  }

  // ----- what the cut is -----

  /** What the preference order means: which break was used, and that no better one was available. */
  lemma {:induction false} FirstGoodIsBest(window: Bytes, breaks: seq<Bytes>, floor: nat)
    ensures var r := FirstGood(window, breaks, floor);
            if r.Some? then
              exists k, q :: 0 <= k < |breaks| && q > floor && r.value == q + |breaks[k]| && Occurs(window, breaks[k], q)
                && (forall j :: j > q ==> !Occurs(window, breaks[k], j))
                && (forall b, j :: 0 <= b < k && j > floor ==> !Occurs(window, breaks[b], j))
            else forall b, j :: 0 <= b < |breaks| && j > floor ==> !Occurs(window, breaks[b], j)
    decreases |breaks|
  {
    if |breaks| > 0 {
      var p := RFind(window, breaks[0]);
      assert forall j: nat :: Occurs(window, breaks[0], j) ==> j < |window| + 1;
      if p.Some? && p.value > floor {
        assert Occurs(window, breaks[0], p.value);
      } else {
        FirstGoodIsBest(window, breaks[1..], floor);
        assert forall b :: 0 < b < |breaks| ==> breaks[b] == breaks[1..][b - 1];
        var r := FirstGood(window, breaks[1..], floor);
        if r.Some? {
          var k, q :| 0 <= k < |breaks[1..]| && q > floor && r.value == q + |breaks[1..][k]| &&
            Occurs(window, breaks[1..][k], q) && (forall j :: j > q ==> !Occurs(window, breaks[1..][k], j)) &&
            (forall b, j :: 0 <= b < k && j > floor ==> !Occurs(window, breaks[1..][b], j));
          assert breaks[k + 1] == breaks[1..][k];
          forall b, j | 0 <= b < k + 1 && j > floor ensures !Occurs(window, breaks[b], j) {
            if b > 0 { assert breaks[b] == breaks[1..][b - 1]; }
          }
        }
      }
    }
  }

  lemma BreaksAre(k: nat)
    requires k < |BREAKS|
    ensures |BREAKS| == 8 && BREAKS[k] == BreakOf(k)
  {
  }

  /** A break has an occurrence beyond the floor exactly when its last one is. */
  lemma UsableIs(window: Bytes, k: nat)
    requires k < 8
    ensures Usable(window, k) <==> exists j: nat :: j > |window| / 2 && Occurs(window, BreakOf(k), j)
  {
    hide BreakOf, Occurs;
    if j: nat :| j > |window| / 2 && Occurs(window, BreakOf(k), j) {
      OccursWithin(window, BreakOf(k));
      var q := RFind(window, BreakOf(k)).value;
      assert LastAt(window, BreakOf(k), q) && q > |window| / 2;
    }
  }

  lemma OccursWithin(window: Bytes, pat: Bytes)
    ensures forall j: nat :: Occurs(window, pat, j) ==> j < |window| + 1
  {
  }

  lemma BestIsCut(window: Bytes, k: nat, q: nat)
    requires k < 8 && LastAt(window, BreakOf(k), q) && q > |window| / 2
    requires forall b, j :: 0 <= b < k && j > |window| / 2 ==> !Occurs(window, BreakOf(b), j)
    ensures CutsWindow(window, q + |BreakOf(k)|)
  {
    hide BreakOf, Occurs;
    forall b | 0 <= b < k ensures !Usable(window, b) {
      UsableIs(window, b);
    }
    assert Usable(window, k);
  }

  lemma NoneIsCut(window: Bytes)
    requires forall b, j :: 0 <= b < 8 && j > |window| / 2 ==> !Occurs(window, BreakOf(b), j)
    ensures CutsWindow(window, |window|)
  {
    hide BreakOf, Occurs;
    forall b | 0 <= b < 8 ensures !Usable(window, b) {
      UsableIs(window, b);
    }
  }

  lemma GoodOfIsCut(window: Bytes, breaks: seq<Bytes>)
    requires |breaks| == 8 && forall b :: 0 <= b < 8 ==> breaks[b] == BreakOf(b)
    ensures var r := FirstGood(window, breaks, |window| / 2);
            CutsWindow(window, if r.Some? then r.value else |window|)
  {
    FirstGoodIsBest(window, breaks, |window| / 2);
    hide FirstGood, BreakOf, Occurs, CutsWindow;
    var r := FirstGood(window, breaks, |window| / 2);
    if r.Some? {
      var k, q :| 0 <= k < |breaks| && q > |window| / 2 && r.value == q + |breaks[k]| && Occurs(window, breaks[k], q)
        && (forall j :: j > q ==> !Occurs(window, breaks[k], j))
        && (forall b, j :: 0 <= b < k && j > |window| / 2 ==> !Occurs(window, breaks[b], j));
      BestIsCut(window, k, q);
    } else {
      NoneIsCut(window);
    }
  }

  lemma GoodIsCut(window: Bytes)
    ensures var r := FirstGood(window, BREAKS, |window| / 2);
            CutsWindow(window, if r.Some? then r.value else |window|)
  {
    forall b | 0 <= b < 8 ensures BREAKS[b] == BreakOf(b) {
      BreaksAre(b);
    }
    hide FirstGood, CutsWindow;
    GoodOfIsCut(window, BREAKS);
  }

  /** The cut found is the one asked for. */
  lemma SplitIsCut(s: Bytes, limit: nat)
    ensures IsCut(s, limit, SplitAt(s, limit))
  {
    hide CutsWindow, FirstGood;
    if |s| > limit {
      var cap := LastBoundary(s, limit);
      GoodIsCut(s[..cap]);
      assert LastBoundaryIs(s, limit, cap);
    }
  }

  lemma WindowCutIsUnique(window: Bytes, p: nat, p': nat)
    requires CutsWindow(window, p) && CutsWindow(window, p')
    ensures p == p'
  {
    hide BreakOf;
    if exists k :: 0 <= k < 8 && Usable(window, k) {
      var k, q: nat :| 0 <= k < 8 && LastAt(window, BreakOf(k), q) && q > |window| / 2 && p == q + |BreakOf(k)| &&
        forall b :: 0 <= b < k ==> !Usable(window, b);
      var k', q': nat :| 0 <= k' < 8 && LastAt(window, BreakOf(k'), q') && q' > |window| / 2 && p' == q' + |BreakOf(k')| &&
        forall b :: 0 <= b < k' ==> !Usable(window, b);
      assert Usable(window, k) && Usable(window, k');
      assert k == k' && q == q';
    }
  }

  /** And there is no other. */
  lemma CutIsUnique(s: Bytes, limit: nat, p: nat)
    ensures IsCut(s, limit, p) <==> p == SplitAt(s, limit)
  {
    SplitIsCut(s, limit);
    hide CutsWindow, SplitAt;
    if IsCut(s, limit, p) && |s| > limit {
      var cap: nat :| LastBoundaryIs(s, limit, cap) && CutsWindow(s[..cap], p);
      var cap': nat :| LastBoundaryIs(s, limit, cap') && CutsWindow(s[..cap'], SplitAt(s, limit));
      assert cap == cap';
      WindowCutIsUnique(s[..cap], p, SplitAt(s, limit));
    }
  }

  lemma BreakShape(k: nat)
    requires k < |BREAKS|
    ensures |BREAKS[k]| > 0 && (BREAKS[k] == DANDA || BREAKS[k][|BREAKS[k]| - 1] < 0x80)
  {
  }

  lemma AsciiEndsAtBoundary(s: Bytes, pat: Bytes, q: nat)
    requires WellFormed(s) && Occurs(s, pat, q) && |pat| > 0 && pat[|pat| - 1] < 0x80
    ensures Boundary(s, q + |pat|)
  {
    var last := q + |pat| - 1;
    assert s[last] == s[q..q + |pat|][|pat| - 1];
    assert CharAt(s, last);
  }

  lemma DandaEndsAtBoundary(s: Bytes, q: nat)
    requires WellFormed(s) && Occurs(s, DANDA, q)
    ensures Boundary(s, q + 3)
  {
    assert s[q] == s[q..q + 3][0];
    assert CharAt(s, q);
  }

  /** After any of the breaks a character ends. */
  lemma BreakEndsAtBoundary(s: Bytes, k: nat, q: nat)
    requires WellFormed(s) && k < |BREAKS| && Occurs(s, BREAKS[k], q)
    ensures Boundary(s, q + |BREAKS[k]|)
  {
    hide WellFormed, Boundary, Occurs;
    BreakShape(k);
    if BREAKS[k] == DANDA {
      DandaEndsAtBoundary(s, q);
    } else {
      AsciiEndsAtBoundary(s, BREAKS[k], q);
    }
  }

  lemma OccursInPrefix(s: Bytes, cap: nat, pat: Bytes, q: nat)
    requires cap <= |s| && Occurs(s[..cap], pat, q)
    ensures Occurs(s, pat, q) && q + |pat| <= cap
  {
    assert s[..cap][q..q + |pat|] == s[q..q + |pat|];
  }

  lemma GoodBreakLaws(s: Bytes, cap: nat)
    requires WellFormed(s) && cap <= |s|
    ensures var r := FirstGood(s[..cap], BREAKS, cap / 2);
            r.Some? ==> cap / 2 < r.value <= cap && Boundary(s, r.value)
  {
    var window := s[..cap];
    FirstGoodIsBest(window, BREAKS, cap / 2);
    hide WellFormed, Boundary, Occurs, FirstGood;
    var r := FirstGood(window, BREAKS, cap / 2);
    if r.Some? {
      var k, q :| 0 <= k < |BREAKS| && q > cap / 2 && r.value == q + |BREAKS[k]| && Occurs(window, BREAKS[k], q);
      OccursInPrefix(s, cap, BREAKS[k], q);
      BreakEndsAtBoundary(s, k, q);
    }
  }

  /**
   * The cut lies on a character boundary, within the limit, and beyond half of the window; so from a limit of
   * four bytes on it always makes progress.
   */
  lemma SplitLaws(s: Bytes, limit: nat)
    requires WellFormed(s)
    ensures var p := SplitAt(s, limit);
            && p <= limit && p <= |s| && Boundary(s, p)
            && (|s| > limit ==> 2 * p >= LastBoundary(s, limit))
            && (limit >= 4 && |s| > 0 ==> p > 0)
  {
    if |s| > limit {
      hide WellFormed, FirstGood;
      BoundaryIsNear(s, limit);
      GoodBreakLaws(s, LastBoundary(s, limit));
    }
  }
}
