/** Cutting one section into overlapping spans. */
module ChunkSpans {
  import opened Common
  import opened Utf8
  import opened SplitPoint

  const HARD_MAX_FACTOR := 2

  /** How many bytes the next piece takes: the split point, or everything, under a hard ceiling. */
  function TakeOf(remaining: Bytes, target: nat): (take: nat)
    requires |remaining| > 0
    ensures 0 < take <= |remaining|
  {
    var split := SplitAt(remaining, target);
    var wanted := if split == 0 then |remaining| else split;
    if wanted > HARD_MAX_FACTOR * target then
      var fit := LastBoundary(remaining, HARD_MAX_FACTOR * target);
      if fit > 1 then fit else 1
    else wanted
  }

  /** The first boundary at or after `back`, but not beyond `next`. */
  function Forward(raw: Bytes, back: nat, next: nat): (k: nat)
    requires back <= next
    ensures back <= k <= next
    ensures k == next || Boundary(raw, k)
    ensures forall j :: back <= j < k ==> !Boundary(raw, j)
    decreases next - back
  {
    if back < next && !Boundary(raw, back) then Forward(raw, back + 1, next) else back
  }

  /** Step past a piece, rewinding by the overlap but always forward. */
  function NextCursor(raw: Bytes, cursor: nat, take: nat, overlap: nat): (next: nat)
    requires take > 0
    ensures cursor < next <= cursor + take
    ensures cursor + take - next <= overlap
    ensures next == cursor + take || Boundary(raw, next)
  {
    var next := cursor + take;
    if overlap == 0 then next
    else
      var rewound := if next >= overlap then next - overlap else 0;
      Forward(raw, if rewound > cursor + 1 then rewound else cursor + 1, next)
  }

  datatype Span = Span(start: nat, end: nat)

  /** The spans from a cursor on; none at all if some piece would end inside a character. */
  function SpansFrom(raw: Bytes, cursor: nat, target: nat, overlap: nat): Option<seq<Span>>
    requires cursor <= |raw|
    decreases |raw| - cursor
  {
    if cursor == |raw| then Some([])
    else
      var take := TakeOf(raw[cursor..], target);
      if !Boundary(raw, cursor + take) then None
      else if cursor + take == |raw| then Some([Span(cursor, |raw|)])
      else
        match SpansFrom(raw, NextCursor(raw, cursor, take, overlap), target, overlap)
        case None => None
        case Some(rest) => Some([Span(cursor, cursor + take)] + rest)
  }

  // ----- one piece -----

  /**
   * With a target of at least four bytes a piece is never empty, never longer than the target, and ends on a
   * character boundary; the ceiling is never reached.
   */
  lemma TakeLaws(remaining: Bytes, target: nat)
    requires WellFormed(remaining) && |remaining| > 0 && target >= 4
    ensures var take := TakeOf(remaining, target);
            take == SplitAt(remaining, target) && take <= target && take <= |remaining| && Boundary(remaining, take)
  {
    SplitLaws(remaining, target);
  }

  /**
   * For every target: a piece is the cut, unless that is empty; then it is all that is left, if that is at most twice
   * the target, and otherwise ends at the last boundary within twice the target, but takes a byte in any case.
   */
  lemma TakeIs(remaining: Bytes, target: nat, cut: nat)
    requires WellFormed(remaining) && |remaining| > 0 && IsCut(remaining, target, cut)
    ensures cut > 0 ==> TakeOf(remaining, target) == cut
    ensures cut == 0 && |remaining| <= 2 * target ==> TakeOf(remaining, target) == |remaining|
    ensures cut == 0 && |remaining| > 2 * target ==>
              exists fit: nat :: LastBoundaryIs(remaining, 2 * target, fit) &&
                                 TakeOf(remaining, target) == if fit == 0 then 1 else fit
  {
    CutIsUnique(remaining, target, cut);
    SplitLaws(remaining, target);
    hide IsCut, SplitAt, WellFormed;
    if cut == 0 && |remaining| > 2 * target {
      var fit := LastBoundary(remaining, 2 * target);
      assert LastBoundaryIs(remaining, 2 * target, fit);
    }
  }

  /** With a target of two or three a piece still ends on a boundary, but may be one four-byte character long. */
  lemma SmallTakeLaws(remaining: Bytes, target: nat)
    requires WellFormed(remaining) && |remaining| > 0 && target >= 2
    ensures Boundary(remaining, TakeOf(remaining, target))
    ensures TakeOf(remaining, target) <= HARD_MAX_FACTOR * target
  {
    SplitLaws(remaining, target);
    if |remaining| > HARD_MAX_FACTOR * target {
      BoundaryIsNear(remaining, HARD_MAX_FACTOR * target);
    }
    hide WellFormed, SplitAt, LastBoundary;
  }

  /** A well-formed four-byte character, as long as a piece can get for no target below four. */
  const WIDE: Bytes := [0xF0, 0x90, 0x80, 0x80]

  lemma WideIsWellFormed()
    ensures WellFormed(WIDE) && forall k :: 0 < k < 4 ==> !Boundary(WIDE, k)
  {
    assert CharAt(WIDE, 0);
  }

  lemma WideTake(target: nat)
    requires target < 4
    ensures TakeOf(WIDE, target) > target || !Boundary(WIDE, TakeOf(WIDE, target))
  {
    WideIsWellFormed();
    SplitLaws(WIDE, target);
    assert LastBoundary(WIDE, target) == 0;
    assert SplitAt(WIDE, target) == 0;
    if target < 2 {
      assert LastBoundary(WIDE, HARD_MAX_FACTOR * target) == 0;
      assert TakeOf(WIDE, target) == 1;
    } else {
      assert TakeOf(WIDE, target) == 4;
    }
  }

  ghost predicate PieceLaws(target: nat) {
    forall remaining :: WellFormed(remaining) && |remaining| > 0 ==>
      TakeOf(remaining, target) <= target && Boundary(remaining, TakeOf(remaining, target))
  }

  /** Four bytes is exactly the smallest target for which pieces keep to it on every text. */
  lemma FourIsTheSmallestTarget(target: nat)
    ensures PieceLaws(target) <==> target >= 4
  {
    if target >= 4 {
      forall remaining | WellFormed(remaining) && |remaining| > 0
        ensures TakeOf(remaining, target) <= target && Boundary(remaining, TakeOf(remaining, target))
      {
        TakeLaws(remaining, target);
      }
    } else {
      WideIsWellFormed();
      WideTake(target);
    }
  }

  // ----- a whole section -----

  /**
   * Spans that walk from `from` to the end: each is the cut of what is left, each resumes after the one before it, and
   * the first to reach the end is the last.
   */
  ghost predicate Walk(raw: Bytes, spans: seq<Span>, from: nat, target: nat, overlap: nat) {
    && |spans| > 0 && spans[0].start == from && spans[|spans| - 1].end == |raw|
    && (forall i :: 0 <= i < |spans| ==> Fits(raw, spans[i], target))
    && (forall i :: 0 <= i < |spans| - 1 ==> spans[i].end < |raw| && Follows(raw, spans[i], spans[i + 1], overlap))
  }

  /** Between boundaries, not empty, not longer than the target, and ending where a cut is best. */
  ghost predicate Fits(raw: Bytes, span: Span, target: nat) {
    && span.start < span.end <= |raw| && span.end - span.start <= target
    && Boundary(raw, span.start) && Boundary(raw, span.end)
    && IsCut(raw[span.start..], target, span.end - span.start)
  }

  /**
   * Strictly later and without a gap: at the end of `a` without overlap, else at the first boundary from `overlap`
   * bytes before the end on, but not at the start of `a` again.
   */
  ghost predicate Follows(raw: Bytes, a: Span, b: Span, overlap: nat) {
    && a.start < b.start <= a.end && a.end - b.start <= overlap
    && (b.start == a.end || Boundary(raw, b.start))
    && (forall j :: a.start < j < b.start && j + overlap >= a.end ==> !Boundary(raw, j))
  }

  /** The next cursor resumes as it should. */
  lemma NextFollows(raw: Bytes, a: Span, next: nat, end: nat, overlap: nat)
    requires a.start < a.end && next == NextCursor(raw, a.start, a.end - a.start, overlap)
    ensures Follows(raw, a, Span(next, end), overlap)
  {
  }

  lemma FirstFits(raw: Bytes, cursor: nat, target: nat)
    requires WellFormed(raw) && cursor < |raw| && Boundary(raw, cursor) && target >= 4
    ensures Fits(raw, Span(cursor, cursor + TakeOf(raw[cursor..], target)), target)
  {
    hide WellFormed, TakeOf, IsCut, SplitAt;
    var remaining := raw[cursor..];
    assert remaining == raw[cursor..|raw|];
    SliceWellFormed(raw, cursor, |raw|);
    TakeLaws(remaining, target);
    SplitIsCut(remaining, target);
  }

  lemma {:induction false} SpanLaws(raw: Bytes, cursor: nat, target: nat, overlap: nat)
    requires WellFormed(raw) && cursor < |raw| && Boundary(raw, cursor) && target >= 4
    ensures SpansFrom(raw, cursor, target, overlap).Some?
    ensures Walk(raw, SpansFrom(raw, cursor, target, overlap).value, cursor, target, overlap)
    decreases |raw| - cursor
  {
    hide WellFormed, TakeOf, NextCursor, IsCut;
    FirstFits(raw, cursor, target);
    var take := TakeOf(raw[cursor..], target);
    var first := Span(cursor, cursor + take);
    if cursor + take < |raw| {
      var next := NextCursor(raw, cursor, take, overlap);
      SpanLaws(raw, next, target, overlap);
      var rest := SpansFrom(raw, next, target, overlap).value;
      assert |rest| > 0 && rest[0].start == next;
      NextFollows(raw, first, next, rest[0].end, overlap);
      WalkOn(raw, first, rest, next, target, overlap);
      hide Walk;
    } else {
      assert SpansFrom(raw, cursor, target, overlap) == Some([first]);
    }
  }

  lemma WalkOn(raw: Bytes, first: Span, rest: seq<Span>, next: nat, target: nat, overlap: nat)
    requires Walk(raw, rest, next, target, overlap) && Fits(raw, first, target)
    requires first.end < |raw| && Follows(raw, first, rest[0], overlap)
    ensures Walk(raw, [first] + rest, first.start, target, overlap)
  {
    hide Fits, Follows;
  }

  /** There is one such walk. */
  lemma {:induction false} WalkIsUnique(
    raw: Bytes, spans: seq<Span>, spans': seq<Span>, from: nat, target: nat, overlap: nat)
    requires Walk(raw, spans, from, target, overlap) && Walk(raw, spans', from, target, overlap)
    ensures spans == spans'
    decreases |spans|
  {
    SameEnd(raw, spans[0], spans'[0], target);
    hide Fits;
    if |spans| > 1 && |spans'| > 1 {
      assert Follows(raw, spans[0], spans[0 + 1], overlap) && Follows(raw, spans'[0], spans'[0 + 1], overlap);
      SameStart(raw, spans[0], spans[1], spans'[1], overlap);
      WalkRest(raw, spans, from, target, overlap);
      WalkRest(raw, spans', from, target, overlap);
      hide Walk, Follows;
      WalkIsUnique(raw, spans[1..], spans'[1..], spans[1].start, target, overlap);
      assert spans == [spans[0]] + spans[1..] && spans' == [spans'[0]] + spans'[1..];
    }
  }

  lemma SameEnd(raw: Bytes, a: Span, b: Span, target: nat)
    requires Fits(raw, a, target) && Fits(raw, b, target) && a.start == b.start
    ensures a == b
  {
    hide IsCut, SplitAt;
    CutIsUnique(raw[a.start..], target, a.end - a.start);
    CutIsUnique(raw[a.start..], target, b.end - b.start);
  }

  lemma SameStart(raw: Bytes, a: Span, b: Span, b': Span, overlap: nat)
    requires Follows(raw, a, b, overlap) && Follows(raw, a, b', overlap)
    ensures b.start == b'.start
  {
  }

  lemma WalkRest(raw: Bytes, spans: seq<Span>, from: nat, target: nat, overlap: nat)
    requires Walk(raw, spans, from, target, overlap) && |spans| > 1
    ensures Walk(raw, spans[1..], spans[1].start, target, overlap)
  {
    hide Fits, Follows;
    var rest := spans[1..];
    assert forall i :: 0 <= i < |rest| ==> rest[i] == spans[i + 1];
    forall i | 0 <= i < |rest| - 1 ensures rest[i].end < |raw| && Follows(raw, rest[i], rest[i + 1], overlap) {
      assert Follows(raw, spans[i + 1], spans[i + 1 + 1], overlap);
    }
  }

  /** Every position of the section lies in some span. */
  lemma {:induction false} WalkCovers(raw: Bytes, spans: seq<Span>, from: nat, target: nat, overlap: nat, k: nat)
    requires Walk(raw, spans, from, target, overlap) && from <= k < |raw|
    ensures exists i :: 0 <= i < |spans| && spans[i].start <= k < spans[i].end
    decreases |spans|
  {
    if k < spans[0].end {
      assert spans[0].start <= k < spans[0].end;
    } else {
      var rest := spans[1..];
      assert Follows(raw, spans[0], spans[0 + 1], overlap);
      WalkRest(raw, spans, from, target, overlap);
      assert rest[0] == spans[1];
      WalkCovers(raw, rest, rest[0].start, target, overlap, k);
      var i :| 0 <= i < |rest| && rest[i].start <= k < rest[i].end;
      assert spans[i + 1].start <= k < spans[i + 1].end;
    }
  }
}
