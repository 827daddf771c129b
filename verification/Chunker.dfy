/** Chunking a note body into overlapping, heading-scoped pieces. */
module Chunker {
  import opened Common
  import opened Utf8
  import opened SplitPoint
  import opened Sections
  import opened ChunkSpans

  datatype Config = Config(target: nat, overlap: nat, packing: bool)

  datatype Chunk = Chunk(index: nat, breadcrumb: Bytes, headingPath: seq<Bytes>, offset: nat, text: Bytes)

  const ARROW: Bytes := [0x20, 0x3E, 0x20]

  function Crumb(path: seq<Bytes>): Bytes {
    if |path| == 0 then [] else if |path| == 1 then path[0] else path[0] + ARROW + Crumb(path[1..])
  }

  // ----- packing -----

  predicate InBody(body: Bytes, s: Section) {
    s.start < s.end <= |body|
  }

  ghost predicate InOrder(body: Bytes, sections: seq<Section>) {
    && (forall i :: 0 <= i < |sections| ==> InBody(body, sections[i]))
    && (forall i, j :: 0 <= i < j < |sections| ==> sections[i].end <= sections[j].start)
  }

  /**
   * `cuts` groups consecutive sections: each result spans one group under the trail of its first section, fits the
   * target unless it is a single section, and could not have taken in the next section.
   */
  ghost predicate Packed(raw: seq<Section>, target: nat, cuts: seq<nat>, out: seq<Section>) {
    && |cuts| == |out| + 1 && cuts[0] == 0
    && (forall g :: 0 <= g < |out| ==> PackedGroup(raw, target, cuts[g], cuts[g + 1], out[g]))
  }

  predicate PackedGroup(raw: seq<Section>, target: nat, a: nat, b: nat, s: Section) {
    && a < b <= |raw| && s == Section(raw[a].path, raw[a].start, raw[b - 1].end)
    && (b - a > 1 ==> s.end - s.start <= target)
    && (b < |raw| && raw[a].end - raw[a].start <= target ==> raw[b].end - raw[a].start > target)
  }

  method NonBlank(body: Bytes, sections: seq<Section>) returns (raw: seq<Section>)
    requires InOrder(body, sections)
    ensures InOrder(body, raw)
    ensures forall s :: s in raw <==> s in sections && InBody(body, s) && !Blank(body[s.start..s.end])
  {
    hide Trim;
    raw := [];
    var i := 0;
    while i < |sections|
      invariant 0 <= i <= |sections| && InOrder(body, raw)
      invariant forall s :: s in raw <==> s in sections[..i] && InBody(body, s) && !Blank(body[s.start..s.end])
      invariant forall k :: 0 <= k < |raw| && i < |sections| ==> raw[k].end <= sections[i].start
    {
      var s := sections[i];
      assert sections[..i + 1] == sections[..i] + [s];
      if !Blank(body[s.start..s.end]) {
        raw := raw + [s];
      }
      i := i + 1;
    }
    assert sections[..i] == sections;
  }

  /** Every section belongs to one group. */
  ghost predicate PacksAll(raw: seq<Section>, target: nat, cuts: seq<nat>, out: seq<Section>) {
    Packed(raw, target, cuts, out) && cuts[|out|] == |raw|
  }

  method Pack(body: Bytes, raw: seq<Section>, target: nat) returns (out: seq<Section>)
    requires InOrder(body, raw)
    ensures exists cuts :: PacksAll(raw, target, cuts, out)
  {
    out := [];
    ghost var cuts: seq<nat> := [0];
    var i := 0;
    while i < |raw|
      invariant 0 <= i <= |raw|
      invariant Packed(raw, target, cuts, out) && cuts[|out|] == i
      decreases |raw| - i
    {
      var j := i + 1;
      var end := raw[i].end;
      if end - raw[i].start <= target {
        while j < |raw| && raw[j].end - raw[i].start <= target
          invariant i < j <= |raw| && end == raw[j - 1].end
          invariant j - i > 1 ==> end - raw[i].start <= target
        {
          end := raw[j].end;
          j := j + 1;
        }
      }
      out := out + [Section(raw[i].path, raw[i].start, end)];
      cuts := cuts + [j];
      i := j;
    }
    assert PacksAll(raw, target, cuts, out);
  }

  /** Packing keeps the order and loses no section. */
  lemma PackedCovers(body: Bytes, raw: seq<Section>, target: nat, cuts: seq<nat>, out: seq<Section>, i: nat)
    requires InOrder(body, raw) && PacksAll(raw, target, cuts, out) && i < |raw|
    ensures exists g :: 0 <= g < |out| && out[g].start <= raw[i].start && raw[i].end <= out[g].end
  {
    var g := GroupOf(raw, target, cuts, out, i, |out|);
    assert PackedGroup(raw, target, cuts[g], cuts[g + 1], out[g]);
    assert raw[cuts[g]].start <= raw[i].start && raw[i].end <= raw[cuts[g + 1] - 1].end;
  }

  ghost function GroupOf(raw: seq<Section>, target: nat, cuts: seq<nat>, out: seq<Section>, i: nat, n: nat): (g: nat)
    requires Packed(raw, target, cuts, out) && n <= |out| && i < cuts[n]
    ensures g < n && cuts[g] <= i < cuts[g + 1]
    decreases n
  {
    if cuts[n - 1] <= i then n - 1 else GroupOf(raw, target, cuts, out, i, n - 1)
  }

  lemma PackedBounds(body: Bytes, raw: seq<Section>, target: nat, cuts: seq<nat>, out: seq<Section>)
    requires InOrder(body, raw) && PacksAll(raw, target, cuts, out)
    ensures forall g :: 0 <= g < |out| ==> InBody(body, out[g])
  {
    forall g | 0 <= g < |out| ensures InBody(body, out[g]) {
      assert PackedGroup(raw, target, cuts[g], cuts[g + 1], out[g]);
      assert InBody(body, raw[cuts[g]]) && InBody(body, raw[cuts[g + 1] - 1]);
    }
  }

  // ----- pieces -----

  datatype Piece = Piece(path: seq<Bytes>, offset: nat, text: Bytes)

  function PiecesOfSpans(body: Bytes, s: Section, spans: seq<Span>): seq<Piece>
    requires InBody(body, s) && Inside(spans, s.end - s.start)
  {
    if |spans| == 0 then []
    else
      var raw := body[s.start..s.end];
      var piece := raw[spans[0].start..spans[0].end];
      (if Blank(piece) then [] else [Piece(s.path, s.start + spans[0].start, Trim(piece))]) + PiecesOfSpans(body, s, spans[1..])
  }

  lemma {:induction false} SpansInside(raw: Bytes, cursor: nat, target: nat, overlap: nat)
    requires cursor <= |raw|
    ensures var r := SpansFrom(raw, cursor, target, overlap);
            r.Some? ==> Inside(r.value, |raw|)
    decreases |raw| - cursor
  {
    if cursor < |raw| {
      var take := TakeOf(raw[cursor..], target);
      if cursor + take < |raw| {
        SpansInside(raw, NextCursor(raw, cursor, take, overlap), target, overlap);
      }
    }
  }

  /** The pieces of one section; none at all if some piece would end inside a character. */
  function PiecesOf(body: Bytes, s: Section, config: Config): Option<seq<Piece>>
    requires InBody(body, s)
  {
    var raw := body[s.start..s.end];
    if Blank(raw) then Some([])
    else
      SpansInside(raw, 0, config.target, config.overlap);
      match SpansFrom(raw, 0, config.target, config.overlap)
      case None => None
      case Some(spans) => Some(PiecesOfSpans(body, s, spans))
  }

  function AllPieces(body: Bytes, walk: seq<Section>, config: Config): Option<seq<Piece>>
    requires forall i :: 0 <= i < |walk| ==> InBody(body, walk[i])
    decreases |walk|
  {
    if |walk| == 0 then Some([])
    else
      match AllPieces(body, walk[..|walk| - 1], config)
      case None => None
      case Some(front) =>
        match PiecesOf(body, walk[|walk| - 1], config)
        case None => None
        case Some(last) => Some(front + last)
  }

  ghost predicate Numbered(chunks: seq<Chunk>, pieces: seq<Piece>) {
    && |chunks| == |pieces|
    && (forall i :: 0 <= i < |chunks| ==>
                      chunks[i] == Chunk(i, Crumb(pieces[i].path), pieces[i].path, pieces[i].offset, pieces[i].text))
  }

  /** The cursor loop over one section. */
  method ChunkSection(body: Bytes, s: Section, config: Config, before: seq<Chunk>, ghost old_: seq<Piece>)
    returns (chunks: Option<seq<Chunk>>)
    requires InBody(body, s) && Numbered(before, old_)
    ensures chunks.Some? <==> PiecesOf(body, s, config).Some?
    ensures chunks.Some? ==> Numbered(chunks.value, old_ + PiecesOf(body, s, config).value)
  {
    hide Trim, TakeOf, NextCursor, Crumb, SpansFrom, PiecesOfSpans, Boundary, Blank;
    var raw := body[s.start..s.end];
    if Blank(raw) {
      assert old_ + [] == old_;
      return Some(before);
    }
    SpansInside(raw, 0, config.target, config.overlap);
    ghost var goal := SpansFrom(raw, 0, config.target, config.overlap);
    ghost var done: seq<Span> := [];
    var out, cursor := before, 0;
    NoSpans(body, s, old_);
    while cursor < |raw|
      invariant 0 <= cursor <= |raw|
      invariant Inside(done, |raw|)
      invariant Prefixed(goal, done, SpansFrom(raw, cursor, config.target, config.overlap))
      invariant Numbered(out, old_ + PiecesOfSpans(body, s, done))
      decreases |raw| - cursor
    {
      var take := TakePiece(raw[cursor..], config.target);
      if !Boundary(raw, cursor + take) {
        SpansFail(raw, cursor, config.target, config.overlap);
        return None;
      }
      var piece := raw[cursor..cursor + take];
      PiecesSnoc(body, s, done, Span(cursor, cursor + take));
      PrefixStep(raw, cursor, config.target, config.overlap, goal, done);
      out := AddPiece(out, s, cursor, piece, old_ + PiecesOfSpans(body, s, done));
      done := done + [Span(cursor, cursor + take)];
      assert old_ + PiecesOfSpans(body, s, done) ==
             old_ + PiecesOfSpans(body, s, done[..|done| - 1]) + (if Blank(piece) then [] else [Piece(s.path, s.start + cursor, Trim(piece))]);
      if cursor + take >= |raw| {
        cursor := |raw|;
      } else {
        cursor := StepForward(raw, cursor, take, config.overlap);
      }
    }
    SpansEnd(raw, config.target, config.overlap);
    assert done + [] == done;
    chunks := Some(out);
  }

  method TakePiece(remaining: Bytes, target: nat) returns (take: nat)
    requires |remaining| > 0
    ensures take == TakeOf(remaining, target)
  {
    take := FindSplit(remaining, target);
    if take == 0 {
      take := |remaining|;
    }
    var hardMax := HARD_MAX_FACTOR * target;
    if take > hardMax {
      var t := hardMax;
      while t > 0 && !Boundary(remaining, t)
        invariant 0 <= t <= hardMax && LastBoundary(remaining, t) == LastBoundary(remaining, hardMax)
      {
        t := t - 1;
      }
      take := if t > 1 then t else 1;
    }
  }

  method AddPiece(chunks: seq<Chunk>, s: Section, cursor: nat, piece: Bytes, ghost pieces: seq<Piece>)
    returns (out: seq<Chunk>)
    requires Numbered(chunks, pieces)
    ensures Numbered(out, pieces + if Blank(piece) then [] else [Piece(s.path, s.start + cursor, Trim(piece))])
  {
    hide Trim, Blank, Crumb;
    out := chunks;
    if !Blank(piece) {
      out := out + [Chunk(|out|, Crumb(s.path), s.path, s.start + cursor, Trim(piece))];
    }
  }

  predicate Inside(spans: seq<Span>, length: nat) {
    forall i :: 0 <= i < |spans| ==> spans[i].start <= spans[i].end <= length
  }

  lemma NoSpans(body: Bytes, s: Section, pieces: seq<Piece>)
    requires InBody(body, s)
    ensures pieces + PiecesOfSpans(body, s, []) == pieces
  {
  }

  lemma SpansFail(raw: Bytes, cursor: nat, target: nat, overlap: nat)
    requires cursor < |raw| && !Boundary(raw, cursor + TakeOf(raw[cursor..], target))
    ensures SpansFrom(raw, cursor, target, overlap) == None
  {
  }

  lemma SpansEnd(raw: Bytes, target: nat, overlap: nat)
    ensures SpansFrom(raw, |raw|, target, overlap) == Some([])
  {
  }

  method StepForward(raw: Bytes, cursor: nat, take: nat, overlap: nat) returns (next: nat)
    requires take > 0
    ensures next == NextCursor(raw, cursor, take, overlap)
  {
    next := cursor + take;
    if overlap > 0 {
      var back := if next >= overlap then next - overlap else 0;
      if back < cursor + 1 {
        back := cursor + 1;
      }
      ghost var from := back;
      while back < next && !Boundary(raw, back)
        invariant from <= back <= next && Forward(raw, from, next) == Forward(raw, back, next)
        decreases next - back
      {
        back := back + 1;
      }
      next := back;
    }
  }

  ghost predicate Prefixed(goal: Option<seq<Span>>, done: seq<Span>, rest: Option<seq<Span>>) {
    (goal.Some? <==> rest.Some?) && (rest.Some? ==> goal.value == done + rest.value)
  }

  lemma PrefixStep(raw: Bytes, cursor: nat, target: nat, overlap: nat, goal: Option<seq<Span>>, done: seq<Span>)
    requires cursor < |raw| && Prefixed(goal, done, SpansFrom(raw, cursor, target, overlap))
    requires Boundary(raw, cursor + TakeOf(raw[cursor..], target))
    ensures var take := TakeOf(raw[cursor..], target);
            var next := if cursor + take == |raw| then |raw| else NextCursor(raw, cursor, take, overlap);
            Prefixed(goal, done + [Span(cursor, cursor + take)], SpansFrom(raw, next, target, overlap))
  {
    hide TakeOf, NextCursor, Boundary;
    var take := TakeOf(raw[cursor..], target);
    if cursor + take < |raw| {
      var rest := SpansFrom(raw, NextCursor(raw, cursor, take, overlap), target, overlap);
      if rest.Some? {
        assert done + ([Span(cursor, cursor + take)] + rest.value) == (done + [Span(cursor, cursor + take)]) + rest.value;
      }
    }
  }

  lemma {:induction false} PiecesSnoc(body: Bytes, s: Section, spans: seq<Span>, last: Span)
    requires InBody(body, s) && Inside(spans, s.end - s.start)
    requires last.start <= last.end <= s.end - s.start
    ensures var piece := body[s.start..s.end][last.start..last.end];
            PiecesOfSpans(body, s, spans + [last]) ==
            PiecesOfSpans(body, s, spans) + if Blank(piece) then [] else [Piece(s.path, s.start + last.start, Trim(piece))]
    decreases |spans|
  {
    hide Trim;
    if |spans| == 0 {
      assert PiecesOfSpans(body, s, [last][1..]) == [];
    } else {
      PiecesSnoc(body, s, spans[1..], last);
      assert (spans + [last])[1..] == spans[1..] + [last];
    }
  }

  /** The sections that chunking visits, all inside the body. */
  ghost predicate IsWalk(body: Bytes, config: Config, walk: seq<Section>) {
    && (if config.packing then IsPackedWalk(body, config.target, walk) else walk == SectionsOf(body))
    && (forall i :: 0 <= i < |walk| ==> InBody(body, walk[i]))
  }

  /** The pieces along a walk, numbered; or nothing, when some piece would end inside a character. */
  ghost predicate ChunkedAlong(body: Bytes, config: Config, walk: seq<Section>, chunks: Option<seq<Chunk>>) {
    && IsWalk(body, config, walk)
    && (chunks.Some? <==> AllPieces(body, walk, config).Some?)
    && (chunks.Some? ==> Numbered(chunks.value, AllPieces(body, walk, config).value))
  }

  /** Chunking by sections, or by packed sections, in order; indices are renumbered densely at the end. */
  method ChunkNote(body: Bytes, config: Config) returns (chunks: Option<seq<Chunk>>)
    ensures exists walk :: ChunkedAlong(body, config, walk, chunks)
  {
    hide PiecesOf, SectionsOf, Crumb, PacksAll;
    var walk := VisitedSections(body, config);
    var out: seq<Chunk> := [];
    ghost var pieces: seq<Piece> := [];
    var i := 0;
    while i < |walk|
      invariant 0 <= i <= |walk|
      invariant AllPieces(body, walk[..i], config) == Some(pieces) && Numbered(out, pieces)
    {
      assert walk[..i + 1][..i] == walk[..i];
      var more := ChunkSection(body, walk[i], config, out, pieces);
      if more.None? {
        NoPieces(body, walk, config, i);
        assert ChunkedAlong(body, config, walk, None);
        return None;
      }
      pieces := pieces + PiecesOf(body, walk[i], config).value;
      out := more.value;
      i := i + 1;
    }
    assert walk[..i] == walk;
    chunks := Some(Reindexed(out));
    assert ChunkedAlong(body, config, walk, chunks);
  }

  method VisitedSections(body: Bytes, config: Config) returns (walk: seq<Section>)
    ensures IsWalk(body, config, walk)
  {
    hide SectionsOf, PacksAll;
    walk := FindSections(body);
    SectionsInOrder(body);
    if config.packing {
      var raw := NonBlank(body, walk);
      walk := Pack(body, raw, config.target);
      ghost var cuts :| PacksAll(raw, config.target, cuts, walk);
      PackedBounds(body, raw, config.target, cuts, walk);
      assert PackedFrom(body, config.target, raw, cuts, walk);
    }
  }

  function Reindexed(chunks: seq<Chunk>): seq<Chunk> {
    seq(|chunks|, i requires 0 <= i < |chunks| => chunks[i].(index := i))
  }

  lemma {:induction false} NoPieces(body: Bytes, walk: seq<Section>, config: Config, i: nat)
    requires forall k :: 0 <= k < |walk| ==> InBody(body, walk[k])
    requires i < |walk| && PiecesOf(body, walk[i], config).None?
    ensures AllPieces(body, walk, config).None?
    decreases |walk|
  {
    if i < |walk| - 1 {
      NoPieces(body, walk[..|walk| - 1], config, i);
    }
  }

  lemma SectionsInOrder(body: Bytes)
    ensures InOrder(body, SectionsOf(body))
  {
    if |body| > 0 {
      SectionsPartition(body);
      PartitionInOrder(SectionsOf(body), 0, |body|);
    }
  }

  lemma {:induction false} PartitionInOrder(out: seq<Section>, start: nat, end: nat)
    requires Partition(out, start, end)
    ensures forall i, j :: 0 <= i < j < |out| ==> out[i].end <= out[j].start
    ensures forall i :: 0 <= i < |out| ==> out[i].end <= end
    decreases |out|
  {
    if |out| > 1 {
      var rest := out[1..];
      assert forall i :: 0 <= i < |rest| ==> rest[i] == out[i + 1];
      PartitionInOrder(rest, out[1].start, end);
      assert out[0].end == out[0 + 1].start;
      forall j | 1 <= j < |out| ensures out[0].end <= out[j].start {
        assert rest[j - 1] == out[j];
      }
    }
  }

  ghost predicate PackedFrom(body: Bytes, target: nat, raw: seq<Section>, cuts: seq<nat>, walk: seq<Section>) {
    && InOrder(body, raw)
    && (forall s :: s in raw <==> s in SectionsOf(body) && InBody(body, s) && !Blank(body[s.start..s.end]))
    && PacksAll(raw, target, cuts, walk)
  }

  ghost predicate IsPackedWalk(body: Bytes, target: nat, walk: seq<Section>) {
    exists raw, cuts :: PackedFrom(body, target, raw, cuts, walk)
  }
}
