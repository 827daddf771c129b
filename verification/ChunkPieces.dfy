/** Which pieces a note is cut into: their order, their places and the heading trail each one carries. */
module ChunkPieces {
  import opened Common
  import opened Utf8
  import opened SplitPoint
  import opened Sections
  import opened HeadingText
  import opened ChunkSpans
  import opened Chunker
  import opened ChunkTheorems

  // ----- the breadcrumb -----

  /** The breadcrumb joins the trail with " > ": nothing for no heading, and one more segment at a time. */
  lemma {:induction false} CrumbJoins(path: seq<Bytes>, segment: Bytes)
    ensures Crumb([]) == [] && Crumb([segment]) == segment
    ensures |path| > 0 ==> Crumb(path + [segment]) == Crumb(path) + [0x20, 0x3E, 0x20] + segment
  {
    if |path| > 1 {
      CrumbJoins(path[1..], segment);
      assert (path + [segment])[1..] == path[1..] + [segment];
    } else if |path| == 1 {
      assert (path + [segment])[1..] == [segment];
    }
  }

  // ----- the pieces of one section -----

  /** The pieces are those of the inked spans, one each and in order; `at` tells which span each one comes from. */
  ghost predicate PiecesAlong(body: Bytes, s: Section, spans: seq<Span>, pieces: seq<Piece>, at: seq<nat>)
    requires InBody(body, s) && Inside(spans, s.end - s.start)
  {
    && |at| == |pieces|
    && (forall a, b :: 0 <= a < b < |at| ==> at[a] < at[b])
    && (forall i: nat :: i in at <==> i < |spans| && Inked(body, s, spans[i]))
    && (forall a :: 0 <= a < |at| ==> at[a] < |spans| && pieces[a] == PieceAt(body, s, spans[at[a]]))
  }

  lemma AlongSnoc(body: Bytes, s: Section, spans: seq<Span>, last: Span, pieces: seq<Piece>, at: seq<nat>)
    requires InBody(body, s) && Inside(spans, s.end - s.start) && last.start <= last.end <= s.end - s.start
    requires PiecesAlong(body, s, spans, pieces, at)
    ensures Inside(spans + [last], s.end - s.start)
    ensures if Inked(body, s, last) then
              PiecesAlong(body, s, spans + [last], pieces + [PieceAt(body, s, last)], at + [|spans|])
            else PiecesAlong(body, s, spans + [last], pieces, at)
  {
    hide Inked, PieceAt;
    var spans' := spans + [last];
    assert forall i :: 0 <= i < |spans| ==> spans'[i] == spans[i];
    if Inked(body, s, last) {
      var at' := at + [|spans|];
      assert forall i: nat :: i in at' <==> i in at || i == |spans|;
    }
  }

  lemma AlongNone(body: Bytes, s: Section)
    requires InBody(body, s)
    ensures PiecesAlong(body, s, [], PiecesOfSpans(body, s, []), [])
  {
  }

  lemma {:induction false} SpansGivePieces(body: Bytes, s: Section, spans: seq<Span>) returns (at: seq<nat>)
    requires InBody(body, s) && Inside(spans, s.end - s.start)
    ensures PiecesAlong(body, s, spans, PiecesOfSpans(body, s, spans), at)
    decreases |spans|
  {
    hide PiecesAlong, PiecesOfSpans, Trim;
    if |spans| == 0 {
      AlongNone(body, s);
      at := [];
    } else {
      var front, last := spans[..|spans| - 1], spans[|spans| - 1];
      assert spans == front + [last];
      at := SpansGivePieces(body, s, front);
      PiecesSnoc(body, s, front, last);
      AlongSnoc(body, s, front, last, PiecesOfSpans(body, s, front), at);
      if Inked(body, s, last) {
        at := at + [|front|];
      } else {
        assert PiecesOfSpans(body, s, front) + [] == PiecesOfSpans(body, s, front);
      }
    }
  }

  /** The section is cut along the walk of best cuts, and its pieces are those of the inked spans. */
  ghost predicate CutIntoPieces(body: Bytes, s: Section, config: Config, pieces: seq<Piece>)
    requires InBody(body, s)
  {
    exists spans: seq<Span>, at: seq<nat> ::
      && Walk(body[s.start..s.end], spans, 0, config.target, config.overlap) && Inside(spans, s.end - s.start)
      && PiecesAlong(body, s, spans, pieces, at)
  }

  /** Offsets rise, from `lo` on and before `hi`. */
  ghost predicate PiecesRise(pieces: seq<Piece>, lo: nat, hi: nat) {
    && (forall i :: 0 <= i < |pieces| ==> lo <= pieces[i].offset < hi)
    && (forall i, j :: 0 <= i < j < |pieces| ==> pieces[i].offset < pieces[j].offset)
  }

  lemma {:induction false} StartsRise(raw: Bytes, spans: seq<Span>, from: nat, target: nat, overlap: nat, i: nat, j: nat)
    requires Walk(raw, spans, from, target, overlap) && i < j < |spans|
    ensures spans[i].start < spans[j].start < |raw|
    decreases j
  {
    hide IsCut;
    assert Fits(raw, spans[j], target);
    assert Follows(raw, spans[j - 1], spans[j - 1 + 1], overlap);
    if i < j - 1 {
      StartsRise(raw, spans, from, target, overlap, i, j - 1);
    }
  }

  lemma AlongInside(body: Bytes, s: Section, config: Config, spans: seq<Span>, pieces: seq<Piece>, at: seq<nat>, a: nat)
    requires InBody(body, s) && Inside(spans, s.end - s.start) && a < |pieces|
    requires Walk(body[s.start..s.end], spans, 0, config.target, config.overlap)
    requires PiecesAlong(body, s, spans, pieces, at)
    ensures at[a] < |spans| && pieces[a].offset == s.start + spans[at[a]].start < s.end
  {
    hide Inked, Trim, Follows, IsCut;
    assert Fits(body[s.start..s.end], spans[at[a]], config.target);
  }

  lemma AlongRises(body: Bytes, s: Section, config: Config, spans: seq<Span>, pieces: seq<Piece>, at: seq<nat>)
    requires InBody(body, s) && Inside(spans, s.end - s.start)
    requires Walk(body[s.start..s.end], spans, 0, config.target, config.overlap)
    requires PiecesAlong(body, s, spans, pieces, at)
    ensures PiecesRise(pieces, s.start, s.end)
  {
    assert |at| == |pieces| && forall a, b :: 0 <= a < b < |at| ==> at[a] < at[b];
    hide PiecesAlong, Walk;
    forall a: nat | a < |pieces| ensures s.start <= pieces[a].offset < s.end {
      AlongInside(body, s, config, spans, pieces, at, a);
    }
    forall a: nat, b: nat | a < b < |pieces| ensures pieces[a].offset < pieces[b].offset {
      AlongInside(body, s, config, spans, pieces, at, a);
      AlongInside(body, s, config, spans, pieces, at, b);
      StartsRise(body[s.start..s.end], spans, 0, config.target, config.overlap, at[a], at[b]);
    }
  }

  /** One section: nothing if it is blank, otherwise the pieces of its walk, their offsets rising within it. */
  lemma SectionPieces(body: Bytes, s: Section, config: Config)
    requires WellFormed(body) && SectionAtBoundaries(body, s) && config.target >= 4
    ensures PiecesOf(body, s, config).Some?
    ensures PiecesRise(PiecesOf(body, s, config).value, s.start, s.end)
    ensures if Blank(body[s.start..s.end]) then PiecesOf(body, s, config).value == []
            else CutIntoPieces(body, s, config, PiecesOf(body, s, config).value)
  {
    var raw := body[s.start..s.end];
    SliceWellFormed(body, s.start, s.end);
    hide WellFormed, Trim, Walk, PiecesAlong, Blank;
    if !Blank(raw) {
      SpanLaws(raw, 0, config.target, config.overlap);
      SpansInside(raw, 0, config.target, config.overlap);
      var spans := SpansFrom(raw, 0, config.target, config.overlap).value;
      var at := SpansGivePieces(body, s, spans);
      assert PiecesOf(body, s, config) == Some(PiecesOfSpans(body, s, spans));
      hide SpansFrom, PiecesOf, PiecesOfSpans, PiecesRise;
      AlongRises(body, s, config, spans, PiecesOfSpans(body, s, spans), at);
    }
  }

  // ----- the whole note -----

  lemma RiseConcat(a: seq<Piece>, b: seq<Piece>, lo: nat, mid: nat, mid': nat, hi: nat)
    requires PiecesRise(a, lo, mid) && PiecesRise(b, mid', hi) && lo <= mid <= mid' <= hi
    ensures PiecesRise(a + b, lo, hi)
  {
  }

  lemma {:induction false} NotePieces(body: Bytes, walk: seq<Section>, config: Config)
    requires WellFormed(body) && config.target >= 4 && InOrder(body, walk)
    requires forall i :: 0 <= i < |walk| ==> SectionAtBoundaries(body, walk[i])
    ensures AllPieces(body, walk, config).Some?
    ensures PiecesRise(AllPieces(body, walk, config).value, 0, if |walk| == 0 then 0 else walk[|walk| - 1].end)
    decreases |walk|
  {
    hide WellFormed, PiecesOf, PiecesRise, Boundary;
    if |walk| == 0 {
      EmptyRises();
    } else {
      var front, last := walk[..|walk| - 1], walk[|walk| - 1];
      NotePieces(body, front, config);
      SectionPieces(body, last, config);
      var mid := if |front| == 0 then 0 else front[|front| - 1].end;
      RiseConcat(AllPieces(body, front, config).value, PiecesOf(body, last, config).value, 0, mid, last.start, last.end);
    }
  }

  lemma EmptyRises()
    ensures PiecesRise([], 0, 0)
  {
  }

  lemma PackedInOrder(body: Bytes, raw: seq<Section>, target: nat, cuts: seq<nat>, out: seq<Section>)
    requires InOrder(body, raw) && PacksAll(raw, target, cuts, out)
    ensures InOrder(body, out)
  {
    PackedBounds(body, raw, target, cuts, out);
    forall g, h | 0 <= g < h < |out| ensures out[g].end <= out[h].start {
      CutsRise(raw, target, cuts, out, g + 1, h);
      assert PackedGroup(raw, target, cuts[g], cuts[g + 1], out[g]);
      assert PackedGroup(raw, target, cuts[h], cuts[h + 1], out[h]);
    }
  }

  lemma {:induction false} CutsRise(raw: seq<Section>, target: nat, cuts: seq<nat>, out: seq<Section>, g: nat, h: nat)
    requires Packed(raw, target, cuts, out) && g <= h <= |out|
    ensures cuts[g] <= cuts[h]
    decreases h
  {
    if g < h {
      CutsRise(raw, target, cuts, out, g, h - 1);
      assert PackedGroup(raw, target, cuts[h - 1], cuts[h - 1 + 1], out[h - 1]);
    }
  }

  lemma WalkInOrder(body: Bytes, config: Config, walk: seq<Section>)
    requires WellFormed(body) && IsWalk(body, config, walk)
    ensures InOrder(body, walk) && forall i :: 0 <= i < |walk| ==> SectionAtBoundaries(body, walk[i])
  {
    hide WellFormed, SectionsOf, PacksAll, IsWhite, Boundary, Trim;
    if config.packing {
      var raw, cuts :| PackedFrom(body, config.target, raw, cuts, walk);
      PackedInOrder(body, raw, config.target, cuts, walk);
      PackedWalk(body, config.target, raw, cuts, walk);
    } else {
      SectionsInOrder(body);
      SectionsAtBoundaries(body);
    }
  }

  /** Chunks come in the order of the text: each starts strictly after the one before it. */
  lemma ChunksInOrder(body: Bytes, config: Config, walk: seq<Section>, chunks: Option<seq<Chunk>>)
    requires WellFormed(body) && config.target >= 4 && ChunkedAlong(body, config, walk, chunks)
    ensures chunks.Some?
    ensures forall i, j :: 0 <= i < j < |chunks.value| ==> chunks.value[i].offset < chunks.value[j].offset
  {
    WalkInOrder(body, config, walk);
    hide WellFormed, IsWalk, AllPieces, Crumb, SectionAtBoundaries;
    NotePieces(body, walk, config);
  }

  // ----- the trail of each chunk -----

  /** The first `n` headings are those up to position `k`. */
  ghost predicate UpTo(hs: seq<Heading>, n: nat, k: nat) {
    n <= |hs| && (forall i :: 0 <= i < n ==> hs[i].offset <= k) && (forall i :: n <= i < |hs| ==> hs[i].offset > k)
  }

  /** `path` is the trail of the headings shown at position `k`. */
  ghost predicate TrailShownAt(hs: seq<Heading>, k: nat, path: seq<Bytes>) {
    exists n: nat :: UpTo(hs, n, k) && IsTrail(hs, n, path)
  }

  lemma SectionIsHeaded(body: Bytes, hs: seq<Heading>, out: seq<Section>, i: nat)
    requires CutAtHeadings(body, hs, out) && i < |hs|
    ensures |out| == Preface(hs) + |hs| && out[Preface(hs) + i].start == hs[i].offset
    ensures IsTrail(hs, i + 1, out[Preface(hs) + i].path)
  {
    hide IsTrail;
    assert StartsAtHeading(hs, Preface(hs) + i - Preface(hs), out[Preface(hs) + i]);
  }

  lemma ShownUpTo(hs: seq<Heading>, n: nat, o: nat)
    requires OffsetsRise(hs) && n <= |hs| && (n > 0 ==> hs[n - 1].offset <= o) && (n < |hs| ==> o < hs[n].offset)
    ensures UpTo(hs, n, o)
  {
  }

  lemma SectionTrail(body: Bytes, hs: seq<Heading>, out: seq<Section>, k: nat, o: nat)
    requires OffsetsRise(hs) && CutAtHeadings(body, hs, out) && k < |out| && out[k].start <= o < out[k].end
    ensures TrailShownAt(hs, o, out[k].path)
  {
    var preface := Preface(hs);
    assert |out| == preface + |hs| && (k < preface ==> out[k].path == []);
    assert k + 1 < |out| ==> out[k].end == out[k + 1].start;
    hide IsTrail, CutAtHeadings, OffsetsRise;
    var n := if k < preface then 0 else k - preface + 1;
    if n < |hs| {
      SectionIsHeaded(body, hs, out, n);
    }
    if k < preface {
      NoTrail(hs);
    } else {
      SectionIsHeaded(body, hs, out, k - preface);
    }
    hide Preface;
    ShownUpTo(hs, n, o);
    assert UpTo(hs, n, o) && IsTrail(hs, n, out[k].path);
  }

  lemma NoTrail(hs: seq<Heading>)
    ensures IsTrail(hs, 0, [])
  {
    assert TrailAt(hs, 0, [], []);
  }

  /**
   * Every chunk carries the trail of the headings shown at the start of the span it was cut from: the section, or
   * with packing the first section of its group. Without packing that is the trail shown at the chunk itself.
   */
  lemma PieceTrail(body: Bytes, config: Config, walk: seq<Section>, hs: seq<Heading>, p: Piece)
    requires WellFormed(body) && config.target >= 4 && IsWalk(body, config, walk) && |body| > 0
    requires AllPieces(body, walk, config).Some? && p in AllPieces(body, walk, config).value
    requires OffsetsRise(hs) && CutAtHeadings(body, hs, SectionsOf(body))
    ensures exists i :: 0 <= i < |walk| && walk[i].start <= p.offset < walk[i].end && p.path == walk[i].path &&
                        TrailShownAt(hs, walk[i].start, p.path)
    ensures !config.packing ==> TrailShownAt(hs, p.offset, p.path)
  {
    hide WellFormed, SectionsOf, AllPieces, CutAtHeadings, TrailShownAt, Boundary, Trim, PackedFrom;
    EveryNoteIsWellChunked(body, config, walk);
    var i :| 0 <= i < |walk| && GoodPiece(body, walk[i], p, config.target);
    if config.packing {
      var raw, cuts :| PackedFrom(body, config.target, raw, cuts, walk);
      var k := GroupStart(body, config.target, raw, cuts, walk, i);
      SectionTrail(body, hs, SectionsOf(body), k, walk[i].start);
    } else {
      SectionTrail(body, hs, SectionsOf(body), i, walk[i].start);
      SectionTrail(body, hs, SectionsOf(body), i, p.offset);
    }
  }

  lemma GroupStart(body: Bytes, target: nat, raw: seq<Section>, cuts: seq<nat>, walk: seq<Section>, g: nat)
    returns (k: nat)
    requires PackedFrom(body, target, raw, cuts, walk) && g < |walk|
    ensures k < |SectionsOf(body)| && SectionsOf(body)[k].path == walk[g].path
    ensures SectionsOf(body)[k].start == walk[g].start < SectionsOf(body)[k].end
  {
    hide SectionsOf, Trim;
    assert PackedGroup(raw, target, cuts[g], cuts[g + 1], walk[g]);
    var s := raw[cuts[g]];
    assert s in raw && s in SectionsOf(body) && InBody(body, s);
    k :| 0 <= k < |SectionsOf(body)| && SectionsOf(body)[k] == s;
  }
}
