/** What chunking guarantees for every body and every target of at least four bytes. */
module ChunkTheorems {
  import opened Common
  import opened Utf8
  import opened SplitPoint
  import opened Sections
  import opened ChunkSpans
  import opened Chunker

  // ----- trimming keeps characters whole -----

  lemma SpaceIsWhole(s: Bytes, i: nat)
    requires WellFormed(s) && i < |s| && SpaceWidth(s, i) > 0
    ensures !IsCont(s[i]) && Boundary(s, i) && Boundary(s, i + SpaceWidth(s, i))
  {
    assert CharAt(s, i);
  }

  lemma {:induction false} SkipStopsAtBoundary(s: Bytes, i: nat)
    requires WellFormed(s) && i <= |s| && Boundary(s, i)
    ensures Boundary(s, SkipSpace(s, i))
    decreases |s| - i
  {
    if i < |s| && SpaceWidth(s, i) > 0 {
      SpaceIsWhole(s, i);
      SkipStopsAtBoundary(s, i + SpaceWidth(s, i));
    }
  }

  lemma {:induction false} DropStopsAtBoundary(s: Bytes, lo: nat, hi: nat)
    requires WellFormed(s) && lo <= hi <= |s| && Boundary(s, hi)
    ensures Boundary(s, DropSpace(s, lo, hi))
    decreases hi
  {
    var w := SpaceBefore(s, lo, hi);
    if w > 0 {
      SpaceIsWhole(s, hi - w);
      DropStopsAtBoundary(s, lo, hi - w);
    }
  }

  lemma TrimIsWellFormed(s: Bytes)
    requires WellFormed(s)
    ensures WellFormed(Trim(s))
  {
    SkipStopsAtBoundary(s, 0);
    DropStopsAtBoundary(s, TrimLo(s), |s|);
    SliceWellFormed(s, TrimLo(s), TrimHi(s));
  }

  // ----- the pieces of one section -----

  /** The piece that a span of a section yields. */
  function PieceAt(body: Bytes, s: Section, span: Span): Piece
    requires InBody(body, s) && span.start <= span.end <= s.end - s.start
  {
    Piece(s.path, s.start + span.start, Trim(body[s.start..s.end][span.start..span.end]))
  }

  predicate Inked(body: Bytes, s: Section, span: Span)
    requires InBody(body, s) && span.start <= span.end <= s.end - s.start
  {
    !Blank(body[s.start..s.end][span.start..span.end])
  }

  /** The pieces are those of the spans that are not blank. */
  lemma {:induction false} PieceMembers(body: Bytes, s: Section, spans: seq<Span>)
    requires InBody(body, s) && Inside(spans, s.end - s.start)
    ensures forall p :: p in PiecesOfSpans(body, s, spans) <==>
              exists i :: 0 <= i < |spans| && Inked(body, s, spans[i]) && p == PieceAt(body, s, spans[i])
    decreases |spans|
  {
    hide Trim;
    if |spans| > 0 {
      var rest := spans[1..];
      PieceMembers(body, s, rest);
      assert forall i :: 0 < i < |spans| ==> spans[i] == rest[i - 1];
      assert PiecesOfSpans(body, s, spans) ==
             (if Inked(body, s, spans[0]) then [PieceAt(body, s, spans[0])] else []) + PiecesOfSpans(body, s, rest);
      forall p
        ensures p in PiecesOfSpans(body, s, spans) <==>
                exists i :: 0 <= i < |spans| && Inked(body, s, spans[i]) && p == PieceAt(body, s, spans[i])
      {
        if p in PiecesOfSpans(body, s, rest) {
          var i :| 0 <= i < |rest| && Inked(body, s, rest[i]) && p == PieceAt(body, s, rest[i]);
          assert spans[i + 1] == rest[i];
        }
        if i :| 0 < i < |spans| && Inked(body, s, spans[i]) && p == PieceAt(body, s, spans[i]) {
          assert rest[i - 1] == spans[i];
        }
      }
    }
  }

  /**
   * A piece is the trimmed text of a span of at most `target` bytes between character boundaries, is not empty,
   * and stays within its section.
   */
  ghost predicate GoodPiece(body: Bytes, s: Section, p: Piece, target: nat) {
    && p.path == s.path && 0 < |p.text| <= target && WellFormed(p.text)
    && Boundary(body, p.offset)
    && exists end :: s.start <= p.offset < end <= s.end && end - p.offset <= target && Boundary(body, end)
                     && end <= |body| && p.text == Trim(body[p.offset..end])
  }

  /** Byte `k` of the body is part of the piece's text, at its own place. */
  ghost predicate Shows(body: Bytes, p: Piece, k: nat) {
    exists lo, hi :: p.offset <= lo <= k < hi <= |body| && p.text == body[lo..hi]
  }

  ghost predicate SectionAtBoundaries(body: Bytes, s: Section) {
    InBody(body, s) && Boundary(body, s.start) && Boundary(body, s.end)
  }

  lemma SliceOfSlice(s: Bytes, a: nat, b: nat, c: nat, d: nat)
    requires a <= b <= |s| && c <= d <= b - a
    ensures s[a..b][c..d] == s[a + c..a + d]
  {
    assert forall i :: 0 <= i < d - c ==> s[a..b][c..d][i] == s[a + c..a + d][i];
    assert s[a..b][c..d] == s[a + c..a + d];
  }

  lemma TextIsGood(piece: Bytes, target: nat)
    requires WellFormed(piece) && |piece| <= target && !Blank(piece)
    ensures 0 < |Trim(piece)| <= target && WellFormed(Trim(piece))
  {
    TrimIsWellFormed(piece);
  }

  lemma SpanBoundaries(body: Bytes, s: Section, span: Span, target: nat)
    requires WellFormed(body) && SectionAtBoundaries(body, s) && Fits(body[s.start..s.end], span, target)
    ensures WellFormed(body[s.start..s.end][span.start..span.end])
    ensures Boundary(body, s.start + span.start) && Boundary(body, s.start + span.end)
  {
    hide WellFormed, Boundary;
    SliceWellFormed(body, s.start, s.end);
    SliceWellFormed(body[s.start..s.end], span.start, span.end);
  }

  lemma SpanIsGood(body: Bytes, s: Section, span: Span, target: nat)
    requires WellFormed(body) && SectionAtBoundaries(body, s) && Fits(body[s.start..s.end], span, target)
    requires Inked(body, s, span)
    ensures GoodPiece(body, s, PieceAt(body, s, span), target)
  {
    hide WellFormed, Boundary, Trim;
    SpanBoundaries(body, s, span, target);
    TextIsGood(body[s.start..s.end][span.start..span.end], target);
    SliceOfSlice(body, s.start, s.end, span.start, span.end);
  }

  lemma SpanShows(body: Bytes, s: Section, span: Span, k: nat)
    requires InBody(body, s) && span.start <= span.end <= s.end - s.start
    requires s.start + span.start <= k < s.start + span.end && !IsWhite(body, k)
    ensures Inked(body, s, span) && Shows(body, PieceAt(body, s, span), k)
  {
    hide IsWhite, TrimLo, TrimHi;
    var a, b := s.start + span.start, s.start + span.end;
    SliceOfSlice(body, s.start, s.end, span.start, span.end);
    TrimInSlice(body, a, b, k);
    SliceOfSlice(body, a, b, TrimLo(body[a..b]), TrimHi(body[a..b]));
    var lo, hi := a + TrimLo(body[a..b]), a + TrimHi(body[a..b]);
    assert PieceAt(body, s, span).text == body[lo..hi];
  }

  /** One section yields good pieces that show every byte of it but white space. */
  lemma SectionLaws(body: Bytes, s: Section, config: Config)
    requires WellFormed(body) && SectionAtBoundaries(body, s) && config.target >= 4
    ensures PiecesOf(body, s, config).Some?
    ensures forall p :: p in PiecesOf(body, s, config).value ==> GoodPiece(body, s, p, config.target)
    ensures forall k :: s.start <= k < s.end && !IsWhite(body, k) ==>
              exists p :: p in PiecesOf(body, s, config).value && Shows(body, p, k)
  {
    var raw := body[s.start..s.end];
    SliceWellFormed(body, s.start, s.end);
    hide WellFormed, Trim, GoodPiece, Shows, IsWhite, Fits;
    if Blank(raw) {
      forall k | s.start <= k < s.end ensures IsWhite(body, k) {
        BlankIsWhite(body, s, k);
      }
    } else {
      SpanLaws(raw, 0, config.target, config.overlap);
      SpansInside(raw, 0, config.target, config.overlap);
      var spans := SpansFrom(raw, 0, config.target, config.overlap).value;
      PieceMembers(body, s, spans);
      assert PiecesOf(body, s, config) == Some(PiecesOfSpans(body, s, spans));
      hide SpansFrom, PiecesOf, PiecesOfSpans;
      forall p | p in PiecesOfSpans(body, s, spans) ensures GoodPiece(body, s, p, config.target) {
        var i :| 0 <= i < |spans| && Inked(body, s, spans[i]) && p == PieceAt(body, s, spans[i]);
        SpanIsGood(body, s, spans[i], config.target);
      }
      forall k | s.start <= k < s.end && !IsWhite(body, k)
        ensures exists p :: p in PiecesOfSpans(body, s, spans) && Shows(body, p, k)
      {
        WalkCovers(raw, spans, 0, config.target, config.overlap, k - s.start);
        var i :| 0 <= i < |spans| && spans[i].start <= k - s.start < spans[i].end;
        SpanShows(body, s, spans[i], k);
        assert PieceAt(body, s, spans[i]) in PiecesOfSpans(body, s, spans);
      }
    }
  }

  lemma BlankIsWhite(body: Bytes, s: Section, k: nat)
    requires InBody(body, s) && Blank(body[s.start..s.end]) && s.start <= k < s.end
    ensures IsWhite(body, k)
  {
    if IsWhite(body, k) {
    } else {
      TrimInSlice(body, s.start, s.end, k);
    }
  }

  // ----- the whole note -----

  /** The sections that a walk visits lie at boundaries and miss white space only. */
  ghost predicate GoodWalk(body: Bytes, walk: seq<Section>) {
    && (forall i :: 0 <= i < |walk| ==> SectionAtBoundaries(body, walk[i]))
    && (forall k :: 0 <= k < |body| && !IsWhite(body, k) ==> exists i :: 0 <= i < |walk| && walk[i].start <= k < walk[i].end)
  }

  lemma {:induction false} PartitionHits(out: seq<Section>, start: nat, end: nat, k: nat)
    requires Partition(out, start, end) && start <= k < end
    ensures exists i :: 0 <= i < |out| && out[i].start <= k < out[i].end
    decreases |out|
  {
    if k < out[0].end {
      assert out[0].start <= k < out[0].end;
    } else {
      var rest := out[1..];
      assert forall i :: 0 <= i < |rest| ==> rest[i] == out[i + 1];
      assert |out| > 1;
      PartitionHits(rest, out[1].start, end, k);
      var i :| 0 <= i < |rest| && rest[i].start <= k < rest[i].end;
      assert out[i + 1].start <= k < out[i + 1].end;
    }
  }

  lemma SectionsAtBoundaries(body: Bytes)
    requires WellFormed(body)
    ensures forall i :: 0 <= i < |SectionsOf(body)| ==> SectionAtBoundaries(body, SectionsOf(body)[i])
  {
    SectionsInOrder(body);
    if |body| > 0 {
      SectionsPartition(body);
    }
    hide SectionsOf, WellFormed, LineStart, Boundary, Partition;
    var out := SectionsOf(body);
    forall i | 0 <= i < |out| ensures SectionAtBoundaries(body, out[i]) {
      assert out[i] in out;
      LineStartIsBoundary(body, out[i].start);
      LineStartIsBoundary(body, out[i].end);
    }
  }

  lemma SectionsHit(body: Bytes, k: nat)
    requires k < |body|
    ensures exists i :: 0 <= i < |SectionsOf(body)| && SectionsOf(body)[i].start <= k < SectionsOf(body)[i].end
  {
    hide SectionsOf, LineStart, Partition;
    SectionsPartition(body);
    PartitionHits(SectionsOf(body), 0, |body|, k);
  }

  lemma SectionsWalk(body: Bytes)
    requires WellFormed(body)
    ensures GoodWalk(body, SectionsOf(body))
  {
    hide SectionsOf, WellFormed, IsWhite, SectionAtBoundaries;
    SectionsAtBoundaries(body);
    var out := SectionsOf(body);
    forall k | 0 <= k < |body| && !IsWhite(body, k)
      ensures exists i :: 0 <= i < |out| && out[i].start <= k < out[i].end
    {
      SectionsHit(body, k);
    }
  }

  lemma PackedBoundaries(body: Bytes, raw: seq<Section>, target: nat, cuts: seq<nat>, walk: seq<Section>, g: nat)
    requires PacksAll(raw, target, cuts, walk) && g < |walk| && InOrder(body, raw)
    requires forall i :: 0 <= i < |raw| ==> SectionAtBoundaries(body, raw[i])
    ensures SectionAtBoundaries(body, walk[g])
  {
    PackedBounds(body, raw, target, cuts, walk);
    assert PackedGroup(raw, target, cuts[g], cuts[g + 1], walk[g]);
  }

  lemma InkIsPacked(body: Bytes, target: nat, raw: seq<Section>, cuts: seq<nat>, walk: seq<Section>, s: Section, k: nat)
    requires PackedFrom(body, target, raw, cuts, walk) && s in SectionsOf(body) && InBody(body, s)
    requires s.start <= k < s.end && !IsWhite(body, k)
    ensures exists g :: 0 <= g < |walk| && walk[g].start <= k < walk[g].end
  {
    hide IsWhite, SectionsOf, Trim, PacksAll;
    TrimInSlice(body, s.start, s.end, k);
    assert s in raw;
    var i :| 0 <= i < |raw| && raw[i] == s;
    PackedCovers(body, raw, target, cuts, walk, i);
  }

  lemma PackedWalk(body: Bytes, target: nat, raw: seq<Section>, cuts: seq<nat>, walk: seq<Section>)
    requires WellFormed(body) && PackedFrom(body, target, raw, cuts, walk)
    ensures GoodWalk(body, walk)
  {
    SectionsWalk(body);
    hide WellFormed, IsWhite, SectionsOf, Trim, PacksAll, Boundary;
    var all := SectionsOf(body);
    forall i | 0 <= i < |raw| ensures SectionAtBoundaries(body, raw[i]) {
      assert raw[i] in raw;
      var j :| 0 <= j < |all| && all[j] == raw[i];
    }
    forall g | 0 <= g < |walk| ensures SectionAtBoundaries(body, walk[g]) {
      PackedBoundaries(body, raw, target, cuts, walk, g);
    }
    forall k | 0 <= k < |body| && !IsWhite(body, k) ensures exists g :: 0 <= g < |walk| && walk[g].start <= k < walk[g].end {
      var j :| 0 <= j < |all| && all[j].start <= k < all[j].end;
      assert SectionAtBoundaries(body, all[j]);
      InkIsPacked(body, target, raw, cuts, walk, all[j], k);
    }
  }

  /** What every chunked note satisfies. */
  ghost predicate WellChunked(body: Bytes, walk: seq<Section>, pieces: seq<Piece>, target: nat) {
    && (forall p :: p in pieces ==> exists i :: 0 <= i < |walk| && GoodPiece(body, walk[i], p, target))
    && (forall k :: 0 <= k < |body| && !IsWhite(body, k) ==> exists p :: p in pieces && Shows(body, p, k))
  }

  ghost predicate Visits(body: Bytes, walk: seq<Section>, pieces: seq<Piece>, target: nat) {
    && (forall p :: p in pieces ==> exists i :: 0 <= i < |walk| && GoodPiece(body, walk[i], p, target))
    && (forall i, k :: 0 <= i < |walk| && walk[i].start <= k < walk[i].end <= |body| && !IsWhite(body, k) ==>
          exists p :: p in pieces && Shows(body, p, k))
  }

  lemma {:induction false} AllPiecesLaws(body: Bytes, walk: seq<Section>, config: Config)
    requires WellFormed(body) && config.target >= 4
    requires forall i :: 0 <= i < |walk| ==> InBody(body, walk[i]) && SectionAtBoundaries(body, walk[i])
    ensures AllPieces(body, walk, config).Some?
    ensures Visits(body, walk, AllPieces(body, walk, config).value, config.target)
    decreases |walk|
  {
    hide WellFormed, GoodPiece, Shows, IsWhite, Boundary, PiecesOf;
    if |walk| > 0 {
      var front, last := walk[..|walk| - 1], walk[|walk| - 1];
      AllPiecesLaws(body, front, config);
      SectionLaws(body, last, config);
      VisitsOneMore(body, front, last, AllPieces(body, front, config).value, PiecesOf(body, last, config).value, config.target);
      assert walk == front + [last];
      hide Visits;
    }
  }

  lemma VisitsOneMore(body: Bytes, walk: seq<Section>, s: Section, before: seq<Piece>, more: seq<Piece>, target: nat)
    requires Visits(body, walk, before, target)
    requires forall p :: p in more ==> GoodPiece(body, s, p, target)
    requires s.end <= |body| && forall k :: s.start <= k < s.end && !IsWhite(body, k) ==> exists p :: p in more && Shows(body, p, k)
    ensures Visits(body, walk + [s], before + more, target)
  {
    hide GoodPiece, Shows, IsWhite;
    var walk', pieces := walk + [s], before + more;
    forall p | p in pieces ensures exists i :: 0 <= i < |walk'| && GoodPiece(body, walk'[i], p, target) {
      if p in before {
        var i :| 0 <= i < |walk| && GoodPiece(body, walk[i], p, target);
        assert walk'[i] == walk[i];
      } else {
        assert walk'[|walk|] == s;
      }
    }
    forall i, k | 0 <= i < |walk'| && walk'[i].start <= k < walk'[i].end <= |body| && !IsWhite(body, k)
      ensures exists p :: p in pieces && Shows(body, p, k)
    {
      if i < |walk| {
        assert walk[i] == walk'[i];
        var p :| p in before && Shows(body, p, k);
        assert p in pieces;
      } else {
        var p :| p in more && Shows(body, p, k);
        assert p in pieces;
      }
    }
  }

  lemma GoodWalkChunks(body: Bytes, config: Config, walk: seq<Section>)
    requires WellFormed(body) && config.target >= 4 && GoodWalk(body, walk)
    requires forall i :: 0 <= i < |walk| ==> InBody(body, walk[i])
    ensures AllPieces(body, walk, config).Some?
    ensures WellChunked(body, walk, AllPieces(body, walk, config).value, config.target)
  {
    hide WellFormed, GoodPiece, Shows, IsWhite, AllPieces, SectionAtBoundaries;
    AllPiecesLaws(body, walk, config);
    var pieces := AllPieces(body, walk, config).value;
    forall k | 0 <= k < |body| && !IsWhite(body, k) ensures exists p :: p in pieces && Shows(body, p, k) {
      var i :| 0 <= i < |walk| && walk[i].start <= k < walk[i].end;
      WalkEnd(body, walk, i);
    }
  }

  lemma WalkEnd(body: Bytes, walk: seq<Section>, i: nat)
    requires i < |walk| && forall j :: 0 <= j < |walk| ==> InBody(body, walk[j])
    ensures walk[i].end <= |body|
  {
  }

  /**
   * For every body and every target of at least four bytes, packing on or off: chunking succeeds, every piece is
   * good, and every byte but white space is shown by some piece.
   */
  lemma EveryNoteIsWellChunked(body: Bytes, config: Config, walk: seq<Section>)
    requires WellFormed(body) && config.target >= 4 && IsWalk(body, config, walk)
    ensures AllPieces(body, walk, config).Some?
    ensures WellChunked(body, walk, AllPieces(body, walk, config).value, config.target)
  {
    hide WellFormed, SectionsOf, PackedFrom, GoodWalk, WellChunked, AllPieces;
    if config.packing {
      var raw, cuts :| PackedFrom(body, config.target, raw, cuts, walk);
      PackedWalk(body, config.target, raw, cuts, walk);
    } else {
      SectionsWalk(body);
    }
    GoodWalkChunks(body, config, walk);
  }

  /** The chunks themselves: dense indices, and text that shows every byte of the body but white space. */
  lemma ChunksShowTheBody(body: Bytes, config: Config, chunks: Option<seq<Chunk>>)
    requires WellFormed(body) && config.target >= 4 && exists walk :: ChunkedAlong(body, config, walk, chunks)
    ensures chunks.Some?
    ensures forall i :: 0 <= i < |chunks.value| ==>
              && chunks.value[i].index == i && 0 < |chunks.value[i].text| <= config.target
              && WellFormed(chunks.value[i].text) && chunks.value[i].breadcrumb == Crumb(chunks.value[i].headingPath)
    ensures forall k :: 0 <= k < |body| && !IsWhite(body, k) ==>
              exists i, lo, hi :: 0 <= i < |chunks.value| && chunks.value[i].offset <= lo <= k < hi <= |body| &&
                                  chunks.value[i].text == body[lo..hi]
  {
    hide WellFormed, IsWhite, AllPieces, Crumb, Boundary, IsPackedWalk, SectionsOf;
    var walk :| ChunkedAlong(body, config, walk, chunks);
    EveryNoteIsWellChunked(body, config, walk);
    var pieces := AllPieces(body, walk, config).value;
    forall i | 0 <= i < |chunks.value| ensures 0 < |chunks.value[i].text| <= config.target && WellFormed(chunks.value[i].text) {
      assert pieces[i] in pieces;
    }
    forall k | 0 <= k < |body| && !IsWhite(body, k)
      ensures exists i, lo, hi :: 0 <= i < |chunks.value| && chunks.value[i].offset <= lo <= k < hi <= |body| &&
                                  chunks.value[i].text == body[lo..hi]
    {
      var p :| p in pieces && Shows(body, p, k);
      var i :| 0 <= i < |pieces| && pieces[i] == p;
      var lo, hi :| p.offset <= lo <= k < hi <= |body| && p.text == body[lo..hi];
      assert chunks.value[i].text == body[lo..hi];
    }
  }
}
