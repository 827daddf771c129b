/** What the headings of a body are, read off its text: which lines lie inside a fence, and which lines are headings. */
module HeadingText {
  import opened Common
  import opened Utf8
  import opened Sections

  // ----- lines, by their text -----

  /** `body[k..end]` is a whole line, with its line feed if it has one. */
  ghost predicate LineAt(body: Bytes, k: nat, end: nat) {
    && k < end <= |body| && (k == 0 || body[k - 1] == 0x0A) && (end == |body| || body[end - 1] == 0x0A)
    && (forall j :: k <= j < end - 1 ==> body[j] != 0x0A)
  }

  /** After white space the line starts with three backticks or three tildes. */
  ghost predicate FenceLine(line: Bytes, mark: byte) {
    exists i: nat :: FirstInk(line, i) && i + 3 <= |line| && (mark == 0x60 || mark == 0x7E) &&
                     line[i] == mark && line[i + 1] == mark && line[i + 2] == mark
  }

  /** A line with this mark starts at `k`. */
  ghost predicate FenceAt(body: Bytes, k: nat, mark: byte) {
    exists end: nat :: LineAt(body, k, end) && FenceLine(body[k..end], mark)
  }

  /**
   * Position `k` lies inside a fence with this mark: a line with the mark opened it, standing in no fence itself, and
   * no line with the same mark has come since.
   */
  ghost predicate InFence(body: Bytes, k: nat, mark: byte)
    decreases k, 0
  {
    exists o: nat :: o < k && FenceAt(body, o, mark) && Free(body, o) && NoMarkBetween(body, o, k, mark)
  }

  ghost predicate Free(body: Bytes, k: nat)
    decreases k, 1
  {
    forall m: byte :: !InFence(body, k, m)
  }

  ghost predicate NoMarkBetween(body: Bytes, o: nat, k: nat, mark: byte) {
    forall j: nat :: o < j < k ==> !FenceAt(body, j, mark)
  }

  /** After white space the line has `level` hashes, one to six, then white space; `text` is the trimmed rest. */
  ghost predicate HeadingLine(line: Bytes, level: nat, text: Bytes) {
    exists i: nat :: FirstInk(line, i) && 1 <= level <= 6 && i + level < |line| &&
                     (forall j :: i <= j < i + level ==> line[j] == 0x23) &&
                     IsWhite(line, i + level) && IsTrimOf(line[i + level..], text)
  }

  /** A heading line outside every fence. */
  ghost predicate IsHeading(body: Bytes, h: Heading) {
    && (exists end: nat :: LineAt(body, h.offset, end) && HeadingLine(body[h.offset..end], h.level, h.text))
    && Free(body, h.offset)
  }

  // ----- one line -----

  lemma {:induction false} LineEndIs(body: Bytes, offset: nat)
    requires offset < |body|
    ensures forall j :: offset <= j < LineEnd(body, offset) - 1 ==> body[j] != 0x0A
    decreases |body| - offset
  {
    if body[offset] != LF && offset + 1 < |body| {
      LineEndIs(body, offset + 1);
    }
  }

  lemma LineEndsAt(body: Bytes, k: nat, end: nat)
    requires k < |body| && LineStart(body, k)
    ensures LineAt(body, k, end) <==> end == LineEnd(body, k)
  {
    LineEndIs(body, k);
  }

  lemma FirstInkIs(line: Bytes, i: nat)
    ensures FirstInk(line, i) <==> i == TrimLo(line)
  {
    TrimStartsAtInk(line);
    hide IsWhite;
  }

  /** The mark that the scan sees on a line is the mark of the line. */
  lemma MarkIs(line: Bytes, mark: byte)
    ensures FenceMark(TrimStart(line)) == Some(mark) <==> FenceLine(line, mark)
  {
    var i := TrimLo(line);
    var trimmed := TrimStart(line);
    FirstInkIs(line, i);
    assert forall j :: 0 <= j < |trimmed| ==> trimmed[j] == line[i + j];
    hide TrimLo, FirstInk;
    if FenceLine(line, mark) {
      var i': nat :| FirstInk(line, i') && i' + 3 <= |line| && (mark == 0x60 || mark == 0x7E) &&
        line[i'] == mark && line[i' + 1] == mark && line[i' + 2] == mark;
      FirstInkIs(line, i');
      assert trimmed[..3] == [mark, mark, mark];
    }
    if FenceMark(trimmed) == Some(mark) {
      assert |trimmed| >= 3 && (trimmed[..3] == BACKTICKS || trimmed[..3] == TILDES);
      assert trimmed[0] == trimmed[..3][0] && trimmed[1] == trimmed[..3][1] && trimmed[2] == trimmed[..3][2];
      assert line[i] == mark && line[i + 1] == mark && line[i + 2] == mark;
    }
  }

  lemma {:induction false} HashesAre(s: Bytes, i: nat, n: nat)
    requires i + n <= |s|
    requires forall j :: i <= j < i + n ==> s[j] == 0x23
    requires i + n < |s| ==> s[i + n] != 0x23
    ensures Hashes(s, i) == n
    decreases n
  {
    if n > 0 {
      HashesAre(s, i + 1, n - 1);
    }
  }

  lemma {:induction false} HashesCount(s: Bytes, i: nat)
    requires i <= |s|
    ensures var n := Hashes(s, i);
            && (forall j :: i <= j < i + n ==> s[j] == 0x23)
            && (i + n < |s| ==> s[i + n] != 0x23)
    decreases |s| - i
  {
    if i < |s| && s[i] == HASH {
      HashesCount(s, i + 1);
    }
  }

  /** After a hash white space can only start, not go on. */
  lemma WhiteAfterHash(line: Bytes, k: nat)
    requires 0 < k < |line| && line[k - 1] == 0x23
    ensures IsWhite(line, k) <==> SpaceWidth(line[k..], 0) > 0
  {
    var rest := line[k..];
    assert forall j :: 0 <= j < |rest| ==> rest[j] == line[k + j];
  }

  lemma ReadsHeading(trimmed: Bytes, level: nat, text: Bytes)
    requires 1 <= level <= 6 && level < |trimmed| && (forall j :: 0 <= j < level ==> trimmed[j] == 0x23)
    requires SpaceWidth(trimmed[level..], 0) > 0 && text == Trim(trimmed[level..])
    ensures HeadingOf(trimmed) == Some((level, text))
  {
    HashIsInk(trimmed, level);
    hide SpaceWidth, Trim;
    HashesAre(trimmed, 0, level);
  }

  lemma InkStart(line: Bytes, i: nat)
    requires FirstInk(line, i)
    ensures i <= |line| && TrimStart(line) == line[i..]
  {
    FirstInkIs(line, i);
  }

  lemma HeadingLineRead(line: Bytes, level: nat, text: Bytes)
    requires HeadingLine(line, level, text)
    ensures HeadingOf(TrimStart(line)) == Some((level, text))
  {
    hide FirstInk, IsWhite, Trim, SpaceWidth, IsTrimOf, TrimStart, HeadingOf;
    var i: nat :| FirstInk(line, i) && 1 <= level <= 6 && i + level < |line| &&
      (forall j :: i <= j < i + level ==> line[j] == 0x23) &&
      IsWhite(line, i + level) && IsTrimOf(line[i + level..], text);
    InkStart(line, i);
    var trimmed := line[i..];
    WhiteAfterHash(line, i + level);
    assert trimmed[level..] == line[i + level..];
    TrimIsUnique(line[i + level..], text);
    ReadsHeading(trimmed, level, text);
  }

  /** What reading a heading off a trimmed line says about its bytes. */
  lemma HeadingParts(trimmed: Bytes, level: nat, text: Bytes)
    requires HeadingOf(trimmed) == Some((level, text))
    ensures 1 <= level <= 6 && level < |trimmed| && forall j :: 0 <= j < level ==> trimmed[j] == 0x23
    ensures SpaceWidth(trimmed[level..], 0) > 0 && text == Trim(trimmed[level..])
  {
    hide SpaceWidth, Trim;
    HashesCount(trimmed, 0);
  }

  lemma HeadingReadLine(line: Bytes, level: nat, text: Bytes)
    requires HeadingOf(TrimStart(line)) == Some((level, text))
    ensures HeadingLine(line, level, text)
  {
    var i := TrimLo(line);
    var trimmed := line[i..];
    assert trimmed == TrimStart(line);
    hide TrimLo, FirstInk, IsWhite, Trim, SpaceWidth, IsTrimOf, TrimStart, HeadingOf;
    FirstInkIs(line, i);
    HeadingParts(trimmed, level, text);
    forall j | i <= j < i + level ensures line[j] == 0x23 {
      assert trimmed[j - i] == line[j];
    }
    assert trimmed[level..] == line[i + level..];
    WhiteAfterHash(line, i + level);
    TrimIs(line[i + level..]);
  }

  lemma HeadingIs(line: Bytes, level: nat, text: Bytes)
    ensures HeadingOf(TrimStart(line)) == Some((level, text)) <==> HeadingLine(line, level, text)
  {
    hide HeadingOf, TrimStart, HeadingLine;
    if HeadingLine(line, level, text) {
      HeadingLineRead(line, level, text);
    }
    if HeadingOf(TrimStart(line)) == Some((level, text)) {
      HeadingReadLine(line, level, text);
    }
  }

  lemma HashIsInk(line: Bytes, k: nat)
    requires k < |line| && SpaceWidth(line[k..], 0) > 0
    ensures line[k] != 0x23
  {
    assert line[k..][0] == line[k];
  }

  // ----- fences along the scan -----

  /** The fence that the scan carries at a line start is the one that the position lies in. */
  ghost predicate Carries(body: Bytes, offset: nat, fence: Option<byte>) {
    forall m: byte :: InFence(body, offset, m) <==> fence == Some(m)
  }

  lemma NoFenceBetween(body: Bytes, offset: nat, j: nat, mark: byte)
    requires offset < |body| && LineStart(body, offset) && offset < j < LineEnd(body, offset)
    ensures !FenceAt(body, j, mark)
  {
    LineEndIs(body, offset);
  }

  lemma FenceHere(body: Bytes, offset: nat, mark: byte)
    requires offset < |body| && LineStart(body, offset)
    ensures FenceAt(body, offset, mark) <==>
            FenceMark(TrimStart(body[offset..LineEnd(body, offset)])) == Some(mark)
  {
    var end := LineEnd(body, offset);
    MarkIs(body[offset..end], mark);
    hide FenceLine, FenceMark, TrimStart, LineEnd, LineAt;
    LineEndsAt(body, offset, end);
    if end': nat :| LineAt(body, offset, end') && FenceLine(body[offset..end'], mark) {
      LineEndsAt(body, offset, end');
    }
  }

  lemma NoMarkOn(body: Bytes, o: nat, offset: nat, mark: byte)
    requires offset < |body| && LineStart(body, offset) && o <= offset
    requires o < offset ==> NoMarkBetween(body, o, offset, mark) && !FenceAt(body, offset, mark)
    ensures NoMarkBetween(body, o, LineEnd(body, offset), mark)
  {
    forall j: nat | o < j < LineEnd(body, offset) ensures !FenceAt(body, j, mark) {
      if offset < j {
        NoFenceBetween(body, offset, j, mark);
      }
    }
  }

  lemma UnmarkedGoesOn(body: Bytes, offset: nat, mark: byte)
    requires offset < |body| && LineStart(body, offset) && !FenceAt(body, offset, mark)
    ensures InFence(body, LineEnd(body, offset), mark) <==> InFence(body, offset, mark)
  {
    var end := LineEnd(body, offset);
    hide LineEnd, FenceAt, Free;
    if o: nat :| o < offset && FenceAt(body, o, mark) && Free(body, o) && NoMarkBetween(body, o, offset, mark) {
      NoMarkOn(body, o, offset, mark);
    }
    if o: nat :| o < end && FenceAt(body, o, mark) && Free(body, o) && NoMarkBetween(body, o, end, mark) {
      if o > offset {
        NoFenceBetween(body, offset, o, mark);
      } else {
        assert NoMarkBetween(body, o, offset, mark);
      }
    }
  }

  lemma MarkedToggles(body: Bytes, offset: nat, mark: byte)
    requires offset < |body| && LineStart(body, offset) && FenceAt(body, offset, mark)
    ensures InFence(body, LineEnd(body, offset), mark) <==> Free(body, offset)
  {
    var end := LineEnd(body, offset);
    NoMarkOn(body, offset, offset, mark);
    hide LineEnd, FenceAt, Free;
    if o: nat :| o < end && FenceAt(body, o, mark) && Free(body, o) && NoMarkBetween(body, o, end, mark) {
      if o > offset {
        NoFenceBetween(body, offset, o, mark);
      }
    }
  }

  lemma FreeIs(body: Bytes, k: nat, fence: Option<byte>)
    requires Carries(body, k, fence)
    ensures Free(body, k) <==> fence.None?
  {
    if fence.Some? {
      assert InFence(body, k, fence.value);
    }
  }

  lemma CarriesOnAt(body: Bytes, offset: nat, fence: Option<byte>, m: byte)
    requires offset < |body| && LineStart(body, offset) && Carries(body, offset, fence)
    ensures var end := LineEnd(body, offset);
            var mark := FenceMark(TrimStart(body[offset..end]));
            InFence(body, end, m) <==> (if mark.Some? then NextFence(fence, mark.value) else fence) == Some(m)
  {
    FenceHere(body, offset, m);
    FreeIs(body, offset, fence);
    hide FenceMark, TrimStart, LineEnd, InFence, Free, FenceAt;
    if FenceAt(body, offset, m) {
      MarkedToggles(body, offset, m);
    } else {
      UnmarkedGoesOn(body, offset, m);
    }
  }

  lemma CarriesOn(body: Bytes, offset: nat, fence: Option<byte>)
    requires offset < |body| && LineStart(body, offset) && Carries(body, offset, fence)
    ensures var end := LineEnd(body, offset);
            var mark := FenceMark(TrimStart(body[offset..end]));
            Carries(body, end, if mark.Some? then NextFence(fence, mark.value) else fence)
  {
    hide FenceMark, TrimStart, LineEnd, InFence, NextFence;
    forall m: byte
      ensures var end := LineEnd(body, offset);
              var mark := FenceMark(TrimStart(body[offset..end]));
              InFence(body, end, m) <==> (if mark.Some? then NextFence(fence, mark.value) else fence) == Some(m)
    {
      CarriesOnAt(body, offset, fence, m);
    }
  }

  // ----- the headings of a body -----

  lemma LineOfHeading(body: Bytes, k: nat, level: nat, text: Bytes)
    requires k < |body| && LineStart(body, k)
    ensures (exists end: nat :: LineAt(body, k, end) && HeadingLine(body[k..end], level, text)) <==>
            HeadingLine(body[k..LineEnd(body, k)], level, text)
  {
    hide HeadingLine, LineEnd;
    LineEndsAt(body, k, LineEnd(body, k));
    if end: nat :| LineAt(body, k, end) && HeadingLine(body[k..end], level, text) {
      LineEndsAt(body, k, end);
    }
  }

  lemma HeadingHere(body: Bytes, h: Heading, fence: Option<byte>)
    requires h.offset < |body| && LineStart(body, h.offset) && Carries(body, h.offset, fence)
    ensures IsHeading(body, h) <==>
            fence.None? && HeadingOf(TrimStart(body[h.offset..LineEnd(body, h.offset)])) == Some((h.level, h.text))
  {
    FreeIs(body, h.offset, fence);
    LineOfHeading(body, h.offset, h.level, h.text);
    hide HeadingLine, HeadingOf, TrimStart, LineEnd, LineAt, Free, Carries;
    HeadingIs(body[h.offset..LineEnd(body, h.offset)], h.level, h.text);
  }

  lemma MarkedIsNoHeading(trimmed: Bytes)
    requires FenceMark(trimmed).Some?
    ensures HeadingOf(trimmed).None?
  {
    assert trimmed[0] == trimmed[0..3][0];
  }

  lemma NoHeadingBetween(body: Bytes, offset: nat, h: Heading)
    requires offset < |body| && LineStart(body, offset) && offset < h.offset < LineEnd(body, offset)
    ensures !IsHeading(body, h)
  {
    LineEndIs(body, offset);
  }

  lemma {:induction false} ScanIs(body: Bytes, offset: nat, fence: Option<byte>, h: Heading)
    requires offset <= |body| && LineStart(body, offset) && Carries(body, offset, fence)
    ensures h in ScanHeadings(body, offset, fence) <==> h.offset >= offset && IsHeading(body, h)
    decreases |body| - offset
  {
    if offset < |body| {
      var end := LineEnd(body, offset);
      var trimmed := TrimStart(body[offset..end]);
      var mark := FenceMark(trimmed);
      var next := if mark.Some? then NextFence(fence, mark.value) else fence;
      CarriesOn(body, offset, fence);
      if mark.Some? {
        MarkedIsNoHeading(trimmed);
      }
      ScanLater(body, end, next);
      if h.offset == offset {
        HeadingHere(body, h, fence);
      } else if offset < h.offset < end {
        NoHeadingBetween(body, offset, h);
      }
      hide FenceMark, HeadingOf, TrimStart, LineEnd, Carries, IsHeading, LineStart, NextFence;
      ScanIs(body, end, next, h);
    } else if IsHeading(body, h) {
      assert h.offset < |body|;
    }
  }

  lemma ScanLater(body: Bytes, offset: nat, fence: Option<byte>)
    requires offset <= |body| && LineStart(body, offset)
    ensures forall h :: h in ScanHeadings(body, offset, fence) ==> h.offset >= offset
  {
    ScanLaws(body, offset, fence);
    hide ScanHeadings;
  }

  /** The headings found are exactly the heading lines outside fences, in order. */
  lemma HeadingsAreThese(body: Bytes, h: Heading)
    ensures h in ScanHeadings(body, 0, None) <==> IsHeading(body, h)
  {
    hide FenceAt;
    ScanIs(body, 0, None, h);
  }

  // ----- the sections of a body -----

  /** Of the first `n` headings, `j` is not hidden: every later one is deeper. */
  predicate Shown(hs: seq<Heading>, n: nat, j: nat)
    requires j < n <= |hs|
  {
    forall k :: j < k < n ==> hs[j].level < hs[k].level
  }

  /** `path` lists the texts of the headings shown among the first `n`, in order; `at` tells where they stand. */
  ghost predicate TrailAt(hs: seq<Heading>, n: nat, path: seq<Bytes>, at: seq<nat>)
    requires n <= |hs|
  {
    && |at| == |path|
    && (forall a, b :: 0 <= a < b < |at| ==> at[a] < at[b])
    && (forall j: nat :: j in at <==> j < n && Shown(hs, n, j))
    && (forall a :: 0 <= a < |at| ==> at[a] < |hs| && path[a] == hs[at[a]].text)
  }

  ghost predicate IsTrail(hs: seq<Heading>, n: nat, path: seq<Bytes>)
    requires n <= |hs|
  {
    exists at :: TrailAt(hs, n, path, at)
  }

  /** `at` tells where the headings of a chain stand. */
  ghost predicate Places(hs: seq<Heading>, from: nat, chain: seq<Heading>, at: seq<nat>) {
    && |at| == |chain|
    && (forall a, b :: 0 <= a < b < |at| ==> at[a] < at[b])
    && (forall j: nat :: j in at <==> from <= j < |hs| && Visible(hs, j))
    && (forall a :: 0 <= a < |at| ==> from <= at[a] < |hs| && chain[a] == hs[at[a]])
  }

  lemma PlacesCons(hs: seq<Heading>, from: nat, chain: seq<Heading>, at: seq<nat>)
    requires from < |hs| && Places(hs, from + 1, chain, at)
    ensures if Visible(hs, from) then Places(hs, from, [hs[from]] + chain, [from] + at) else Places(hs, from, chain, at)
  {
    hide Visible;
    if Visible(hs, from) {
      var at', chain' := [from] + at, [hs[from]] + chain;
      assert forall a :: 0 < a < |at'| ==> at'[a] == at[a - 1] && chain'[a] == chain[a - 1];
      assert forall j: nat :: j in at' <==> j == from || j in at;
    }
  }

  lemma {:induction false} ChainPlaces(hs: seq<Heading>, from: nat) returns (at: seq<nat>)
    requires from <= |hs|
    ensures Places(hs, from, ChainFrom(hs, from), at)
    decreases |hs| - from
  {
    at := [];
    if from < |hs| {
      at := ChainPlaces(hs, from + 1);
      PlacesCons(hs, from, ChainFrom(hs, from + 1), at);
      hide Places, Visible;
      if Visible(hs, from) {
        at := [from] + at;
      } else {
        assert ChainFrom(hs, from) == ChainFrom(hs, from + 1);
      }
    }
  }

  lemma ChainIsTrail(hs: seq<Heading>, n: nat)
    requires n <= |hs|
    ensures IsTrail(hs, n, Texts(Chain(hs[..n])))
  {
    var at := ChainPlaces(hs[..n], 0);
    forall j: nat | j < n ensures Visible(hs[..n], j) <==> Shown(hs, n, j) {
      assert forall k :: j <= k < n ==> hs[..n][k] == hs[k];
    }
    hide ChainFrom, Visible, Shown;
    assert forall a :: 0 <= a < |at| ==> hs[..n][at[a]] == hs[at[a]];
    assert TrailAt(hs, n, Texts(Chain(hs[..n])), at);
  }

  /** `hs` lists the headings of the body in order. */
  ghost predicate ListsHeadings(body: Bytes, hs: seq<Heading>) {
    (forall h :: h in hs <==> IsHeading(body, h)) && OffsetsRise(hs)
  }

  /** The section starts at heading `i` and has the trail of headings still shown there. */
  ghost predicate StartsAtHeading(hs: seq<Heading>, i: nat, s: Section)
    requires i < |hs|
  {
    s.start == hs[i].offset && IsTrail(hs, i + 1, s.path)
  }

  /** How many sections come before the first heading. */
  function Preface(hs: seq<Heading>): nat {
    if |hs| > 0 && hs[0].offset == 0 then 0 else 1
  }

  /**
   * `out` cuts the body at exactly its headings, after a first section without a trail unless a heading is at the
   * top.
   */
  ghost predicate CutAtHeadings(body: Bytes, hs: seq<Heading>, out: seq<Section>) {
    var preface := Preface(hs);
    && Partition(out, 0, |body|) && |out| == preface + |hs|
    && (preface == 1 ==> out[0].path == [])
    && (forall k :: preface <= k < |out| ==> StartsAtHeading(hs, k - preface, out[k]))
  }

  lemma ScanLists(body: Bytes)
    ensures ListsHeadings(body, ScanHeadings(body, 0, None))
  {
    ScanLaws(body, 0, None);
    hide ScanHeadings, IsHeading;
    forall h ensures h in ScanHeadings(body, 0, None) <==> IsHeading(body, h) {
      HeadingsAreThese(body, h);
    }
  }

  lemma SectionStarts(body: Bytes, hs: seq<Heading>, k: nat)
    requires |body| > 0 && hs == ScanHeadings(body, 0, None) && k < |SectionsOf(body)|
    ensures |SectionsOf(body)| == Preface(hs) + |hs|
    ensures k < Preface(hs) ==> SectionsOf(body)[k].path == []
    ensures k >= Preface(hs) ==> StartsAtHeading(hs, k - Preface(hs), SectionsOf(body)[k])
  {
    SectionCount(body);
    hide ScanHeadings, SectionsOf, IsTrail, Chain, Texts;
    if k >= Preface(hs) {
      var i := k - Preface(hs);
      ChainIsTrail(hs, i + 1);
      assert SectionsOf(body)[Preface(hs) + i].start == hs[i].offset;
    }
  }

  lemma CutFrom(body: Bytes, hs: seq<Heading>, out: seq<Section>)
    requires Partition(out, 0, |body|)
    requires forall k :: 0 <= k < |out| ==>
               && |out| == Preface(hs) + |hs| && (k < Preface(hs) ==> out[k].path == [])
               && (k >= Preface(hs) ==> StartsAtHeading(hs, k - Preface(hs), out[k]))
    ensures CutAtHeadings(body, hs, out)
  {
    hide StartsAtHeading;
    assert out[0].start == 0;
  }

  lemma SectionsCut(body: Bytes)
    requires |body| > 0
    ensures CutAtHeadings(body, ScanHeadings(body, 0, None), SectionsOf(body))
  {
    SectionsPartition(body);
    var hs, out := ScanHeadings(body, 0, None), SectionsOf(body);
    hide ScanHeadings, SectionsOf, StartsAtHeading, Partition, CutAtHeadings, Preface;
    forall k | 0 <= k < |out|
      ensures |out| == Preface(hs) + |hs| && (k < Preface(hs) ==> out[k].path == [])
      ensures k >= Preface(hs) ==> StartsAtHeading(hs, k - Preface(hs), out[k])
    {
      SectionStarts(body, hs, k);
    }
    CutFrom(body, hs, out);
  }

  /** What sectioning a body yields, in terms of its text. */
  lemma SectionsAreHeaded(body: Bytes)
    requires |body| > 0
    ensures exists hs :: ListsHeadings(body, hs) && CutAtHeadings(body, hs, SectionsOf(body))
  {
    hide ScanHeadings, SectionsOf, CutAtHeadings, ListsHeadings;
    ScanLists(body);
    SectionsCut(body);
    var hs := ScanHeadings(body, 0, None);
    assert ListsHeadings(body, hs) && CutAtHeadings(body, hs, SectionsOf(body));
  }
}
