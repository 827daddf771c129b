/**
 * Splitting a note body at its headings. A line is a heading when it starts, after white space, with one to six
 * hashes and white space, outside a fence; a fence opens at a line starting with three backticks or tildes and
 * closes at the next such line of the same mark, whatever its length or indentation.
 */
module Sections {
  import opened Common
  import opened Utf8

  const HASH: byte := 0x23
  const LF: byte := 0x0A
  const BACKTICKS: Bytes := [0x60, 0x60, 0x60]
  const TILDES: Bytes := [0x7E, 0x7E, 0x7E]

  datatype Heading = Heading(offset: nat, level: nat, text: Bytes)

  datatype Section = Section(path: seq<Bytes>, start: nat, end: nat)

  // ----- lines -----

  function LineEnd(body: Bytes, offset: nat): (end: nat)
    requires offset < |body|
    ensures offset < end <= |body|
    ensures end < |body| ==> body[end - 1] == LF
    decreases |body| - offset
  {
    if body[offset] == LF || offset + 1 == |body| then offset + 1 else LineEnd(body, offset + 1)
  }

  function FenceMark(trimmed: Bytes): Option<byte> {
    if StartsWith(trimmed, BACKTICKS) || StartsWith(trimmed, TILDES) then Some(trimmed[0]) else None
  }

  /** The open fence, if any, after a line that carries a fence mark. */
  function NextFence(fence: Option<byte>, mark: byte): Option<byte> {
    if fence.None? then Some(mark) else if fence.value == mark then None else fence
  }

  function Hashes(s: Bytes, i: nat): (n: nat)
    requires i <= |s|
    ensures n <= |s| - i
    decreases |s| - i
  {
    if i < |s| && s[i] == HASH then 1 + Hashes(s, i + 1) else 0
  }

  function HeadingOf(trimmed: Bytes): Option<(nat, Bytes)> {
    var level := Hashes(trimmed, 0);
    var rest := trimmed[level..];
    if 1 <= level <= 6 && |rest| > 0 && SpaceWidth(rest, 0) > 0 then Some((level, Trim(rest))) else None
  }

  /** The headings outside fences from a line start on. */
  function ScanHeadings(body: Bytes, offset: nat, fence: Option<byte>): seq<Heading>
    requires offset <= |body|
    decreases |body| - offset
  {
    if offset == |body| then []
    else
      var end := LineEnd(body, offset);
      var trimmed := TrimStart(body[offset..end]);
      var mark, heading := FenceMark(trimmed), HeadingOf(trimmed);
      if mark.Some? then ScanHeadings(body, end, NextFence(fence, mark.value))
      else if fence.None? && heading.Some? then
        [Heading(offset, heading.value.0, heading.value.1)] + ScanHeadings(body, end, fence)
      else ScanHeadings(body, end, fence)
  }

  // ----- the heading trail -----

  /** No later heading is at the level of heading `j` or above it. */
  predicate Visible(hs: seq<Heading>, j: nat)
    requires j < |hs|
  {
    forall k :: j < k < |hs| ==> hs[j].level < hs[k].level
  }

  /** The headings still visible at the end, outermost first. */
  function ChainFrom(hs: seq<Heading>, j: nat): seq<Heading>
    requires j <= |hs|
    decreases |hs| - j
  {
    if j == |hs| then [] else (if Visible(hs, j) then [hs[j]] else []) + ChainFrom(hs, j + 1)
  }

  function Chain(hs: seq<Heading>): seq<Heading> {
    ChainFrom(hs, 0)
  }

  function Texts(hs: seq<Heading>): (texts: seq<Bytes>)
    ensures |texts| == |hs| && forall i :: 0 <= i < |hs| ==> texts[i] == hs[i].text
  {
    seq(|hs|, i requires 0 <= i < |hs| => hs[i].text)
  }

  function Below(hs: seq<Heading>, level: nat): seq<Heading> {
    if |hs| == 0 then [] else (if hs[0].level < level then [hs[0]] else []) + Below(hs[1..], level)
  }

  ghost predicate Rising(hs: seq<Heading>) {
    forall i, j :: 0 <= i < j < |hs| ==> hs[i].level < hs[j].level
  }

  lemma {:induction false} BelowConcat(a: seq<Heading>, b: seq<Heading>, level: nat)
    ensures Below(a + b, level) == Below(a, level) + Below(b, level)
  {
    if |a| == 0 {
      assert a + b == b;
    } else {
      assert (a + b)[1..] == a[1..] + b;
      BelowConcat(a[1..], b, level);
    }
  }

  /** A new heading hides the headings of its level and deeper, and joins the trail. */
  lemma {:induction false} ChainSnoc(hs: seq<Heading>, h: Heading, j: nat)
    requires j <= |hs|
    ensures ChainFrom(hs + [h], j) == Below(ChainFrom(hs, j), h.level) + [h]
    decreases |hs| - j
  {
    var more := hs + [h];
    if j == |hs| {
      assert ChainFrom(more, j + 1) == [];
    } else {
      ChainSnoc(hs, h, j + 1);
      assert Visible(more, j) <==> Visible(hs, j) && hs[j].level < h.level by {
        assert more[|hs|] == h;
        if Visible(more, j) {
          assert forall k :: j < k < |hs| ==> more[k] == hs[k];
        }
      }
      var head := if Visible(hs, j) then [hs[j]] else [];
      BelowConcat(head, ChainFrom(hs, j + 1), h.level);
    }
  }

  lemma {:induction false} ChainRises(hs: seq<Heading>, j: nat)
    requires j <= |hs|
    ensures Rising(ChainFrom(hs, j))
    ensures forall x :: x in ChainFrom(hs, j) ==> exists k :: j <= k < |hs| && hs[k] == x
    decreases |hs| - j
  {
    if j < |hs| {
      ChainRises(hs, j + 1);
      var tail := ChainFrom(hs, j + 1);
      if Visible(hs, j) {
        forall i | 0 <= i < |tail| ensures hs[j].level < tail[i].level {
          assert tail[i] in tail;
        }
      }
    }
  }

  lemma {:induction false} BelowAll(hs: seq<Heading>, level: nat)
    requires forall i :: 0 <= i < |hs| ==> hs[i].level < level
    ensures Below(hs, level) == hs
  {
    if |hs| > 0 {
      BelowAll(hs[1..], level);
    }
  }

  /** Popping from a rising stack is filtering it. */
  lemma PopIsBelow(stack: seq<Heading>, level: nat)
    requires Rising(stack)
    ensures |stack| > 0 && stack[|stack| - 1].level >= level ==> Below(stack, level) == Below(stack[..|stack| - 1], level)
    ensures |stack| == 0 || stack[|stack| - 1].level < level ==> Below(stack, level) == stack
  {
    if |stack| > 0 {
      var last := stack[|stack| - 1];
      if last.level >= level {
        assert stack == stack[..|stack| - 1] + [last];
        BelowConcat(stack[..|stack| - 1], [last], level);
        assert Below([last], level) == [];
      } else {
        BelowAll(stack, level);
      }
    }
  }

  // ----- sections -----

  datatype Opening = Opening(start: nat, path: seq<Bytes>)

  /** Where sections start: at the top of the body, unless a heading is there, and at every heading. */
  function Openings(hs: seq<Heading>): seq<Opening> {
    (if |hs| > 0 && hs[0].offset == 0 then [] else [Opening(0, [])]) +
    seq(|hs|, i requires 0 <= i < |hs| => OpeningAt(hs, i))
  }

  function OpeningAt(hs: seq<Heading>, i: nat): Opening
    requires i < |hs|
  {
    Opening(hs[i].offset, Texts(Chain(hs[..i + 1])))
  }

  function Closed(openings: seq<Opening>, end: nat): (sections: seq<Section>)
    ensures |sections| == |openings|
    ensures forall i :: 0 <= i < |openings| ==>
              sections[i] == Section(openings[i].path, openings[i].start, if i + 1 < |openings| then openings[i + 1].start else end)
  {
    seq(|openings|, i requires 0 <= i < |openings| =>
      Section(openings[i].path, openings[i].start, if i + 1 < |openings| then openings[i + 1].start else end))
  }

  function SectionsOf(body: Bytes): seq<Section> {
    if |body| == 0 then [] else Closed(Openings(ScanHeadings(body, 0, None)), |body|)
  }

  lemma OpeningsSnoc(hs: seq<Heading>, h: Heading)
    ensures Openings(hs + [h]) ==
            (if hs == [] && h.offset == 0 then [] else Openings(hs)) + [Opening(h.offset, Texts(Chain(hs + [h])))]
  {
    var more := hs + [h];
    assert more[..|hs| + 1] == more;
    hide ChainFrom, Texts;
    forall i | 0 <= i < |hs| ensures OpeningAt(more, i) == OpeningAt(hs, i) {
      assert more[..i + 1] == hs[..i + 1];
    }
    hide OpeningAt;
    assert seq(|more|, i requires 0 <= i < |more| => OpeningAt(more, i)) ==
           seq(|hs|, i requires 0 <= i < |hs| => OpeningAt(hs, i)) + [OpeningAt(more, |hs|)];
  }

  lemma ClosedSnoc(openings: seq<Opening>, o: Opening, end: nat)
    requires |openings| > 0
    ensures Closed(openings + [o], end) == Closed(openings, o.start) + [Section(o.path, o.start, end)]
  {
  }

  predicate LineStart(body: Bytes, k: nat) {
    k <= |body| && (k == 0 || k == |body| || body[k - 1] == LF)
  }

  /** Headings stand at line starts, in order, from an offset on. */
  ghost predicate HeadingsFrom(body: Bytes, hs: seq<Heading>, offset: nat) {
    && (forall i :: 0 <= i < |hs| ==> offset <= hs[i].offset < |body| && LineStart(body, hs[i].offset))
    && (forall i, j :: 0 <= i < j < |hs| ==> hs[i].offset < hs[j].offset)
    && (forall i :: 0 <= i < |hs| ==> 1 <= hs[i].level <= 6)
  }

  lemma HeadingsEarlier(body: Bytes, hs: seq<Heading>, offset: nat, end: nat)
    requires HeadingsFrom(body, hs, end) && offset < end
    ensures HeadingsFrom(body, hs, offset)
    ensures forall h: Heading :: h.offset == offset && offset < |body| && LineStart(body, offset) && 1 <= h.level <= 6 ==>
              HeadingsFrom(body, [h] + hs, offset)
  {
  }

  lemma HeadingLevels(trimmed: Bytes)
    ensures HeadingOf(trimmed).Some? ==> 1 <= HeadingOf(trimmed).value.0 <= 6
  {
  }

  lemma {:induction false} ScanLaws(body: Bytes, offset: nat, fence: Option<byte>)
    requires offset <= |body| && LineStart(body, offset)
    ensures HeadingsFrom(body, ScanHeadings(body, offset, fence), offset)
    decreases |body| - offset
  {
    if offset < |body| {
      hide FenceMark, TrimStart, HeadingOf, HeadingsFrom;
      var end := LineEnd(body, offset);
      var trimmed := TrimStart(body[offset..end]);
      var mark := FenceMark(trimmed);
      var fence' := if mark.Some? then NextFence(fence, mark.value) else fence;
      ScanLaws(body, end, fence');
      HeadingLevels(trimmed);
      HeadingsEarlier(body, ScanHeadings(body, end, fence'), offset, end);
    } else {
      assert HeadingsFrom(body, [], offset);
    }
  }

  method PopTo(stack: seq<Heading>, level: nat) returns (popped: seq<Heading>)
    requires Rising(stack)
    ensures popped == Below(stack, level)
  {
    popped := stack;
    while |popped| > 0 && popped[|popped| - 1].level >= level
      invariant Rising(popped) && Below(popped, level) == Below(stack, level)
    {
      PopIsBelow(popped, level);
      popped := popped[..|popped| - 1];
    }
    PopIsBelow(popped, level);
  }

  method FindLineEnd(body: Bytes, offset: nat) returns (end: nat)
    requires offset < |body|
    ensures end == LineEnd(body, offset)
  {
    var i := offset;
    while body[i] != LF && i + 1 < |body|
      invariant offset <= i < |body| && LineEnd(body, i) == LineEnd(body, offset)
      decreases |body| - i
    {
      i := i + 1;
    }
    end := i + 1;
  }

  /** One pass over the lines with a stack of open headings. */
  method FindSections(body: Bytes) returns (out: seq<Section>)
    ensures out == SectionsOf(body)
  {
    hide FenceMark, HeadingOf, TrimStart, ChainFrom, Openings, Below;
    out := [];
    var stack: seq<Heading>, fence: Option<byte> := [], None;
    var currentStart, currentPath: seq<Bytes> := 0, [];
    var offset := 0;
    ghost var seen: seq<Heading> := [];
    ghost var all := ScanHeadings(body, 0, None);
    FirstOpening();
    while offset < |body|
      invariant 0 <= offset <= |body|
      invariant all == seen + ScanHeadings(body, offset, fence)
      invariant OpenAt(seen, out, stack, currentStart, currentPath, offset)
      decreases |body| - offset
    {
      var end := FindLineEnd(body, offset);
      var trimmed := TrimStart(body[offset..end]);
      var mark := FenceMark(trimmed);
      LaterLine(seen, out, stack, currentStart, currentPath, offset, end);
      if mark.Some? {
        fence := NextFence(fence, mark.value);
      } else if fence.None? && HeadingOf(trimmed).Some? {
        var (level, text) := HeadingOf(trimmed).value;
        var heading := Heading(offset, level, text);
        StackRises(seen);
        var kept := PopTo(stack, level);
        NewHeading(seen, heading, out, stack, currentStart, currentPath);
        if offset > currentStart {
          out := out + [Section(currentPath, currentStart, offset)];
        }
        stack := kept + [heading];
        currentPath := Texts(stack);
        currentStart := offset;
        seen := seen + [heading];
      }
      offset := end;
    }
    assert all == seen;
    if |body| > currentStart {
      out := out + [Section(currentPath, currentStart, |body|)];
    }
  }

  /** The loop's view of the headings seen so far: all sections but the open one are closed. */
  ghost predicate OpenAt(
    seen: seq<Heading>, out: seq<Section>, stack: seq<Heading>, currentStart: nat, currentPath: seq<Bytes>, offset: nat)
  {
    && stack == Chain(seen)
    && (forall i :: 0 <= i < |seen| ==> seen[i].offset < offset)
    && Closed(Openings(seen), offset) == out + [Section(currentPath, currentStart, offset)]
    && currentStart == (if |seen| == 0 then 0 else seen[|seen| - 1].offset)
  }

  lemma FirstOpening()
    ensures OpenAt([], [], [], 0, [], 0)
  {
    assert Openings([]) == [Opening(0, [])];
  }

  lemma StackRises(seen: seq<Heading>)
    ensures Rising(Chain(seen))
  {
    ChainRises(seen, 0);
  }

  lemma ReclosedAt(openings: seq<Opening>, out: seq<Section>, path: seq<Bytes>, start: nat, end: nat, end': nat)
    requires Closed(openings, end) == out + [Section(path, start, end)]
    ensures Closed(openings, end') == out + [Section(path, start, end')]
  {
    assert |openings| == |out| + 1;
    forall i | 0 <= i < |openings|
      ensures Closed(openings, end')[i] == (out + [Section(path, start, end')])[i]
    {
      assert Closed(openings, end)[i] == (out + [Section(path, start, end)])[i];
    }
  }

  lemma NewHeading(
    seen: seq<Heading>, h: Heading, out: seq<Section>, stack: seq<Heading>, currentStart: nat, currentPath: seq<Bytes>)
    requires OpenAt(seen, out, stack, currentStart, currentPath, h.offset)
    ensures var stack' := Below(stack, h.level) + [h];
            var out' := if h.offset > currentStart then out + [Section(currentPath, currentStart, h.offset)] else out;
            forall end :: end > h.offset ==> OpenAt(seen + [h], out', stack', h.offset, Texts(stack'), end)
  {
    ChainSnoc(seen, h, 0);
    OpeningsSnoc(seen, h);
    var o := Opening(h.offset, Texts(Chain(seen + [h])));
    forall end: nat | end > h.offset
      ensures Closed(Openings(seen + [h]), end) ==
              (if h.offset > currentStart then out + [Section(currentPath, currentStart, h.offset)] else out) +
              [Section(o.path, h.offset, end)]
    {
      if seen == [] && h.offset == 0 {
        assert Openings(seen + [h]) == [o];
        assert |Openings(seen)| == 1;
        assert out == [];
      } else {
        ClosedSnoc(Openings(seen), o, end);
      }
    }
  }

  lemma LaterLine(
    seen: seq<Heading>, out: seq<Section>, stack: seq<Heading>, currentStart: nat, currentPath: seq<Bytes>, offset: nat,
    end: nat)
    requires OpenAt(seen, out, stack, currentStart, currentPath, offset) && offset <= end
    ensures OpenAt(seen, out, stack, currentStart, currentPath, end)
  {
    ReclosedAt(Openings(seen), out, currentPath, currentStart, offset, end);
  }

  // ----- what the sections are -----

  lemma SectionCount(body: Bytes)
    requires |body| > 0
    ensures var hs := ScanHeadings(body, 0, None);
            var preface := if |hs| > 0 && hs[0].offset == 0 then 0 else 1;
            && |SectionsOf(body)| == preface + |hs|
            && (preface == 1 ==> SectionsOf(body)[0].start == 0 && SectionsOf(body)[0].path == [])
            && forall i :: 0 <= i < |hs| ==>
                 && SectionsOf(body)[preface + i].start == hs[i].offset
                 && SectionsOf(body)[preface + i].path == Texts(Chain(hs[..i + 1]))
  {
    hide ChainFrom, ScanHeadings;
  }

  /** Consecutive non-empty spans from one offset to another. */
  ghost predicate Partition(out: seq<Section>, start: nat, end: nat) {
    && |out| > 0 && out[0].start == start && out[|out| - 1].end == end
    && (forall i :: 0 <= i < |out| ==> out[i].start < out[i].end)
    && (forall i :: 0 <= i < |out| - 1 ==> out[i].end == out[i + 1].start)
  }

  lemma ClosedPartitions(openings: seq<Opening>, end: nat)
    requires |openings| > 0 && openings[0].start == 0 && openings[|openings| - 1].start < end
    requires forall i :: 0 <= i < |openings| - 1 ==> openings[i].start < openings[i + 1].start
    ensures Partition(Closed(openings, end), 0, end)
  {
    var out := Closed(openings, end);
    forall i | 0 <= i < |out| ensures out[i].start < out[i].end {
      assert out[i].start == openings[i].start;
      assert out[i].end == if i + 1 < |openings| then openings[i + 1].start else end;
    }
    forall i | 0 <= i < |out| - 1 ensures out[i].end == out[i + 1].start {
      assert out[i].end == openings[i + 1].start;
    }
  }

  lemma OpeningsRise(body: Bytes, hs: seq<Heading>)
    requires |body| > 0 && HeadingsFrom(body, hs, 0)
    ensures var os := Openings(hs);
            && |os| > 0 && os[0].start == 0 && os[|os| - 1].start < |body|
            && (forall i :: 0 <= i < |os| - 1 ==> os[i].start < os[i + 1].start)
            && (forall i :: 0 <= i < |os| ==> LineStart(body, os[i].start))
  {
    hide ChainFrom, Chain, Texts;
  }

  /** The sections cut the body into consecutive non-empty spans, each starting at a line start. */
  lemma SectionsPartition(body: Bytes)
    requires |body| > 0
    ensures Partition(SectionsOf(body), 0, |body|)
    ensures forall s :: s in SectionsOf(body) ==> LineStart(body, s.start) && LineStart(body, s.end) && s.end <= |body|
  {
    ScanLaws(body, 0, None);
    var openings := Openings(ScanHeadings(body, 0, None));
    OpeningsRise(body, ScanHeadings(body, 0, None));
    ClosedPartitions(openings, |body|);
    hide ScanHeadings, Openings, HeadingsFrom;
    var out := SectionsOf(body);
    forall i | 0 <= i < |out| ensures LineStart(body, out[i].start) && LineStart(body, out[i].end) && out[i].end <= |body| {
    }
  }

  ghost predicate OffsetsRise(hs: seq<Heading>) {
    forall i, j :: 0 <= i < j < |hs| ==> hs[i].offset < hs[j].offset
  }

  lemma TrailIsLater(hs: seq<Heading>, from: nat)
    requires from < |hs| && OffsetsRise(hs)
    ensures forall x :: x in ChainFrom(hs, from + 1) ==> hs[from].offset < x.offset
  {
    ChainRises(hs, from + 1);
    hide ChainFrom;
  }

  /**
   * The trail of headings seen up to heading `i` holds exactly those headings that no later one, up to `i`, is at
   * the level of or above; in order, outermost first.
   */
  lemma {:induction false} ChainMembers(hs: seq<Heading>, from: nat, j: nat)
    requires from <= j < |hs| && OffsetsRise(hs)
    ensures hs[j] in ChainFrom(hs, from) <==> Visible(hs, j)
    decreases |hs| - from
  {
    TrailIsLater(hs, from);
    if from < j {
      ChainMembers(hs, from + 1, j);
      assert hs[j] != hs[from];
    }
    hide Visible;
  }

  lemma {:induction false} ChainInOrder(hs: seq<Heading>, from: nat)
    requires from <= |hs| && OffsetsRise(hs)
    ensures OffsetsRise(ChainFrom(hs, from))
    decreases |hs| - from
  {
    if from < |hs| {
      ChainInOrder(hs, from + 1);
      TrailIsLater(hs, from);
      var tail := ChainFrom(hs, from + 1);
      assert forall x :: 0 <= x < |tail| ==> tail[x] in tail;
    }
  }

  lemma LineStartIsBoundary(body: Bytes, k: nat)
    requires WellFormed(body) && LineStart(body, k)
    ensures Boundary(body, k)
  {
    if 0 < k < |body| {
      assert CharAt(body, k - 1);
    }
  }
}
