/** Frontmatter: finding the block, and setting and removing fields without disturbing the body. */
module Frontmatter {
  import opened Common

  const LF := '\n'
  const CR := '\r'
  const OPEN := "---\n"
  const OPEN_CRLF := "---\r\n"
  const MARK := "---"

  // ----- finding the block -----

  function FindLf(s: string, pos: nat): (r: Option<nat>)
    requires pos <= |s|
    ensures r.Some? ==> pos <= r.value < |s| && s[r.value] == LF
    ensures r.Some? ==> forall i :: pos <= i < r.value ==> s[i] != LF
    ensures r.None? ==> forall i :: pos <= i < |s| ==> s[i] != LF
    decreases |s| - pos
  {
    if pos == |s| then None else if s[pos] == LF then Some(pos) else FindLf(s, pos + 1)
  }

  function StripCr(line: string): string {
    if |line| > 0 && line[|line| - 1] == CR then StripCr(line[..|line| - 1]) else line
  }

  /** Trailing carriage returns go, and nothing else. */
  lemma {:induction false} StripCrDrops(line: string)
    ensures StripCr(line) <= line
    ensures forall i :: |StripCr(line)| <= i < |line| ==> line[i] == '\r'
    ensures |StripCr(line)| > 0 ==> StripCr(line)[|StripCr(line)| - 1] != '\r'
    decreases |line|
  {
    if |line| > 0 && line[|line| - 1] == CR {
      StripCrDrops(line[..|line| - 1]);
    }
  }

  /** Three hyphens, and after them nothing but carriage returns. */
  predicate ClosingMark(line: string) {
    |line| >= 3 && line[..3] == "---" && forall i :: 3 <= i < |line| ==> line[i] == '\r'
  }

  lemma {:induction false} ClosingMarkIs(line: string)
    ensures StripCr(line) == MARK <==> ClosingMark(line)
    decreases |line|
  {
    if |line| > 0 && line[|line| - 1] == CR {
      var front := line[..|line| - 1];
      ClosingMarkIs(front);
      if |line| > 3 {
        assert front[..3] == line[..3];
      } else if |line| == 3 {
        assert line[..3][2] == line[2];
      }
    } else if |line| == 3 {
      assert line[..3] == line;
    }
  }

  /** Where the closing line is: the end of the block before it, and the start of the body after it. */
  datatype Block = Block(yamlEnd: nat, bodyStart: nat)

  function FindClose(rest: string, pos: nat): (r: Option<Block>)
    requires pos <= |rest|
    ensures r.Some? ==> pos <= r.value.yamlEnd <= r.value.bodyStart <= |rest|
    decreases |rest| - pos
  {
    match FindLf(rest, pos)
    case None => if StripCr(rest[pos..]) == MARK then Some(Block(pos, |rest|)) else None
    case Some(end) =>
      if StripCr(rest[pos..end]) == MARK then Some(Block(pos, end + 1)) else FindClose(rest, end + 1)
  }

  function OpenLength(content: string): Option<nat> {
    if OPEN <= content then Some(4) else if OPEN_CRLF <= content then Some(5) else None
  }

  datatype Parts = Parts(yaml: string, body: string)

  function Extract(content: string): Option<Parts> {
    match OpenLength(content)
    case None => None
    case Some(after) =>
      var rest := content[after..];
      match FindClose(rest, 0)
      case None => None
      case Some(block) => Some(Parts(rest[..block.yamlEnd], rest[block.bodyStart..]))
  }

  /** The line-by-line search for the closing mark. */
  method ExtractRaw(content: string) returns (r: Option<(string, nat)>)
    ensures r.Some? <==> Extract(content).Some?
    ensures r.Some? ==> r.value.1 <= |content| && Extract(content).value == Parts(r.value.0, content[r.value.1..])
  {
    hide FindLf, StripCr, Extract, FindClose;
    var afterOpen := 0;
    if OPEN <= content {
      afterOpen := 4;
    } else if OPEN_CRLF <= content {
      afterOpen := 5;
    } else {
      NotOpened(content);
      return None;
    }
    var rest := content[afterOpen..];
    var pos := 0;
    while true
      invariant 0 <= pos <= |rest|
      invariant FindClose(rest, 0) == FindClose(rest, pos)
      decreases |rest| - pos
    {
      var end := FindLf(rest, pos);
      var line := if end.Some? then rest[pos..end.value] else rest[pos..];
      FindCloseHere(rest, pos);
      ExtractIs(content, afterOpen);
      if StripCr(line) == MARK {
        var bodyStart := if end.Some? then afterOpen + end.value + 1 else |content|;
        TailOfTail(content, afterOpen, bodyStart - afterOpen);
        return Some((rest[..pos], bodyStart));
      }
      if end.None? {
        return None;
      }
      pos := end.value + 1;
    }
  }

  // ----- what a block is -----

  /** A line of `s` runs from `a` to `b`, without its line feed. */
  ghost predicate IsLine(s: string, a: nat, b: nat) {
    && a <= b <= |s|
    && (a == 0 || s[a - 1] == '\n') && (b == |s| || s[b] == '\n')
    && (forall i :: a <= i < b ==> s[i] != '\n')
  }

  /** The first line that closes a block runs from `a` to `b`. */
  ghost predicate ClosesFirst(s: string, a: nat, b: nat) {
    && IsLine(s, a, b) && ClosingMark(s[a..b])
    && (forall c: nat, d: nat :: c < a && IsLine(s, c, d) ==> !ClosingMark(s[c..d]))
  }

  /** The block opens with three hyphens at the very start, with or without a carriage return before the line feed. */
  predicate OpensBy(content: string, opening: string) {
    (opening == "---\n" || opening == "---\r\n") && opening <= content
  }

  /** The file has a block: what stands between the opening line and the first closing line, and then the body. */
  ghost predicate HasBlock(content: string, parts: Parts) {
    exists opening, a: nat, b: nat :: OpensBy(content, opening) && BlockAt(content[|opening|..], a, b, parts)
  }

  ghost predicate BlockAt(rest: string, a: nat, b: nat, parts: Parts) {
    && ClosesFirst(rest, a, b)
    && parts == Parts(rest[..a], if b < |rest| then rest[b + 1..] else "")
  }

  ghost predicate NoneCloses(s: string, before: nat) {
    forall c: nat, d: nat :: c < before && IsLine(s, c, d) ==> !ClosingMark(s[c..d])
  }

  lemma SameStart(s: string, a: nat, b: nat, d: nat)
    requires IsLine(s, a, b) && IsLine(s, a, d)
    ensures b == d
  {
  }

  /** The line at `pos`, as the search sees it. */
  lemma LineHere(s: string, pos: nat) returns (end: nat)
    requires pos <= |s| && (pos == 0 || s[pos - 1] == '\n')
    ensures IsLine(s, pos, end) && (FindLf(s, pos).Some? <==> end < |s|) && (end < |s| ==> FindLf(s, pos).value == end)
  {
    end := if FindLf(s, pos).Some? then FindLf(s, pos).value else |s|;
    hide FindLf;
  }

  lemma LineAfter(s: string, pos: nat, end: nat)
    requires IsLine(s, pos, end) && NoneCloses(s, pos) && !ClosingMark(s[pos..end])
    ensures NoneCloses(s, if end < |s| then end + 1 else |s| + 1)
  {
    var next := if end < |s| then end + 1 else |s| + 1;
    hide ClosingMark;
    forall c: nat, d: nat | c < next && IsLine(s, c, d) ensures !ClosingMark(s[c..d]) {
      if c == pos {
        SameStart(s, pos, end, d);
      }
    }
  }

  /** The search finds the first closing line, and nothing only if no line closes. */
  lemma {:induction false} FindCloseIs(s: string, pos: nat)
    requires pos <= |s| && (pos == 0 || s[pos - 1] == '\n') && NoneCloses(s, pos)
    ensures FindClose(s, pos).Some? ==>
              exists b: nat :: ClosesFirst(s, FindClose(s, pos).value.yamlEnd, b) &&
                               FindClose(s, pos).value.bodyStart == if b < |s| then b + 1 else |s|
    ensures FindClose(s, pos).None? ==> NoneCloses(s, |s| + 1)
    decreases |s| - pos
  {
    hide FindLf, StripCr, FindClose, ClosingMark;
    var end := LineHere(s, pos);
    FindCloseHere(s, pos);
    assert end == |s| ==> s[pos..] == s[pos..end];
    ClosingMarkIs(s[pos..end]);
    if ClosingMark(s[pos..end]) {
      assert ClosesFirst(s, pos, end);
    } else {
      LineAfter(s, pos, end);
      if end < |s| {
        FindCloseIs(s, end + 1);
      }
    }
  }

  lemma OneFirst(s: string, a: nat, b: nat, c: nat, d: nat)
    requires ClosesFirst(s, a, b) && ClosesFirst(s, c, d)
    ensures a == c && b == d
  {
    hide ClosingMark;
    if a == c {
      SameStart(s, a, b, d);
    }
  }

  lemma OneOpening(content: string, opening: string, other: string)
    requires OpensBy(content, opening) && OpensBy(content, other)
    ensures opening == other
  {
    assert content[3] == opening[3] && content[3] == other[3];
  }

  lemma BlockIsExtracted(content: string, opening: string, a: nat, b: nat, parts: Parts)
    requires OpensBy(content, opening) && BlockAt(content[|opening|..], a, b, parts)
    ensures Extract(content) == Some(parts)
  {
    OpenLengthIs(content, opening);
    ExtractIs(content, |opening|);
    var rest := content[|opening|..];
    FindCloseIs(rest, 0);
    hide Extract, FindClose, ClosingMark, ClosesFirst;
    if FindClose(rest, 0).Some? {
      var close := FindClose(rest, 0).value;
      var d: nat :| ClosesFirst(rest, close.yamlEnd, d) && close.bodyStart == if d < |rest| then d + 1 else |rest|;
      OneFirst(rest, a, b, close.yamlEnd, d);
      assert rest[close.bodyStart..] == if b < |rest| then rest[b + 1..] else "";
    } else {
      SomeCloses(rest, a, b);
    }
  }

  lemma SomeCloses(s: string, a: nat, b: nat)
    requires ClosesFirst(s, a, b)
    ensures !NoneCloses(s, |s| + 1)
  {
    hide ClosingMark;
  }

  lemma ExtractedIsBlock(content: string, opening: string)
    requires OpensBy(content, opening) && Extract(content).Some?
    ensures HasBlock(content, Extract(content).value)
  {
    OpenLengthIs(content, opening);
    ExtractIs(content, |opening|);
    var rest := content[|opening|..];
    FindCloseIs(rest, 0);
    hide Extract, FindClose, ClosingMark, ClosesFirst;
    var close := FindClose(rest, 0).value;
    var b: nat :| ClosesFirst(rest, close.yamlEnd, b) && close.bodyStart == if b < |rest| then b + 1 else |rest|;
    assert BlockAt(rest, close.yamlEnd, b, Extract(content).value);
  }

  /** What is extracted is the block, if there is one. */
  lemma ExtractIsBlock(content: string, parts: Parts)
    ensures Extract(content) == Some(parts) <==> HasBlock(content, parts)
  {
    hide BlockAt;
    if HasBlock(content, parts) {
      var opening, a: nat, b: nat :| OpensBy(content, opening) && BlockAt(content[|opening|..], a, b, parts);
      BlockIsExtracted(content, opening, a, b, parts);
    }
    if Extract(content).Some? {
      var opening := OpeningOf(content);
      hide Extract, HasBlock;
      ExtractedIsBlock(content, opening);
    }
  }

  lemma OpeningOf(content: string) returns (opening: string)
    requires Extract(content).Some?
    ensures OpensBy(content, opening)
  {
    hide FindClose;
    opening := if OPEN <= content then OPEN else OPEN_CRLF;
  }

  lemma OpenLengthIs(content: string, opening: string)
    requires OpensBy(content, opening)
    ensures OpenLength(content) == Some(|opening|)
  {
    if OPEN <= content {
      OneOpening(content, opening, OPEN);
    }
  }

  lemma NotOpened(content: string)
    requires OpenLength(content).None?
    ensures Extract(content) == None
  {
  }

  lemma FindCloseHere(rest: string, pos: nat)
    requires pos <= |rest|
    ensures var end := FindLf(rest, pos);
            var line := if end.Some? then rest[pos..end.value] else rest[pos..];
            FindClose(rest, pos) ==
            if StripCr(line) == MARK then Some(Block(pos, if end.Some? then end.value + 1 else |rest|))
            else if end.Some? then FindClose(rest, end.value + 1) else None
  {
    hide FindLf, StripCr;
  }

  lemma ExtractIs(content: string, after: nat)
    requires OpenLength(content) == Some(after)
    ensures after <= |content|
    ensures var rest := content[after..];
            var close := FindClose(rest, 0);
            Extract(content) ==
            if close.Some? then Some(Parts(rest[..close.value.yamlEnd], rest[close.value.bodyStart..])) else None
  {
    hide FindClose;
  }

  lemma TailOfTail(s: string, a: nat, b: nat)
    requires a + b <= |s|
    ensures s[a..][b..] == s[a + b..]
  {
  }

  function GetBody(content: string): string {
    match Extract(content)
    case Some(parts) => parts.body
    case None => content
  }

  // ----- fields -----

  type Fields = map<string, string>

  datatype Parsed = Mapping(fields: Fields) | NotAMapping

  /** The YAML library: a parser that may fail and a printer for mappings; and white-space-only text. */
  datatype Yaml = Yaml(parse: string -> Result<Parsed>, show: Fields -> string, blank: string -> bool)

  /**
   * What is assumed of the library: what it prints for a non-empty mapping is not blank, parses back, ends its last
   * line, and holds no line that closes a block.
   */
  ghost predicate Lawful(y: Yaml) {
    forall m: Fields :: m != map[] ==>
      && !y.blank(y.show(m)) && y.parse(y.show(m)) == Ok(Mapping(m))
      && Ended(y.show(m)) && FindClose(y.show(m), 0) == None
  }

  predicate Ended(s: string) {
    |s| > 0 && s[|s| - 1] == LF
  }

  /** No block is no fields at all; a block that is no mapping counts as an empty one. */
  function Parse(y: Yaml, content: string): Result<Option<Fields>> {
    match Extract(content)
    case None => Ok(None)
    case Some(parts) =>
      if y.blank(parts.yaml) then Ok(Some(map[]))
      else
        match y.parse(parts.yaml)
        case Err(error) => Err(error)
        case Ok(Mapping(fields)) => Ok(Some(fields))
        case Ok(NotAMapping) => Ok(Some(map[]))
  }

  /** What parsing yields for a file without a block, and for a blank, a failing, a mapping and any other block. */
  lemma ParseIs(y: Yaml, content: string, parts: Parts)
    ensures (forall some :: !HasBlock(content, some)) ==> Parse(y, content) == Ok(None)
    ensures HasBlock(content, parts) ==>
              Parse(y, content) ==
              if y.blank(parts.yaml) then Ok(Some(map[]))
              else if y.parse(parts.yaml).Err? then Err(y.parse(parts.yaml).error)
              else if y.parse(parts.yaml).value.Mapping? then Ok(Some(y.parse(parts.yaml).value.fields))
              else Ok(Some(map[]))
  {
    ExtractIsBlock(content, parts);
    if Extract(content).Some? {
      ExtractIsBlock(content, Extract(content).value);
    }
    hide Extract, HasBlock;
  }

  /** The body is what follows the block, and without a block it is the whole file. */
  lemma BodyIs(content: string, parts: Parts)
    ensures HasBlock(content, parts) ==> GetBody(content) == parts.body
    ensures (forall some :: !HasBlock(content, some)) ==> GetBody(content) == content
  {
    ExtractIsBlock(content, parts);
    if Extract(content).Some? {
      ExtractIsBlock(content, Extract(content).value);
    }
    hide Extract, HasBlock;
  }

  function Rebuild(y: Yaml, fields: Fields, body: string): string {
    if fields != map[] then OPEN + y.show(fields) + OPEN + body else body
  }

  lemma RebuildIs(y: Yaml, fields: Fields, body: string)
    ensures fields.Keys != {} ==> Rebuild(y, fields, body) == "---\n" + y.show(fields) + "---\n" + body
    ensures fields.Keys == {} ==> Rebuild(y, fields, body) == body
  {
  }

  method SetField(y: Yaml, content: string, key: string, value: string) returns (r: Result<string>)
    ensures r == WithField(y, content, key, value)
    ensures Parse(y, content).Ok? ==>
              var fields := if Parse(y, content).value.Some? then Parse(y, content).value.value else map[];
              r == Ok("---\n" + y.show(fields[key := value]) + "---\n" + GetBody(content))
    ensures Parse(y, content).Err? ==> r == Err(Parse(y, content).error)
    ensures Lawful(y) && Parse(y, content).Ok? ==>
              && r.Ok? && GetBody(r.value) == GetBody(content)
              && Parse(y, r.value) == Ok(Some(FieldsOf(Parse(y, content).value)[key := value]))
  {
    hide Parse, GetBody, Rebuild;
    if Lawful(y) && Parse(y, content).Ok? {
      SetAddsOneField(y, content, key, value);
    }
    hide Lawful;
    var parsed := Parse(y, content);
    if parsed.Err? {
      return Err(parsed.error);
    }
    var fields := if parsed.value.Some? then parsed.value.value else map[];
    fields := fields[key := value];
    assert key in fields.Keys;
    RebuildIs(y, fields, GetBody(content));
    r := Ok(Rebuild(y, fields, GetBody(content)));
  }

  method RemoveField(y: Yaml, content: string, key: string) returns (r: Result<string>)
    ensures r == WithoutField(y, content, key)
    ensures Parse(y, content).Err? ==> r == Err(Parse(y, content).error)
    ensures Parse(y, content).Ok? && key !in FieldsOf(Parse(y, content).value) ==> r == Ok(content)
    ensures Parse(y, content).Ok? && FieldsOf(Parse(y, content).value).Keys == {key} ==> r == Ok(GetBody(content))
    ensures Parse(y, content).Ok? && FieldsOf(Parse(y, content).value).Keys > {key} ==>
              r == Ok("---\n" + y.show(FieldsOf(Parse(y, content).value) - {key}) + "---\n" + GetBody(content))
    ensures Lawful(y) && Parse(y, content).Ok? && FieldsOf(Parse(y, content).value).Keys > {key} ==>
              && r.Ok? && GetBody(r.value) == GetBody(content)
              && Parse(y, r.value) == Ok(Some(FieldsOf(Parse(y, content).value) - {key}))
  {
    RemoveDropsOneField(y, content, key);
    hide Parse, GetBody, Lawful;
    var parsed := Parse(y, content);
    if parsed.Err? {
      return Err(parsed.error);
    }
    if parsed.value.None? || key !in parsed.value.value {
      return Ok(content);
    }
    var fields := parsed.value.value - {key};
    assert fields.Keys == parsed.value.value.Keys - {key};
    RebuildIs(y, fields, GetBody(content));
    r := Ok(if fields == map[] then GetBody(content) else Rebuild(y, fields, GetBody(content)));
  }

  function FieldsOf(parsed: Option<Fields>): Fields {
    if parsed.Some? then parsed.value else map[]
  }

  function WithField(y: Yaml, content: string, key: string, value: string): Result<string> {
    match Parse(y, content)
    case Err(error) => Err(error)
    case Ok(parsed) => Ok(Rebuild(y, FieldsOf(parsed)[key := value], GetBody(content)))
  }

  function WithoutField(y: Yaml, content: string, key: string): Result<string> {
    match Parse(y, content)
    case Err(error) => Err(error)
    case Ok(parsed) =>
      if key !in FieldsOf(parsed) then Ok(content)
      else Ok(Rebuild(y, FieldsOf(parsed) - {key}, GetBody(content)))
  }

  // ----- round trips -----

  lemma FirstLf(s: string, pos: nat, end: nat)
    requires pos <= end < |s| && s[end] == LF && forall i :: pos <= i < end ==> s[i] != LF
    ensures FindLf(s, pos) == Some(end)
  {
    hide FindLf;
  }

  lemma SameLine(yaml: string, tail: string, pos: nat)
    requires pos < |yaml| && Ended(yaml)
    ensures FindLf(yaml, pos).Some? && FindLf(yaml + tail, pos) == FindLf(yaml, pos)
    ensures (yaml + tail)[pos..FindLf(yaml, pos).value] == yaml[pos..FindLf(yaml, pos).value]
  {
    hide FindLf;
    assert yaml[|yaml| - 1] == LF;
    FirstLf(yaml + tail, pos, FindLf(yaml, pos).value);
  }

  lemma CloseAt(s: string, pos: nat)
    requires pos + 4 <= |s| && s[pos] == '-' && s[pos + 1] == '-' && s[pos + 2] == '-' && s[pos + 3] == LF
    ensures FindClose(s, pos) == Some(Block(pos, pos + 4))
  {
    FirstLf(s, pos, pos + 3);
    hide FindLf;
    assert s[pos..pos + 3] == MARK;
    assert StripCr(MARK) == MARK;
    hide StripCr;
  }

  lemma ClosingLine(yaml: string, tail: string)
    ensures FindClose(yaml + (OPEN + tail), |yaml|) == Some(Block(|yaml|, |yaml| + 4))
  {
    hide FindClose;
    CloseAt(yaml + (OPEN + tail), |yaml|);
  }

  /** A line that does not close the block is skipped. */
  lemma NextLine(s: string, pos: nat, end: nat)
    requires pos <= |s| && FindLf(s, pos) == Some(end) && StripCr(s[pos..end]) != MARK
    ensures FindClose(s, pos) == FindClose(s, end + 1)
  {
    hide FindLf, StripCr;
  }

  lemma OpenLine(s: string, pos: nat)
    requires pos <= |s| && FindLf(s, pos).Some? && FindClose(s, pos) == None
    ensures StripCr(s[pos..FindLf(s, pos).value]) != MARK
  {
    hide FindLf, StripCr;
  }

  lemma {:induction false} SkipsBlock(yaml: string, tail: string, pos: nat)
    requires pos <= |yaml| && Ended(yaml) && FindClose(yaml, pos) == None
    ensures FindClose(yaml + tail, pos) == FindClose(yaml + tail, |yaml|)
    decreases |yaml| - pos
  {
    hide FindLf, StripCr, Ended, FindClose;
    if pos < |yaml| {
      SameLine(yaml, tail, pos);
      var end := FindLf(yaml, pos).value;
      OpenLine(yaml, pos);
      NextLine(yaml, pos, end);
      NextLine(yaml + tail, pos, end);
      SkipsBlock(yaml, tail, end + 1);
    }
  }

  /** A block that holds no closing line is closed by the line that follows it, whatever the body. */
  lemma ClosesAfter(yaml: string, tail: string)
    requires Ended(yaml) && FindClose(yaml, 0) == None
    ensures FindClose(yaml + (OPEN + tail), 0) == Some(Block(|yaml|, |yaml| + 4))
  {
    hide FindClose;
    SkipsBlock(yaml, OPEN + tail, 0);
    ClosingLine(yaml, tail);
  }

  /** The rest of a rebuilt file after its opening mark, and the two parts around its closing line. */
  lemma RebuiltSlices(yaml: string, body: string)
    ensures var content, rest := OPEN + yaml + OPEN + body, yaml + (OPEN + body);
            && OPEN <= content && content[4..] == rest
            && rest[..|yaml|] == yaml && rest[|yaml| + 4..] == body
  {
    var content := OPEN + yaml + OPEN + body;
    assert content == OPEN + (yaml + (OPEN + body));
  }

  /** A file rebuilt around a block that holds no closing line: the block and the body come back. */
  lemma BlockExtracts(yaml: string, body: string)
    requires Ended(yaml) && FindClose(yaml, 0) == None
    ensures Extract(OPEN + yaml + OPEN + body) == Some(Parts(yaml, body))
  {
    RebuiltSlices(yaml, body);
    ClosesAfter(yaml, body);
    hide Ended, FindClose, Extract;
    ExtractIs(OPEN + yaml + OPEN + body, 4);
  }

  /**
   * Rebuilding then extracting gives back exactly the fields and the body: for any body, even one that starts like
   * a block itself, and any non-empty mapping.
   */
  lemma RebuiltExtracts(y: Yaml, fields: Fields, body: string)
    requires Lawful(y) && fields != map[]
    ensures Parse(y, Rebuild(y, fields, body)) == Ok(Some(fields))
    ensures GetBody(Rebuild(y, fields, body)) == body
  {
    var yaml := y.show(fields);
    hide Ended, FindClose, Extract;
    BlockExtracts(yaml, body);
  }

  /** Setting a field adds it and leaves the body and every other field alone. */
  lemma SetAddsOneField(y: Yaml, content: string, key: string, value: string)
    requires Lawful(y) && Parse(y, content).Ok?
    ensures var set_ := WithField(y, content, key, value);
            && set_.Ok?
            && Parse(y, set_.value) == Ok(Some(FieldsOf(Parse(y, content).value)[key := value]))
            && GetBody(set_.value) == GetBody(content)
  {
    var fields := FieldsOf(Parse(y, content).value)[key := value];
    assert key in fields;
    RebuiltExtracts(y, fields, GetBody(content));
  }

  /** Removing a field leaves the body and every other field alone; without other fields the bare body is left. */
  lemma RemoveDropsOneField(y: Yaml, content: string, key: string)
    ensures var parsed := Parse(y, content);
            var without := WithoutField(y, content, key);
            && (parsed.Ok? && FieldsOf(parsed.value).Keys == {key} ==> without == Ok(GetBody(content)))
            && (Lawful(y) && parsed.Ok? && FieldsOf(parsed.value).Keys > {key} ==>
                  && without.Ok? && GetBody(without.value) == GetBody(content)
                  && Parse(y, without.value) == Ok(Some(FieldsOf(parsed.value) - {key})))
  {
    var parsed := Parse(y, content);
    hide Parse, GetBody, Lawful;
    if parsed.Ok? && {key} <= FieldsOf(parsed.value).Keys {
      var fields := FieldsOf(parsed.value) - {key};
      assert fields.Keys == FieldsOf(parsed.value).Keys - {key};
      if Lawful(y) && FieldsOf(parsed.value).Keys > {key} {
        assert fields.Keys != {};
        RebuiltExtracts(y, fields, GetBody(content));
      }
    }
  }

  /**
   * Setting a new field and removing it again. Fields that were there come back with the body. Without fields the
   * result is the bare body: byte for byte the file if it had no block, and otherwise still the same body exactly
   * when that body does not itself read as a block.
   */
  lemma SetThenRemove(y: Yaml, content: string, key: string, value: string)
    requires Lawful(y) && Parse(y, content).Ok? && key !in FieldsOf(Parse(y, content).value)
    ensures var fields, body := FieldsOf(Parse(y, content).value), GetBody(content);
            var set_ := WithField(y, content, key, value);
            var back := WithoutField(y, set_.value, key);
            && back.Ok?
            && (fields != map[] ==> Parse(y, back.value) == Ok(Some(fields)) && GetBody(back.value) == body)
            && (fields == map[] ==> back.value == body)
            && (Extract(content).None? ==> back.value == content)
  {
    var fields, body := FieldsOf(Parse(y, content).value), GetBody(content);
    SetAddsOneField(y, content, key, value);
    assert fields[key := value] - {key} == fields;
    if fields != map[] {
      RebuiltExtracts(y, fields, body);
    }
  }

  /** A block is never empty text, so a body that reads as a block is longer than what it would leave. */
  lemma ExtractShortens(content: string)
    requires Extract(content).Some?
    ensures |GetBody(content)| < |content|
  {
  }

  /** The exact condition without fields: the body must not start with a block of its own. */
  lemma BareBodySurvives(y: Yaml, content: string, key: string, value: string)
    requires Lawful(y) && Parse(y, content).Ok? && FieldsOf(Parse(y, content).value) == map[]
    ensures var set_ := WithField(y, content, key, value);
            var back := WithoutField(y, set_.value, key);
            back.Ok? && (GetBody(back.value) == GetBody(content) <==> Extract(GetBody(content)).None?)
  {
    SetThenRemove(y, content, key, value);
    if Extract(GetBody(content)).Some? {
      ExtractShortens(GetBody(content));
    }
  }

  /** A file whose empty block is followed by another one: setting and removing a field loses that one. */
  lemma EmptyBlockBeforeBlock(tail: string)
    ensures var content := OPEN + OPEN + (OPEN + OPEN + tail);
            && Extract(content) == Some(Parts("", OPEN + OPEN + tail))
            && Extract(GetBody(content)) == Some(Parts("", tail))
  {
    TwoMarks(OPEN + OPEN + tail);
    TwoMarks(tail);
  }

  lemma TwoMarks(tail: string)
    ensures Extract(OPEN + OPEN + tail) == Some(Parts("", tail))
  {
    hide FindClose;
    var content := OPEN + OPEN + tail;
    var rest := content[4..];
    assert rest == OPEN + tail;
    CloseAt(rest, 0);
    assert rest[4..] == tail;
  }
}
