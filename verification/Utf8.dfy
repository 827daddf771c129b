/** Text as UTF-8 bytes: character boundaries, white space and trimming. */
module Utf8 {

  type byte = b: int | 0 <= b < 256

  type Bytes = seq<byte>

  // ----- characters -----

  predicate IsCont(b: byte) {
    0x80 <= b < 0xC0
  }

  function Width(lead: byte): nat {
    if lead < 0x80 then 1 else if lead < 0xE0 then 2 else if lead < 0xF0 then 3 else 4
  }

  /** A whole character starts at `i`: its lead byte and exactly as many continuation bytes as that announces. */
  ghost predicate CharAt(s: Bytes, i: nat) {
    && i < |s| && !IsCont(s[i]) && i + Width(s[i]) <= |s|
    && (forall j :: i < j < i + Width(s[i]) ==> IsCont(s[j]))
    && (i + Width(s[i]) < |s| ==> !IsCont(s[i + Width(s[i])]))
  }

  ghost predicate WellFormed(s: Bytes) {
    && (|s| > 0 ==> !IsCont(s[0]))
    && (forall i :: 0 <= i < |s| && !IsCont(s[i]) ==> CharAt(s, i))
  }

  predicate Boundary(s: Bytes, k: nat) {
    k == 0 || k == |s| || (k < |s| && !IsCont(s[k]))
  }

  lemma CharInSlice(s: Bytes, a: nat, b: nat, i: nat)
    requires WellFormed(s) && a <= b <= |s| && Boundary(s, b) && i < b - a && !IsCont(s[a + i])
    ensures CharAt(s[a..b], i)
  {
    assert CharAt(s, a + i);
    var w := Width(s[a + i]);
    assert forall j :: a + i < j < a + i + w ==> !Boundary(s, j);
    assert a + i + w <= b;
    var t := s[a..b];
    assert t[i] == s[a + i];
    forall j | i < j < i + w ensures IsCont(t[j]) {
      assert IsCont(s[a + j]);
    }
  }

  lemma SliceWellFormed(s: Bytes, a: nat, b: nat)
    requires WellFormed(s) && a <= b <= |s| && Boundary(s, a) && Boundary(s, b)
    ensures WellFormed(s[a..b])
    ensures forall k :: 0 <= k <= b - a ==> (Boundary(s[a..b], k) <==> Boundary(s, a + k))
  {
    hide CharAt;
    var t := s[a..b];
    forall i | 0 <= i < |t| && !IsCont(t[i]) ensures CharAt(t, i) {
      CharInSlice(s, a, b, i);
    }
  }

  /** The last boundary at or before `k`. */
  function LastBoundary(s: Bytes, k: nat): (b: nat)
    requires k <= |s|
    ensures b <= k && Boundary(s, b) && forall j :: b < j <= k ==> !Boundary(s, j)
    decreases k
  {
    if Boundary(s, k) then k else LastBoundary(s, k - 1)
  }

  /** A character has at most four bytes, so a boundary is never more than three bytes away. */
  lemma BoundaryIsNear(s: Bytes, k: nat)
    requires WellFormed(s) && k <= |s|
    ensures k - LastBoundary(s, k) <= 3
  {
    var b := LastBoundary(s, k);
    if b < k {
      assert b < |s| && !IsCont(s[b]);
      assert CharAt(s, b);
      var end := b + Width(s[b]);
      assert end <= |s| && Boundary(s, end);
    }
  }

  // ----- white space -----

  /** The byte length of the white-space character that starts at `i`, or 0. */
  function SpaceWidth(s: Bytes, i: nat): (w: nat)
    requires i < |s|
    ensures w <= 3 && i + w <= |s|
  {
    if 0x09 <= s[i] <= 0x0D || s[i] == 0x20 then 1
    else if i + 1 < |s| && s[i] == 0xC2 && (s[i + 1] == 0x85 || s[i + 1] == 0xA0) then 2
    else if i + 2 < |s| && IsWideSpace(s[i], s[i + 1], s[i + 2]) then 3
    else 0
  }

  predicate IsWideSpace(b0: byte, b1: byte, b2: byte) {
    || (b0 == 0xE1 && b1 == 0x9A && b2 == 0x80)
    || (b0 == 0xE2 && b1 == 0x80 && (0x80 <= b2 <= 0x8A || b2 == 0xA8 || b2 == 0xA9 || b2 == 0xAF))
    || (b0 == 0xE2 && b1 == 0x81 && b2 == 0x9F)
    || (b0 == 0xE3 && b1 == 0x80 && b2 == 0x80)
  }

  /** Byte `k` belongs to a white-space character. */
  predicate IsWhite(s: Bytes, k: nat)
    requires k < |s|
  {
    || SpaceWidth(s, k) >= 1
    || (k >= 1 && SpaceWidth(s, k - 1) >= 2)
    || (k >= 2 && SpaceWidth(s, k - 2) >= 3)
  }

  lemma SpaceCovers(s: Bytes, i: nat, k: nat)
    requires i < |s| && i <= k < i + SpaceWidth(s, i)
    ensures IsWhite(s, k)
  {
  }

  lemma WhiteInSlice(s: Bytes, a: nat, b: nat, k: nat)
    requires a <= b <= |s| && k < b - a && IsWhite(s[a..b], k)
    ensures IsWhite(s, a + k)
  {
    var t := s[a..b];
    SameSpace(s, a, b, k);
    if k >= 1 { SameSpace(s, a, b, k - 1); }
    if k >= 2 { SameSpace(s, a, b, k - 2); }
  }

  lemma SameSpace(s: Bytes, a: nat, b: nat, i: nat)
    requires a <= b <= |s| && i < b - a
    ensures SpaceWidth(s[a..b], i) > 0 ==> SpaceWidth(s, a + i) == SpaceWidth(s[a..b], i)
  {
  }

  function SkipSpace(s: Bytes, i: nat): (k: nat)
    requires i <= |s|
    ensures i <= k <= |s|
    ensures k < |s| ==> SpaceWidth(s, k) == 0
    decreases |s| - i
  {
    if i < |s| && SpaceWidth(s, i) > 0 then SkipSpace(s, i + SpaceWidth(s, i)) else i
  }

  /** The byte length of the white-space character of `s[lo..hi]` that ends at `hi`, or 0. */
  function SpaceBefore(s: Bytes, lo: nat, hi: nat): (w: nat)
    requires lo <= hi <= |s|
    ensures w <= hi - lo
    ensures w > 0 ==> SpaceWidth(s, hi - w) == w
  {
    if lo + 1 <= hi && SpaceWidth(s, hi - 1) == 1 then 1
    else if lo + 2 <= hi && SpaceWidth(s, hi - 2) == 2 then 2
    else if lo + 3 <= hi && SpaceWidth(s, hi - 3) == 3 then 3
    else 0
  }

  function DropSpace(s: Bytes, lo: nat, hi: nat): (k: nat)
    requires lo <= hi <= |s|
    ensures lo <= k <= hi && SpaceBefore(s, lo, k) == 0
    decreases hi
  {
    if SpaceBefore(s, lo, hi) > 0 then DropSpace(s, lo, hi - SpaceBefore(s, lo, hi)) else hi
  }

  function TrimStart(s: Bytes): Bytes {
    s[SkipSpace(s, 0)..]
  }

  function TrimLo(s: Bytes): (lo: nat)
    ensures lo <= |s|
  {
    SkipSpace(s, 0)
  }

  function TrimHi(s: Bytes): (hi: nat)
    ensures TrimLo(s) <= hi <= |s|
  {
    DropSpace(s, TrimLo(s), |s|)
  }

  function Trim(s: Bytes): Bytes {
    s[TrimLo(s)..TrimHi(s)]
  }

  predicate Blank(s: Bytes) {
    Trim(s) == []
  }

  lemma {:induction false} SkippedIsWhite(s: Bytes, i: nat, k: nat)
    requires i <= |s| && i <= k < SkipSpace(s, i)
    ensures IsWhite(s, k)
    decreases |s| - i
  {
    var w := SpaceWidth(s, i);
    if k < i + w {
      SpaceCovers(s, i, k);
    } else {
      SkippedIsWhite(s, i + w, k);
    }
  }

  lemma {:induction false} DroppedIsWhite(s: Bytes, lo: nat, hi: nat, k: nat)
    requires lo <= hi <= |s| && DropSpace(s, lo, hi) <= k < hi
    ensures IsWhite(s, k)
    decreases hi
  {
    var w := SpaceBefore(s, lo, hi);
    if hi - w <= k {
      SpaceCovers(s, hi - w, k);
    } else {
      DroppedIsWhite(s, lo, hi - w, k);
    }
  }

  /** Trimming loses white space only. */
  lemma TrimKeepsInk(s: Bytes, k: nat)
    requires k < |s| && !IsWhite(s, k)
    ensures TrimLo(s) <= k < TrimHi(s)
  {
    if k < TrimLo(s) {
      SkippedIsWhite(s, 0, k);
    } else if TrimHi(s) <= k {
      DroppedIsWhite(s, TrimLo(s), |s|, k);
    }
  }

  // ----- what white space and trimming are -----

  /** The code point of the character at `i`, read off its bytes. */
  function CodePoint(s: Bytes, i: nat): int
    requires i < |s| && i + Width(s[i]) <= |s|
  {
    if s[i] < 0x80 then s[i] as int
    else if s[i] < 0xE0 then (s[i] as int - 0xC0) * 0x40 + (s[i + 1] as int - 0x80)
    else if s[i] < 0xF0 then
      (s[i] as int - 0xE0) * 0x1000 + (s[i + 1] as int - 0x80) * 0x40 + (s[i + 2] as int - 0x80)
    else
      (s[i] as int - 0xF0) * 0x40000 + (s[i + 1] as int - 0x80) * 0x1000 + (s[i + 2] as int - 0x80) * 0x40 +
      (s[i + 3] as int - 0x80)
  }

  /** The code points with the Unicode property White_Space. */
  predicate UnicodeSpace(c: int) {
    || 0x09 <= c <= 0x0D || c == 0x20 || c == 0x85 || c == 0xA0 || c == 0x1680 || 0x2000 <= c <= 0x200A
    || c == 0x2028 || c == 0x2029 || c == 0x202F || c == 0x205F || c == 0x3000
  }

  /** A whole character in its shortest form: what the encoding allows at `i`. */
  ghost predicate Canonical(s: Bytes, i: nat) {
    && CharAt(s, i) && s[i] < 0xF8
    && (Width(s[i]) == 2 ==> CodePoint(s, i) >= 0x80)
    && (Width(s[i]) == 3 ==> CodePoint(s, i) >= 0x800)
    && (Width(s[i]) == 4 ==> CodePoint(s, i) >= 0x10000)
  }

  /** The byte patterns for white space are exactly the white-space characters of Unicode, each as a whole. */
  lemma SpaceIsUnicode(s: Bytes, i: nat)
    requires Canonical(s, i)
    ensures SpaceWidth(s, i) == if UnicodeSpace(CodePoint(s, i)) then Width(s[i]) else 0
  {
    var w := Width(s[i]);
    assert forall j :: i < j < i + w ==> IsCont(s[j]);
    if w >= 2 { assert IsCont(s[i + 1]); }
    if w >= 3 { assert IsCont(s[i + 2]); }
    if w == 4 { assert IsCont(s[i + 3]); }
  }

  // ----- text as encoded characters -----

  predicate IsCodePoint(c: int) {
    0 <= c < 0x110000
  }

  function Encode(c: int): Bytes
    requires IsCodePoint(c)
  {
    var high, low := c / 0x40, (0x80 + c % 0x40) as byte;
    var higher, middle := high / 0x40, (0x80 + high % 0x40) as byte;
    if c < 0x80 then [c as byte]
    else if c < 0x800 then [(0xC0 + high) as byte, low]
    else if c < 0x10000 then [(0xE0 + higher) as byte, middle, low]
    else [(0xF0 + higher / 0x40) as byte, (0x80 + higher % 0x40) as byte, middle, low]
  }

  function EncodeAll(cs: seq<int>): Bytes
    requires forall i :: 0 <= i < |cs| ==> IsCodePoint(cs[i])
  {
    if |cs| == 0 then [] else Encode(cs[0]) + EncodeAll(cs[1..])
  }

  lemma EncodedBytes(c: int)
    requires IsCodePoint(c)
    ensures var e := Encode(c);
            && |e| == Width(e[0]) && !IsCont(e[0]) && e[0] < 0xF8 && CodePoint(e, 0) == c
            && (forall j :: 0 < j < |e| ==> IsCont(e[j]))
            && (|e| == 2 ==> c >= 0x80) && (|e| == 3 ==> c >= 0x800) && (|e| == 4 ==> c >= 0x10000)
  {
    var high := c / 0x40;
    var higher := high / 0x40;
    assert c == 0x40 * high + c % 0x40 && high == 0x40 * higher + high % 0x40;
    assert higher == 0x40 * (higher / 0x40) + higher % 0x40;
    if c < 0x80 {
    } else if c < 0x800 {
      assert Encode(c)[0] == (0xC0 + high) as byte;
    } else if c < 0x10000 {
      assert higher < 0x10;
      assert Encode(c)[0] == (0xE0 + higher) as byte;
    } else {
      assert higher < 0x110 && higher / 0x40 <= 4;
      assert Encode(c)[0] == (0xF0 + higher / 0x40) as byte;
    }
  }

  lemma EncodedCharacter(c: int, rest: Bytes)
    requires IsCodePoint(c) && (|rest| > 0 ==> !IsCont(rest[0]))
    ensures var s := Encode(c) + rest;
            |Encode(c)| > 0 && Width(s[0]) == |Encode(c)| && Canonical(s, 0) && CodePoint(s, 0) == c
  {
    EncodedBytes(c);
    hide Encode;
    var e, s := Encode(c), Encode(c) + rest;
    assert forall j :: 0 <= j < |e| ==> s[j] == e[j];
    assert |rest| > 0 ==> s[|e|] == rest[0];
  }

  /** What encoding characters one after the other yields is well formed. */
  lemma {:induction false} EncodedIsWellFormed(cs: seq<int>)
    requires forall i :: 0 <= i < |cs| ==> IsCodePoint(cs[i])
    ensures WellFormed(EncodeAll(cs))
  {
    if |cs| > 0 {
      var rest := EncodeAll(cs[1..]);
      EncodedIsWellFormed(cs[1..]);
      EncodedCharacter(cs[0], rest);
      hide Encode;
      PrependCharacter(Encode(cs[0]), rest);
    }
  }

  lemma LaterCharacter(first: Bytes, rest: Bytes, i: nat)
    requires i < |rest| && CharAt(rest, i)
    ensures CharAt(first + rest, |first| + i)
  {
    var s := first + rest;
    assert forall j :: |first| <= j < |s| ==> s[j] == rest[j - |first|];
  }

  lemma InnerBytes(s: Bytes, k: nat)
    requires CharAt(s, 0) && 0 < k < Width(s[0])
    ensures IsCont(s[k])
  {
  }

  lemma PrependCharacter(first: Bytes, rest: Bytes)
    requires |first| > 0 && CharAt(first + rest, 0) && Width(first[0]) == |first| && WellFormed(rest)
    ensures WellFormed(first + rest)
    ensures forall k :: 0 <= k <= |first| + |rest| ==>
              (Boundary(first + rest, k) <==> k == 0 || (k >= |first| && Boundary(rest, k - |first|)))
  {
    var s := first + rest;
    assert |s| > 0 && s[0] == first[0] && !IsCont(s[0]);
    hide CharAt, Width;
    forall k: nat | 0 < k < |first| ensures IsCont(s[k]) {
      InnerBytes(s, k);
    }
    forall i: nat | i < |s| && !IsCont(s[i]) ensures CharAt(s, i) {
      if i >= |first| {
        LaterCharacter(first, rest, i - |first|);
      }
    }
  }

  /** Place `k` lies between two of the encoded characters, or at an end. */
  predicate BetweenCharacters(cs: seq<int>, k: nat)
    requires forall i :: 0 <= i < |cs| ==> IsCodePoint(cs[i])
  {
    k == 0 || (|cs| > 0 && k >= |Encode(cs[0])| && BetweenCharacters(cs[1..], k - |Encode(cs[0])|))
  }

  /** The boundaries are exactly the places between the encoded characters. */
  lemma {:induction false} BoundariesAreBetweenCharacters(cs: seq<int>, k: nat)
    requires forall i :: 0 <= i < |cs| ==> IsCodePoint(cs[i])
    requires k <= |EncodeAll(cs)|
    ensures Boundary(EncodeAll(cs), k) <==> BetweenCharacters(cs, k)
    decreases |cs|
  {
    if |cs| > 0 {
      var first, rest := Encode(cs[0]), EncodeAll(cs[1..]);
      EncodedIsWellFormed(cs[1..]);
      EncodedCharacter(cs[0], rest);
      PrependCharacter(first, rest);
      hide Encode, WellFormed, Boundary;
      if k >= |first| {
        BoundariesAreBetweenCharacters(cs[1..], k - |first|);
      }
    }
  }

  /** White-space characters do not overlap. */
  lemma SpaceStandsAlone(s: Bytes, i: nat)
    requires i < |s| && SpaceWidth(s, i) >= 2
    ensures SpaceWidth(s, i + 1) == 0 && (SpaceWidth(s, i) == 3 ==> SpaceWidth(s, i + 2) == 0)
  {
  }

  /** `i` is the first byte that is not white space, or the end. */
  ghost predicate FirstInk(s: Bytes, i: nat) {
    i <= |s| && (forall j :: 0 <= j < i ==> IsWhite(s, j)) && (i < |s| ==> !IsWhite(s, i))
  }

  lemma {:induction false} SkippedEnd(s: Bytes, i: nat)
    requires i < |s| && SpaceWidth(s, i) > 0
    ensures var k := SkipSpace(s, i); i < k && k >= 1 && SpaceWidth(s, k - 1) < 2
    ensures var k := SkipSpace(s, i); k >= 2 ==> SpaceWidth(s, k - 2) < 3
    decreases |s| - i
  {
    SpacesStandAlone(s);
    var next := i + SpaceWidth(s, i);
    if next < |s| && SpaceWidth(s, next) > 0 {
      SkippedEnd(s, next);
    }
  }

  lemma SpacesStandAlone(s: Bytes)
    ensures forall i :: 0 <= i < |s| && SpaceWidth(s, i) >= 2 ==> SpaceWidth(s, i + 1) == 0
    ensures forall i :: 0 <= i < |s| && SpaceWidth(s, i) == 3 ==> SpaceWidth(s, i + 2) == 0
  {
    forall i | 0 <= i < |s| && SpaceWidth(s, i) >= 2
      ensures SpaceWidth(s, i + 1) == 0 && (SpaceWidth(s, i) == 3 ==> SpaceWidth(s, i + 2) == 0)
    {
      SpaceStandsAlone(s, i);
    }
  }

  lemma TrimStartsAtInk(s: Bytes)
    ensures FirstInk(s, TrimLo(s))
  {
    forall j | 0 <= j < TrimLo(s) ensures IsWhite(s, j) {
      SkippedIsWhite(s, 0, j);
    }
    if |s| > 0 && SpaceWidth(s, 0) > 0 {
      SkippedEnd(s, 0);
    }
  }

  /** `t` is `s` without the white space at both ends. */
  ghost predicate IsTrimOf(s: Bytes, t: Bytes) {
    exists lo: nat, hi: nat :: lo <= hi <= |s| && t == s[lo..hi] && Trims(s, lo, hi)
  }

  ghost predicate Trims(s: Bytes, lo: nat, hi: nat)
    requires lo <= hi <= |s|
  {
    && (forall j :: 0 <= j < lo || hi <= j < |s| ==> IsWhite(s, j))
    && (lo < hi ==> !IsWhite(s, lo) && !IsWhite(s, hi - 1))
  }

  /** Where dropping stops, the white space after it starts afresh. */
  lemma {:induction false} DroppedStart(s: Bytes, lo: nat, hi: nat)
    requires lo <= hi <= |s| && (hi == |s| || SpaceWidth(s, hi) > 0)
    ensures var k := DropSpace(s, lo, hi); k == |s| || SpaceWidth(s, k) > 0
    decreases hi
  {
    var w := SpaceBefore(s, lo, hi);
    if w > 0 {
      DroppedStart(s, lo, hi - w);
    }
  }

  lemma NoSpaceAcross(s: Bytes, lo: nat, hi: nat, i: nat)
    requires lo < hi <= |s| && FirstInk(s, lo) && SpaceBefore(s, lo, hi) == 0
    requires hi == |s| || SpaceWidth(s, hi) > 0
    requires i < hi
    ensures i + SpaceWidth(s, i) < hi
  {
    if i + SpaceWidth(s, i) > hi {
      SpaceStandsAlone(s, i);
    } else if i + SpaceWidth(s, i) == hi && i < lo {
      SpaceCovers(s, i, lo);
    }
  }

  lemma LastInk(s: Bytes)
    requires TrimLo(s) < TrimHi(s)
    ensures !IsWhite(s, TrimHi(s) - 1)
  {
    var lo, hi := TrimLo(s), TrimHi(s);
    TrimStartsAtInk(s);
    DroppedStart(s, lo, |s|);
    forall i | 0 <= i < hi ensures i + SpaceWidth(s, i) < hi {
      NoSpaceAcross(s, lo, hi, i);
    }
  }

  /** Trimming is what it is meant to be. */
  lemma TrimIs(s: Bytes)
    ensures IsTrimOf(s, Trim(s))
  {
    var lo, hi := TrimLo(s), TrimHi(s);
    TrimStartsAtInk(s);
    forall j | hi <= j < |s| ensures IsWhite(s, j) {
      DroppedIsWhite(s, lo, |s|, j);
    }
    if lo < hi {
      LastInk(s);
    }
    assert Trims(s, lo, hi);
  }

  lemma TrimsAgree(s: Bytes, lo: nat, hi: nat, lo': nat, hi': nat)
    requires lo <= hi <= |s| && lo' <= hi' <= |s| && Trims(s, lo, hi) && Trims(s, lo', hi')
    ensures s[lo..hi] == s[lo'..hi']
  {
    hide IsWhite;
    if lo < hi {
      assert lo' <= lo < hi' && lo' <= hi - 1 < hi';
      assert lo <= lo' < hi && lo <= hi' - 1 < hi;
    } else {
      assert lo' == hi';
    }
  }

  /** And nothing else is. */
  lemma TrimIsUnique(s: Bytes, t: Bytes)
    requires IsTrimOf(s, t)
    ensures t == Trim(s)
  {
    TrimIs(s);
    var u := Trim(s);
    hide Trim, Trims;
    var lo: nat, hi: nat :| lo <= hi <= |s| && t == s[lo..hi] && Trims(s, lo, hi);
    var lo': nat, hi': nat :| lo' <= hi' <= |s| && u == s[lo'..hi'] && Trims(s, lo', hi');
    TrimsAgree(s, lo, hi, lo', hi');
  }

  lemma TrimInSlice(s: Bytes, a: nat, b: nat, k: nat)
    requires a <= k < b <= |s| && !IsWhite(s, k)
    ensures a + TrimLo(s[a..b]) <= k < a + TrimHi(s[a..b]) && !Blank(s[a..b])
  {
    if IsWhite(s[a..b], k - a) {
      WhiteInSlice(s, a, b, k - a);
    } else {
      TrimKeepsInk(s[a..b], k - a);
    }
  }

  // ----- searching -----

  predicate Occurs(s: Bytes, pat: Bytes, i: nat) {
    i + |pat| <= |s| && s[i..i + |pat|] == pat
  }

  predicate StartsWith(s: Bytes, pat: Bytes) {
    Occurs(s, pat, 0)
  }
}
