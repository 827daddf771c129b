/** Vocabulary shared by every component: optional values, vault-relative paths and their order. */
module Common {

  datatype Option<+T> = None | Some(value: T)

  datatype Result<+T> = Ok(value: T) | Err(error: string)

  /** A normalized vault-relative path. */
  datatype Path = Path(text: string)

  /** Dictionary order on text: the order in which paths and link targets are sorted. */
  predicate TextLe(a: string, b: string) {
    |a| == 0 || (|b| > 0 && (a[0] < b[0] || (a[0] == b[0] && TextLe(a[1..], b[1..]))))
  }

  lemma {:induction false} TextLeTotal(a: string, b: string)
    ensures TextLe(a, b) || TextLe(b, a)
  {
    if |a| > 0 && |b| > 0 && a[0] == b[0] {
      TextLeTotal(a[1..], b[1..]);
    }
  }

  lemma {:induction false} TextLeAntisymmetric(a: string, b: string)
    requires TextLe(a, b) && TextLe(b, a)
    ensures a == b
  {
    if |a| > 0 && |b| > 0 {
      TextLeAntisymmetric(a[1..], b[1..]);
      assert a == [a[0]] + a[1..] && b == [b[0]] + b[1..];
    }
  }

  lemma {:induction false} TextLeTransitive(a: string, b: string, c: string)
    requires TextLe(a, b) && TextLe(b, c)
    ensures TextLe(a, c)
  {
    if |a| > 0 && a[0] == b[0] && b[0] == c[0] {
      TextLeTransitive(a[1..], b[1..], c[1..]);
    }
  }

  /** What dictionary order means: one text is a prefix of the other, or the first differing character decides. */
  lemma {:induction false} TextLeIs(a: string, b: string)
    ensures TextLe(a, b) <==>
            a <= b || exists k :: 0 <= k < |a| && k < |b| && a[..k] == b[..k] && a[k] < b[k]
  {
    if |a| > 0 && |b| > 0 && a[0] == b[0] {
      TextLeIs(a[1..], b[1..]);
      assert a <= b <==> a[1..] <= b[1..];
      if k :| 0 <= k < |a| && k < |b| && a[..k] == b[..k] && a[k] < b[k] {
        assert a[1..][..k - 1] == a[..k][1..] && b[1..][..k - 1] == b[..k][1..];
        assert a[1..][k - 1] < b[1..][k - 1];
      }
      if k :| 0 <= k < |a[1..]| && k < |b[1..]| && a[1..][..k] == b[1..][..k] && a[1..][k] < b[1..][k] {
        assert a[..k + 1] == [a[0]] + a[1..][..k] && b[..k + 1] == [b[0]] + b[1..][..k];
        assert a[k + 1] < b[k + 1];
      }
    } else if |a| > 0 && |b| > 0 {
      assert a[..0] == b[..0];
      assert a[0] < b[0] ==> exists k :: 0 <= k < |a| && k < |b| && a[..k] == b[..k] && a[k] < b[k];
    }
  }

  /** In paths the separator comes before every other character, so that a folder's notes stay together. */
  predicate Before(c: char, d: char) {
    if c == '/' then d != '/' else d != '/' && c < d
  }

  predicate PathTextLe(a: string, b: string) {
    |a| == 0 || (|b| > 0 && (Before(a[0], b[0]) || (a[0] == b[0] && PathTextLe(a[1..], b[1..]))))
  }

  /** Paths are compared component by component. */
  predicate PathLe(a: Path, b: Path) {
    PathTextLe(a.text, b.text)
  }

  /** The components of a path, by which the comparison is defined. */
  function Components(text: string): (parts: seq<string>)
    ensures |parts| > 0
  {
    if |text| == 0 then [[]]
    else
      var rest := Components(text[1..]);
      if text[0] == '/' then [[]] + rest else [[text[0]] + rest[0]] + rest[1..]
  }

  /** One list of components is a prefix of the other, or the first differing component decides. */
  predicate ComponentsLe(a: seq<string>, b: seq<string>) {
    |a| == 0 || (|b| > 0 && (if a[0] == b[0] then ComponentsLe(a[1..], b[1..]) else TextLe(a[0], b[0])))
  }

  /** Comparing characters with the separator first is comparing component by component. */
  lemma {:induction false} PathLeIsByComponents(a: string, b: string)
    ensures PathTextLe(a, b) <==> ComponentsLe(Components(a), Components(b))
  {
    if |a| > 0 && |b| > 0 && a[0] == b[0] {
      PathLeIsByComponents(a[1..], b[1..]);
      var x, y := Components(a[1..]), Components(b[1..]);
      if a[0] == '/' {
        assert ([[]] + x)[1..] == x && ([[]] + y)[1..] == y;
      } else {
        assert ([[a[0]] + x[0]] + x[1..])[1..] == x[1..] && ([[b[0]] + y[0]] + y[1..])[1..] == y[1..];
        ConsSame(a[0], x[0], y[0]);
      }
    } else {
      FirstComponents(a);
      FirstComponents(b);
    }
  }

  lemma ConsSame(c: char, s: string, t: string)
    ensures [c] + s == [c] + t <==> s == t
    ensures TextLe([c] + s, [c] + t) <==> TextLe(s, t)
  {
    assert ([c] + s)[1..] == s && ([c] + t)[1..] == t;
  }

  lemma FirstComponents(text: string)
    ensures |text| == 0 ==> Components(text) == [[]]
    ensures |text| > 0 && text[0] == '/' ==> Components(text)[0] == [] && |Components(text)| > 1
    ensures |text| > 0 && text[0] != '/' ==> |Components(text)[0]| > 0 && Components(text)[0][0] == text[0]
  {
  }

  lemma {:induction false} PathTextTotal(a: string, b: string)
    ensures PathTextLe(a, b) || PathTextLe(b, a)
  {
    if |a| > 0 && |b| > 0 && a[0] == b[0] {
      PathTextTotal(a[1..], b[1..]);
    }
  }

  lemma {:induction false} PathTextAntisymmetric(a: string, b: string)
    requires PathTextLe(a, b) && PathTextLe(b, a)
    ensures a == b
  {
    if |a| > 0 && |b| > 0 {
      PathTextAntisymmetric(a[1..], b[1..]);
      assert a == [a[0]] + a[1..] && b == [b[0]] + b[1..];
    }
  }

  lemma {:induction false} PathTextTransitive(a: string, b: string, c: string)
    requires PathTextLe(a, b) && PathTextLe(b, c)
    ensures PathTextLe(a, c)
  {
    if |a| > 0 && a[0] == b[0] && b[0] == c[0] {
      PathTextTransitive(a[1..], b[1..], c[1..]);
    }
  }

  /** A total order, given as a comparison. */
  ghost predicate TotalOrder<T(!new)>(le: (T, T) -> bool) {
    && (forall a, b :: le(a, b) || le(b, a))
    && (forall a, b :: le(a, b) && le(b, a) ==> a == b)
    && (forall a, b, c :: le(a, b) && le(b, c) ==> le(a, c))
  }

  ghost predicate SortedBy<T>(s: seq<T>, le: (T, T) -> bool) {
    forall i, j :: 0 <= i < j < |s| ==> le(s[i], s[j])
  }

  lemma TextOrder()
    ensures TotalOrder(TextLe)
  {
    forall a, b ensures TextLe(a, b) || TextLe(b, a) { TextLeTotal(a, b); }
    forall a, b | TextLe(a, b) && TextLe(b, a) ensures a == b { TextLeAntisymmetric(a, b); }
    forall a, b, c | TextLe(a, b) && TextLe(b, c) ensures TextLe(a, c) { TextLeTransitive(a, b, c); }
  }

  lemma PathOrder()
    ensures TotalOrder(PathLe)
  {
    hide PathTextLe;
    forall a: Path, b: Path ensures PathLe(a, b) || PathLe(b, a) { PathTextTotal(a.text, b.text); }
    forall a: Path, b: Path | PathLe(a, b) && PathLe(b, a) ensures a == b { PathTextAntisymmetric(a.text, b.text); }
    forall a: Path, b: Path, c: Path | PathLe(a, b) && PathLe(b, c) ensures PathLe(a, c) {
      PathTextTransitive(a.text, b.text, c.text);
    }
  }

  /** Lists a finite set in ascending order: what collecting and sorting yields. */
  method SortedList<T(!new, ==)>(items: set<T>, le: (T, T) -> bool) returns (out: seq<T>)
    requires TotalOrder(le)
    ensures SortedBy(out, le)
    ensures |out| == |items|
    ensures forall x :: x in out <==> x in items
    ensures forall i, j :: 0 <= i < j < |out| ==> out[i] != out[j]
  {
    out := [];
    var rest := items;
    while rest != {}
      invariant rest <= items
      invariant |out| + |rest| == |items|
      invariant forall x :: x in out <==> x in items && x !in rest
      invariant SortedBy(out, le)
      invariant forall i, j :: 0 <= i < j < |out| ==> out[i] != out[j]
      invariant forall i, x :: 0 <= i < |out| && x in rest ==> le(out[i], x)
      decreases rest
    {
      var least := Least(rest, le);
      out := out + [least];
      rest := rest - {least};
    }
  }

  method Least<T(!new, ==)>(items: set<T>, le: (T, T) -> bool) returns (least: T)
    requires TotalOrder(le) && items != {}
    ensures least in items && forall x :: x in items ==> le(least, x)
  {
    least :| least in items;
    var seen := {least};
    while seen != items
      invariant seen <= items && least in seen
      invariant forall x :: x in seen ==> le(least, x)
      decreases items - seen
    {
      assert exists x :: x in items && x !in seen;
      var x :| x in items && x !in seen;
      if le(x, least) {
        least := x;
      }
      seen := seen + {x};
    }
  }
}
