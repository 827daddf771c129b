/** Asking the ranking for more hits than wanted, dropping the hidden ones, and keeping the first few. */
module SemanticSearch {
  import opened Common

  const OVERFETCH_FACTOR := 4
  const OVERFETCH_MIN_EXTRA := 20
  const MAX_RESULTS_CAP := 200

  function Max(a: nat, b: nat): nat {
    if a < b then b else a
  }

  function Min(a: nat, b: nat): nat {
    if a < b then a else b
  }

  function CandidateLimit(topK: nat): nat {
    if topK == 0 then 0
    else Min(Max(topK * OVERFETCH_FACTOR, topK + OVERFETCH_MIN_EXTRA), MAX_RESULTS_CAP)
  }

  /** Within the cap the limit asks for at least as many hits as wanted. */
  lemma LimitCovers(topK: nat)
    ensures topK <= MAX_RESULTS_CAP ==> topK <= CandidateLimit(topK) <= MAX_RESULTS_CAP
    ensures CandidateLimit(topK) == 0 <==> topK == 0
  {
  }

  /** Twenty hits more for up to six wanted ones, then four times as many, and two hundred from fifty on. */
  lemma LimitIs(topK: nat)
    ensures CandidateLimit(0) == 0
    ensures 1 <= topK <= 6 ==> CandidateLimit(topK) == topK + 20
    ensures 7 <= topK < 50 ==> CandidateLimit(topK) == 4 * topK
    ensures topK >= 50 ==> CandidateLimit(topK) == 200
  {
    if 1 <= topK <= 6 {
    } else if topK < 50 {
    } else {
    }
  }

  function Take<T>(s: seq<T>, k: nat): seq<T> {
    if |s| <= k then s else s[..k]
  }

  function Visible<T>(hits: seq<T>, visible: T -> bool): seq<T> {
    if |hits| == 0 then []
    else (if visible(hits[0]) then [hits[0]] else []) + Visible(hits[1..], visible)
  }

  /** The visible hits are listed once each and in the order of the ranking, and no hidden one is. */
  lemma {:induction false} VisibleIs<T>(hits: seq<T>, visible: T -> bool) returns (at: seq<nat>)
    ensures |at| == |Visible(hits, visible)|
    ensures forall k :: 0 <= k < |at| ==> at[k] < |hits| && hits[at[k]] == Visible(hits, visible)[k]
    ensures forall k, l :: 0 <= k < l < |at| ==> at[k] < at[l]
    ensures forall i: nat :: i < |hits| ==> (i in at <==> visible(hits[i]))
    decreases |hits|
  {
    if |hits| == 0 {
      at := [];
    } else {
      var front, last := hits[..|hits| - 1], hits[|hits| - 1];
      assert hits == front + [last];
      at := VisibleIs(front, visible);
      VisibleConcat(front, [last], visible);
      assert Visible([last], visible) == if visible(last) then [last] else [];
      if visible(last) {
        at := at + [|front|];
      } else {
        assert Visible(front, visible) + [] == Visible(front, visible);
      }
      assert forall i: nat :: i < |front| ==> hits[i] == front[i];
    }
  }

  lemma {:induction false} VisibleConcat<T>(a: seq<T>, b: seq<T>, visible: T -> bool)
    ensures Visible(a + b, visible) == Visible(a, visible) + Visible(b, visible)
  {
    if |a| == 0 {
      assert a + b == b;
    } else {
      assert (a + b)[1..] == a[1..] + b;
      VisibleConcat(a[1..], b, visible);
      var head := if visible(a[0]) then [a[0]] else [];
      assert head + (Visible(a[1..], visible) + Visible(b, visible)) == (head + Visible(a[1..], visible)) + Visible(b, visible);
    }
  }

  lemma VisibleFrom<T>(hits: seq<T>, i: nat, visible: T -> bool)
    requires i < |hits|
    ensures Visible(hits[i..], visible) == (if visible(hits[i]) then [hits[i]] else []) + Visible(hits[i + 1..], visible)
  {
    assert hits[i..][1..] == hits[i + 1..];
  }

  lemma TakeSoFar<T>(all: seq<T>, some: seq<T>, k: nat)
    requires some <= all && |some| <= k && (|some| == k || some == all)
    ensures some == Take(all, k)
  {
  }

  /** The loop of the local backend, which stops at the wanted number of results. */
  method CollectVisible<T>(hits: seq<T>, visible: T -> bool, topK: nat) returns (results: seq<T>)
    requires topK > 0
    ensures results == Take(Visible(hits, visible), topK)
    ensures results <= Visible(hits, visible)
    ensures |results| == topK || results == Visible(hits, visible)
    ensures |results| <= topK
  {
    hide Visible, Take;
    results := [];
    var i := 0;
    assert hits[0..] == hits;
    while i < |hits|
      invariant 0 <= i <= |hits| && |results| < topK
      invariant Visible(hits, visible) == results + Visible(hits[i..], visible)
    {
      VisibleFrom(hits, i, visible);
      if visible(hits[i]) {
        results := results + [hits[i]];
        if |results| == topK {
          TakeSoFar(Visible(hits, visible), results, topK);
          return;
        }
      }
      i := i + 1;
    }
    NoneVisibleLeft(hits, visible);
    TakeSoFar(Visible(hits, visible), results, topK);
  }

  lemma NoneVisibleLeft<T>(hits: seq<T>, visible: T -> bool)
    ensures Visible(hits[|hits|..], visible) == []
  {
  }

  /**
   * Fetching only a prefix of the ranking changes nothing exactly when the prefix already holds enough visible
   * hits, or all there are.
   */
  lemma PrefixSuffices<T>(ranking: seq<T>, limit: nat, visible: T -> bool, topK: nat)
    ensures Take(Visible(Take(ranking, limit), visible), topK) == Take(Visible(ranking, visible), topK) <==>
            |Visible(Take(ranking, limit), visible)| >= Min(topK, |Visible(ranking, visible)|)
  {
    var front := Take(ranking, limit);
    var back := ranking[|front|..];
    assert ranking == front + back;
    VisibleConcat(front, back, visible);
    var few, all := Visible(front, visible), Visible(ranking, visible);
    assert all == few + Visible(back, visible);
    if |few| >= topK {
      assert Take(few, topK) == Take(all, topK);
    }
  }

  /**
   * Over-fetching is sound: as long as at most as many of the fetched hits are hidden as were asked for in excess,
   * the answer is that of filtering the whole ranking.
   */
  lemma OverfetchIsSound<T>(ranking: seq<T>, visible: T -> bool, topK: nat)
    requires 1 <= topK <= MAX_RESULTS_CAP
    requires var fetched := Take(ranking, CandidateLimit(topK));
             |fetched| - |Visible(fetched, visible)| <= CandidateLimit(topK) - topK
    ensures Take(Visible(Take(ranking, CandidateLimit(topK)), visible), topK) == Take(Visible(ranking, visible), topK)
  {
    LimitCovers(topK);
    PrefixSuffices(ranking, CandidateLimit(topK), visible, topK);
    var fetched := Take(ranking, CandidateLimit(topK));
    if |ranking| <= CandidateLimit(topK) {
      assert fetched == ranking;
    }
  }

  /** The bound on hidden hits cannot be relaxed: one more, and a visible hit just past the limit is missed. */
  lemma OverfetchBoundIsTight(topK: nat) returns (ranking: seq<bool>)
    requires 1 <= topK <= MAX_RESULTS_CAP
    ensures var fetched := Take(ranking, CandidateLimit(topK));
            && |fetched| - |Visible(fetched, b => b)| == CandidateLimit(topK) - topK + 1
            && Take(Visible(fetched, b => b), topK) != Take(Visible(ranking, b => b), topK)
  {
    LimitCovers(topK);
    var limit := CandidateLimit(topK);
    var shown, hidden := seq(topK - 1, _ => true), seq(limit - topK + 1, _ => false);
    AllVisible(topK - 1);
    NoneVisible(limit - topK + 1);
    ranking := shown + hidden + [true];
    assert Take(ranking, limit) == shown + hidden;
    VisibleConcat(shown, hidden, b => b);
    VisibleConcat(shown + hidden, [true], b => b);
    assert Visible([true], b => b) == [true];
  }

  lemma {:induction false} AllVisible(n: nat)
    ensures Visible(seq(n, _ => true), b => b) == seq(n, _ => true)
  {
    if n > 0 {
      assert seq(n, _ => true)[1..] == seq(n - 1, _ => true);
      AllVisible(n - 1);
    }
  }

  lemma {:induction false} NoneVisible(n: nat)
    ensures Visible(seq(n, _ => false), b => b) == []
  {
    if n > 0 {
      assert seq(n, _ => false)[1..] == seq(n - 1, _ => false);
      NoneVisible(n - 1);
    }
  }
}
