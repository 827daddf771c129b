/** Embedding a long list of texts in bounded requests, each tried up to four times. */
module SubBatch {
  import opened Common
  import opened EmbeddingStore

  const MAX_ATTEMPTS := 4

  /** What the provider answers to a request, by request number and attempt. */
  type Provider = (nat, nat, seq<string>) -> Result<seq<Vector>>

  /** An answer is accepted when it has one vector of the model's dimension for each text. */
  predicate Accepted(answer: Result<seq<Vector>>, texts: seq<string>, dim: nat) {
    answer.Ok? && |answer.value| == |texts| && forall i :: 0 <= i < |answer.value| ==> answer.value[i].dim == dim
  }

  /** So many vectors, all of one dimension. */
  predicate IsAnswer(answer: Result<seq<Vector>>, count: nat, dim: nat) {
    match answer
    case Ok(vectors) => |vectors| == count && forall v :: v in vectors ==> v.dim == dim
    case Err(_) => false
  }

  lemma AcceptedIs(answer: Result<seq<Vector>>, texts: seq<string>, dim: nat)
    ensures Accepted(answer, texts, dim) <==> IsAnswer(answer, |texts|, dim)
  {
    if answer.Ok? {
      assert forall i :: 0 <= i < |answer.value| ==> answer.value[i] in answer.value;
    }
  }

  /** Why an answer was not accepted: the provider's own error, or which of the two checks failed. */
  function Rejection(answer: Result<seq<Vector>>, texts: seq<string>): string {
    if answer.Err? then answer.error
    else if |answer.value| != |texts| then "wrong number of vectors"
    else "wrong dimension"
  }

  /** The provider embeds each text on its own: an accepted vector depends on its text only. */
  ghost predicate Faithful(prm: Params, provider: Provider) {
    forall request, attempt, texts :: Accepted(provider(request, attempt, texts), texts, prm.modelDim) ==>
      provider(request, attempt, texts).value == EmbedAll(prm, texts)
  }

  /** Consecutive groups of `size` texts; the last may be shorter. */
  function Groups(texts: seq<string>, size: nat): seq<seq<string>>
    requires size > 0
    decreases |texts|
  {
    if |texts| == 0 then []
    else if |texts| <= size then [texts]
    else [texts[..size]] + Groups(texts[size..], size)
  }

  function Joined(groups: seq<seq<string>>): seq<string> {
    if |groups| == 0 then [] else groups[0] + Joined(groups[1..])
  }

  /** The requests hold the texts in order, each of the full size except that the last may be shorter; none is empty. */
  lemma {:induction false} GroupsAre(texts: seq<string>, size: nat)
    requires size > 0
    ensures Joined(Groups(texts, size)) == texts
    ensures forall g :: 0 <= g < |Groups(texts, size)| ==> 0 < |Groups(texts, size)[g]| <= size
    ensures forall g :: 0 <= g < |Groups(texts, size)| - 1 ==> |Groups(texts, size)[g]| == size
    decreases |texts|
  {
    if |texts| > size {
      var rest := Groups(texts[size..], size);
      GroupsAre(texts[size..], size);
      assert ([texts[..size]] + rest)[1..] == rest;
      assert texts[..size] + texts[size..] == texts;
      assert forall g :: 0 < g < |rest| + 1 ==> Groups(texts, size)[g] == rest[g - 1];
    } else if |texts| > 0 {
      assert Joined([texts][1..]) == [];
    }
  }

  predicate GroupSucceeds(prm: Params, provider: Provider, texts: seq<string>, g: nat) {
    exists attempt :: 0 <= attempt < MAX_ATTEMPTS && Accepted(provider(g, attempt, texts), texts, prm.modelDim)
  }

  /** Group `g` is the first one that fails, and `error` is what became of its last attempt. */
  predicate FirstFailure(prm: Params, provider: Provider, groups: seq<seq<string>>, g: nat, error: string) {
    && g < |groups| && !GroupSucceeds(prm, provider, groups[g], g)
    && (forall h :: 0 <= h < g ==> GroupSucceeds(prm, provider, groups[h], h))
    && error == Rejection(provider(g, MAX_ATTEMPTS - 1, groups[g]), groups[g])
  }

  lemma EmbedAllConcat(prm: Params, a: seq<string>, b: seq<string>)
    ensures EmbedAll(prm, a) + EmbedAll(prm, b) == EmbedAll(prm, a + b)
  {
  }

  /** One request with its retries. */
  method EmbedGroup(prm: Params, provider: Provider, texts: seq<string>, g: nat) returns (r: Result<seq<Vector>>)
    requires Faithful(prm, provider)
    ensures r.Ok? <==> GroupSucceeds(prm, provider, texts, g)
    ensures r.Ok? <==> exists attempt :: 0 <= attempt < 4 && IsAnswer(provider(g, attempt, texts), |texts|, prm.modelDim)
    ensures r.Ok? ==> r.value == EmbedAll(prm, texts)
    ensures r.Err? ==> r.error == Rejection(provider(g, MAX_ATTEMPTS - 1, texts), texts)
    ensures r.Err? && provider(g, 3, texts).Err? ==> r.error == provider(g, 3, texts).error
    ensures r.Err? && provider(g, 3, texts).Ok? ==>
              r.error == if |provider(g, 3, texts).value| == |texts| then "wrong dimension" else "wrong number of vectors"
  {
    var attempt := 0;
    var lastError := "";
    while attempt < MAX_ATTEMPTS
      invariant 0 <= attempt <= MAX_ATTEMPTS
      invariant forall a :: 0 <= a < attempt ==> !Accepted(provider(g, a, texts), texts, prm.modelDim)
      invariant forall a :: 0 <= a < attempt ==> !IsAnswer(provider(g, a, texts), |texts|, prm.modelDim)
      invariant attempt > 0 ==> lastError == Rejection(provider(g, attempt - 1, texts), texts)
    {
      var answer := provider(g, attempt, texts);
      AcceptedIs(answer, texts, prm.modelDim);
      if Accepted(answer, texts, prm.modelDim) {
        return Ok(answer.value);
      }
      lastError := Rejection(answer, texts);
      attempt := attempt + 1;
    }
    r := Err(lastError);
  }

  /**
   * Whatever the request size, success yields for every text the vector of that text alone, in order; the whole
   * call fails exactly when some request fails four times in a row, with the last error of the first such request.
   */
  method EmbedInSubBatches(prm: Params, provider: Provider, texts: seq<string>, size: nat)
    returns (r: Result<seq<Vector>>)
    requires size > 0 && Faithful(prm, provider)
    ensures r.Ok? <==> forall g :: 0 <= g < |Groups(texts, size)| ==> GroupSucceeds(prm, provider, Groups(texts, size)[g], g)
    ensures r.Ok? ==> r.value == EmbedAll(prm, texts)
    ensures r.Err? ==> exists g :: FirstFailure(prm, provider, Groups(texts, size), g, r.error)
  {
    var out: seq<Vector> := [];
    var g, done := 0, 0;
    ghost var groups := Groups(texts, size);
    while done < |texts|
      invariant 0 <= done <= |texts| && 0 <= g <= |groups|
      invariant groups[g..] == Groups(texts[done..], size)
      invariant out == EmbedAll(prm, texts[..done])
      invariant forall h :: 0 <= h < g ==> GroupSucceeds(prm, provider, groups[h], h)
      decreases |texts| - done
    {
      var end := if done + size < |texts| then done + size else |texts|;
      var group := texts[done..end];
      NextGroup(texts, size, done, end, groups, g);
      var answer := EmbedGroup(prm, provider, group, g);
      if answer.Err? {
        assert FirstFailure(prm, provider, groups, g, answer.error);
        return Err(answer.error);
      }
      EmbedAllConcat(prm, texts[..done], group);
      assert texts[..done] + group == texts[..end];
      out := out + answer.value;
      done, g := end, g + 1;
    }
    assert texts[..done] == texts;
    r := Ok(out);
  }

  lemma NextGroup(texts: seq<string>, size: nat, done: nat, end: nat, groups: seq<seq<string>>, g: nat)
    requires size > 0 && done < |texts| && end == (if done + size < |texts| then done + size else |texts|)
    requires g <= |groups| && groups[g..] == Groups(texts[done..], size)
    ensures g < |groups| && groups[g] == texts[done..end] && groups[g + 1..] == Groups(texts[end..], size)
  {
    var left := texts[done..];
    assert groups[g..][0] == texts[done..end] by {
      if |left| <= size { assert left == texts[done..end]; } else { assert left[..size] == texts[done..end]; }
    }
    assert groups[g + 1..] == groups[g..][1..];
    assert |left| > size ==> left[size..] == texts[end..];
  }
}
