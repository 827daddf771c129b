/**
 * Wikilink resolution: a target with a slash is looked up by path, any other target by file stem, where only a
 * stem that a single note bears resolves.
 */
module LinkResolver {
  import opened Common

  /** The normalised lookup keys of paths and targets: normal form, lower case, without the note extension. */
  datatype Naming = Naming(stemKey: Path -> string, pathKey: Path -> string, targetKey: string -> string)

  datatype Resolver = Resolver(byStem: map<string, seq<Path>>, byPath: map<string, Path>)

  function Resolve(n: Naming, r: Resolver, target: string): Option<Path> {
    var key := n.targetKey(target);
    if key == "" then None
    else if '/' in key then (if key in r.byPath then Some(r.byPath[key]) else None)
    else if key in r.byStem && |r.byStem[key]| == 1 then Some(r.byStem[key][0])
    else None
  }

  function Retained(paths: seq<Path>, p: Path): seq<Path> {
    if |paths| == 0 then []
    else (if paths[0] == p then [] else [paths[0]]) + Retained(paths[1..], p)
  }

  function Listed(byStem: map<string, seq<Path>>, stem: string): seq<Path> {
    if stem in byStem then byStem[stem] else []
  }

  function InsertPath(n: Naming, r: Resolver, p: Path): Resolver {
    var stem := n.stemKey(p);
    Resolver(
      r.byStem[stem := Listed(r.byStem, stem) + [p]],
      r.byPath[n.pathKey(p) := p])
  }

  function RemovePath(n: Naming, r: Resolver, p: Path): Resolver {
    var stem := n.stemKey(p);
    var byPath := r.byPath - {n.pathKey(p)};
    if stem !in r.byStem then Resolver(r.byStem, byPath)
    else
      var kept := Retained(r.byStem[stem], p);
      Resolver(if kept == [] then r.byStem - {stem} else r.byStem[stem := kept], byPath)
  }

  // ----- what the two tables hold -----

  ghost predicate Distinct(paths: seq<Path>) {
    forall i, j :: 0 <= i < j < |paths| ==> paths[i] != paths[j]
  }

  /** The stem table lists every indexed path once under its stem, and nothing else. */
  ghost predicate StemsExact(n: Naming, byStem: map<string, seq<Path>>, paths: set<Path>) {
    && (forall k :: k in byStem ==> byStem[k] != [] && Distinct(byStem[k]))
    && (forall k, p :: k in byStem && p in byStem[k] ==> p in paths && n.stemKey(p) == k)
    && (forall p :: p in paths ==> n.stemKey(p) in byStem && p in byStem[n.stemKey(p)])
  }

  /** The path table maps keys to indexed paths with that key. */
  ghost predicate PathsSound(n: Naming, byPath: map<string, Path>, paths: set<Path>) {
    forall k :: k in byPath ==> byPath[k] in paths && n.pathKey(byPath[k]) == k
  }

  ghost predicate ResolverInv(n: Naming, r: Resolver, paths: set<Path>) {
    StemsExact(n, r.byStem, paths) && PathsSound(n, r.byPath, paths)
  }

  lemma {:induction false} RetainedFacts(paths: seq<Path>, p: Path)
    ensures forall q :: q in Retained(paths, p) <==> q in paths && q != p
    ensures Distinct(paths) ==> Distinct(Retained(paths, p))
  {
    if |paths| > 0 {
      RetainedFacts(paths[1..], p);
      assert paths == [paths[0]] + paths[1..];
      assert Distinct(paths) ==> Distinct(paths[1..]) && paths[0] !in paths[1..];
    }
  }

  lemma RemoveKeepsInv(n: Naming, r: Resolver, paths: set<Path>, p: Path)
    requires ResolverInv(n, r, paths)
    ensures ResolverInv(n, RemovePath(n, r, p), paths - {p})
  {
    var stem := n.stemKey(p);
    if stem in r.byStem {
      RetainedFacts(r.byStem[stem], p);
    }
    var r' := RemovePath(n, r, p);
    forall q | q in paths - {p} ensures n.stemKey(q) in r'.byStem && q in r'.byStem[n.stemKey(q)] {
      assert q in r.byStem[n.stemKey(q)];
      if n.stemKey(q) == stem { assert q in Retained(r.byStem[stem], p); }
    }
  }

  lemma InsertKeepsInv(n: Naming, r: Resolver, paths: set<Path>, p: Path)
    requires ResolverInv(n, r, paths) && p !in paths
    ensures ResolverInv(n, InsertPath(n, r, p), paths + {p})
  {
    var r' := InsertPath(n, r, p);
    forall q | q in paths ensures n.stemKey(q) in r'.byStem && q in r'.byStem[n.stemKey(q)] {
      assert q in r.byStem[n.stemKey(q)];
    }
  }

  lemma InsertAfterRemove(n: Naming, r: Resolver, paths: set<Path>, p: Path)
    requires ResolverInv(n, RemovePath(n, r, p), paths - {p})
    ensures ResolverInv(n, InsertPath(n, RemovePath(n, r, p), p), paths + {p})
  {
    InsertKeepsInv(n, RemovePath(n, r, p), paths - {p}, p);
    assert paths - {p} + {p} == paths + {p};
  }

  /** Inserting a path that is already listed breaks the stem table. */
  lemma InsertTwiceBreaks(n: Naming, r: Resolver, paths: set<Path>, p: Path)
    requires ResolverInv(n, r, paths) && p in paths
    ensures |InsertPath(n, r, p).byStem[n.stemKey(p)]| > 1
    ensures !ResolverInv(n, InsertPath(n, r, p), paths)
  {
    var listed := InsertPath(n, r, p).byStem[n.stemKey(p)];
    assert p in r.byStem[n.stemKey(p)];
    var i :| 0 <= i < |r.byStem[n.stemKey(p)]| && r.byStem[n.stemKey(p)][i] == p;
    assert listed[i] == p && listed[|listed| - 1] == p && !Distinct(listed);
  }

  /** Its stem becomes ambiguous: stem links to it stop resolving although one note bears the stem. */
  lemma InsertTwiceIsAmbiguous(n: Naming, r: Resolver, paths: set<Path>, p: Path, target: string)
    requires ResolverInv(n, r, paths) && p in paths
    requires n.targetKey(target) == n.stemKey(p) && '/' !in n.stemKey(p)
    ensures Resolve(n, InsertPath(n, r, p), target) == None
  {
    InsertTwiceBreaks(n, r, paths, p);
  }

  predicate SameAt(a: map<string, seq<Path>>, b: map<string, seq<Path>>, k: string) {
    (k in a <==> k in b) && (k in a && k in b ==> a[k] == b[k])
  }

  lemma SameEverywhere(a: map<string, seq<Path>>, b: map<string, seq<Path>>)
    requires forall k :: SameAt(a, b, k)
    ensures a == b
  {
    forall k ensures (k in a <==> k in b) && (k in a && k in b ==> a[k] == b[k]) {
      assert SameAt(a, b, k);
    }
  }

  lemma RemoveUndoesInsertAt(n: Naming, r: Resolver, p: Path, k: string)
    ensures SameAt(RemovePath(n, InsertPath(n, r, p), p).byStem, RemovePath(n, r, p).byStem, k)
  {
    var listed := Listed(r.byStem, n.stemKey(p));
    RetainedLast(listed, p, p);
    assert Retained([], p) == [];
    hide Retained;
    if k == n.stemKey(p) {
      assert InsertPath(n, r, p).byStem[k] == listed + [p];
    }
  }

  /** Removing a path undoes an insertion, even of a path already listed: the insertion might as well not have been. */
  lemma RemoveUndoesInsert(n: Naming, r: Resolver, paths: set<Path>, p: Path)
    ensures RemovePath(n, InsertPath(n, r, p), p) == RemovePath(n, r, p)
    ensures ResolverInv(n, r, paths) ==> ResolverInv(n, RemovePath(n, InsertPath(n, r, p), p), paths - {p})
  {
    var a, b := RemovePath(n, InsertPath(n, r, p), p), RemovePath(n, r, p);
    assert a.byPath == b.byPath;
    hide RemovePath, InsertPath, ResolverInv;
    forall k ensures SameAt(a.byStem, b.byStem, k) {
      RemoveUndoesInsertAt(n, r, p, k);
    }
    SameEverywhere(a.byStem, b.byStem);
    if ResolverInv(n, r, paths) {
      RemoveKeepsInv(n, r, paths, p);
    }
  }

  lemma {:induction false} RetainedLast(paths: seq<Path>, p: Path, q: Path)
    ensures Retained(paths + [p], q) == Retained(paths, q) + (if p == q then [] else [p])
  {
    if |paths| > 0 {
      RetainedLast(paths[1..], p, q);
      assert (paths + [p])[1..] == paths[1..] + [p];
    } else {
      assert (paths + [p])[1..] == [];
    }
  }

  // ----- a path listed although it is not indexed -----

  lemma {:induction false} RetainedCommute(paths: seq<Path>, p: Path, q: Path)
    ensures Retained(Retained(paths, p), q) == Retained(Retained(paths, q), p)
  {
    if |paths| > 0 {
      RetainedCommute(paths[1..], p, q);
      RetainedCons(paths[0], Retained(paths[1..], p), q);
      RetainedCons(paths[0], Retained(paths[1..], q), p);
    }
  }

  lemma RetainedCons(head: Path, tail: seq<Path>, p: Path)
    ensures Retained([head] + tail, p) == (if head == p then [] else [head]) + Retained(tail, p)
    ensures [] + tail == tail
  {
    assert ([head] + tail)[1..] == tail;
  }

  /** What removing a path does to each entry of the two tables. */
  lemma RemovedEntries(n: Naming, r: Resolver, p: Path)
    ensures var r', stem := RemovePath(n, r, p), n.stemKey(p);
            && r'.byPath == r.byPath - {n.pathKey(p)}
            && (forall k :: k in r'.byStem <==> k in r.byStem && (k == stem ==> Retained(r.byStem[k], p) != []))
            && (forall k :: k in r'.byStem ==>
                  r'.byStem[k] == if k == stem then Retained(r.byStem[k], p) else r.byStem[k])
  {
  }

  lemma RetainedEmpty(paths: seq<Path>, p: Path, q: Path)
    requires Retained(paths, p) == []
    ensures Retained(Retained(paths, q), p) == []
  {
    RetainedCommute(paths, p, q);
    assert Retained([], q) == [];
  }

  lemma RemovalsCommuteAt(n: Naming, r: Resolver, p: Path, q: Path, k: string)
    ensures SameAt(RemovePath(n, RemovePath(n, r, p), q).byStem, RemovePath(n, RemovePath(n, r, q), p).byStem, k)
  {
    RemovedEntries(n, r, p);
    RemovedEntries(n, r, q);
    RemovedEntries(n, RemovePath(n, r, p), q);
    RemovedEntries(n, RemovePath(n, r, q), p);
    hide RemovePath, Retained;
    if k == n.stemKey(p) == n.stemKey(q) && k in r.byStem {
      RetainedCommute(r.byStem[k], p, q);
      if Retained(r.byStem[k], p) == [] { RetainedEmpty(r.byStem[k], p, q); }
      if Retained(r.byStem[k], q) == [] { RetainedEmpty(r.byStem[k], q, p); }
    }
  }

  lemma RemovalsCommute(n: Naming, r: Resolver, p: Path, q: Path)
    ensures RemovePath(n, RemovePath(n, r, p), q) == RemovePath(n, RemovePath(n, r, q), p)
  {
    var a, b := RemovePath(n, RemovePath(n, r, p), q), RemovePath(n, RemovePath(n, r, q), p);
    assert a.byPath == b.byPath;
    hide RemovePath;
    forall k ensures SameAt(a.byStem, b.byStem, k) {
      RemovalsCommuteAt(n, r, p, q, k);
    }
    SameEverywhere(a.byStem, b.byStem);
  }

  /** Taking a path out leaves another one as the only path listed wrongly. */
  lemma RemovalKeepsStray(n: Naming, r: Resolver, paths: set<Path>, p: Path, q: Path)
    requires ResolverInv(n, RemovePath(n, r, q), paths - {q})
    ensures ResolverInv(n, RemovePath(n, RemovePath(n, r, p), q), paths - {p} - {q})
  {
    RemovalsCommute(n, r, p, q);
    RemoveKeepsInv(n, RemovePath(n, r, q), paths - {q}, p);
    assert paths - {q} - {p} == paths - {p} - {q};
  }

  /** Under one stem: listing one path more and dropping another commute. */
  lemma InsertThenRemoveHere(n: Naming, r: Resolver, p: Path, q: Path)
    requires p != q && n.stemKey(p) == n.stemKey(q)
    ensures SameAt(
              RemovePath(n, InsertPath(n, r, p), q).byStem, InsertPath(n, RemovePath(n, r, q), p).byStem, n.stemKey(p))
  {
    var stem := n.stemKey(p);
    var listed := Listed(r.byStem, stem);
    RetainedLast(listed, p, q);
    assert Retained([], q) == [];
    hide Retained;
    assert InsertPath(n, r, p).byStem[stem] == listed + [p];
    assert Listed(RemovePath(n, r, q).byStem, stem) == Retained(listed, q);
  }

  lemma InsertThenRemoveAt(n: Naming, r: Resolver, p: Path, q: Path, k: string)
    requires p != q
    ensures SameAt(RemovePath(n, InsertPath(n, r, p), q).byStem, InsertPath(n, RemovePath(n, r, q), p).byStem, k)
  {
    if k == n.stemKey(p) == n.stemKey(q) {
      hide SameAt, RemovePath, InsertPath;
      InsertThenRemoveHere(n, r, p, q);
    } else {
      hide Retained;
    }
  }

  lemma InsertThenRemoveStems(n: Naming, r: Resolver, p: Path, q: Path)
    requires p != q
    ensures RemovePath(n, InsertPath(n, r, p), q).byStem == InsertPath(n, RemovePath(n, r, q), p).byStem
  {
    hide RemovePath, InsertPath;
    var a, b := RemovePath(n, InsertPath(n, r, p), q).byStem, InsertPath(n, RemovePath(n, r, q), p).byStem;
    forall k ensures SameAt(a, b, k) {
      InsertThenRemoveAt(n, r, p, q, k);
    }
    SameEverywhere(a, b);
  }

  lemma InsertThenRemovePaths(n: Naming, r: Resolver, p: Path, q: Path)
    ensures var a, b := RemovePath(n, InsertPath(n, r, p), q).byPath, InsertPath(n, RemovePath(n, r, q), p).byPath;
            forall k :: k in a ==> k in b && a[k] == b[k]
  {
    hide Retained;
  }

  lemma FewerPathsStaySound(n: Naming, a: Resolver, b: Resolver, paths: set<Path>)
    requires ResolverInv(n, b, paths) && a.byStem == b.byStem
    requires forall k :: k in a.byPath ==> k in b.byPath && a.byPath[k] == b.byPath[k]
    ensures ResolverInv(n, a, paths)
  {
  }

  /** So does adding a path. */
  lemma InsertKeepsStray(n: Naming, r: Resolver, paths: set<Path>, p: Path, q: Path)
    requires p != q && p !in paths && ResolverInv(n, RemovePath(n, r, q), paths - {q})
    ensures ResolverInv(n, RemovePath(n, InsertPath(n, r, p), q), paths + {p} - {q})
  {
    var a, b := RemovePath(n, InsertPath(n, r, p), q), InsertPath(n, RemovePath(n, r, q), p);
    InsertKeepsInv(n, RemovePath(n, r, q), paths - {q}, p);
    InsertThenRemoveStems(n, r, p, q);
    InsertThenRemovePaths(n, r, p, q);
    assert paths - {q} + {p} == paths + {p} - {q};
    hide RemovePath, InsertPath, ResolverInv;
    FewerPathsStaySound(n, a, b, paths + {p} - {q});
  }

  /** `p` is the one indexed path with stem `k`. */
  ghost predicate OnlyBearer(n: Naming, paths: set<Path>, k: string, p: Path) {
    p in paths && n.stemKey(p) == k && forall q :: q in paths && n.stemKey(q) == k ==> q == p
  }

  lemma SingleIsOnlyBearer(n: Naming, byStem: map<string, seq<Path>>, paths: set<Path>, k: string)
    requires StemsExact(n, byStem, paths) && k in byStem && |byStem[k]| == 1
    ensures OnlyBearer(n, paths, k, byStem[k][0])
  {
    assert byStem[k][0] in byStem[k];
    forall q | q in paths && n.stemKey(q) == k ensures q == byStem[k][0] {
      assert q in byStem[k];
    }
  }

  lemma OnlyBearerIsSingle(n: Naming, byStem: map<string, seq<Path>>, paths: set<Path>, k: string, p: Path)
    requires StemsExact(n, byStem, paths) && OnlyBearer(n, paths, k, p)
    ensures k in byStem && byStem[k] == [p]
  {
    assert p in byStem[k];
    var listed := byStem[k];
    assert |listed| > 1 ==> listed[0] != listed[1];
    forall i | 0 <= i < |listed| ensures listed[i] == p {
      assert listed[i] in byStem[k];
      assert listed[i] in paths && n.stemKey(listed[i]) == k;
    }
  }

  /** Resolution by stem depends on the set of indexed paths only: a stem resolves to its one bearer. */
  lemma StemResolvesToBearer(n: Naming, r: Resolver, paths: set<Path>, target: string, p: Path)
    requires ResolverInv(n, r, paths) && '/' !in n.targetKey(target) && n.targetKey(target) != ""
    ensures Resolve(n, r, target) == Some(p) <==> OnlyBearer(n, paths, n.targetKey(target), p)
  {
    var k := n.targetKey(target);
    hide StemsExact, OnlyBearer;
    if Resolve(n, r, target) == Some(p) {
      SingleIsOnlyBearer(n, r.byStem, paths, k);
    }
    if OnlyBearer(n, paths, k, p) {
      OnlyBearerIsSingle(n, r.byStem, paths, k, p);
    }
  }

  lemma StemResolutionIsBySet(n: Naming, r1: Resolver, r2: Resolver, paths: set<Path>, target: string)
    requires ResolverInv(n, r1, paths) && ResolverInv(n, r2, paths) && '/' !in n.targetKey(target)
    ensures Resolve(n, r1, target) == Resolve(n, r2, target)
  {
    hide ResolverInv;
    if n.targetKey(target) != "" {
      var p1, p2 := Resolve(n, r1, target), Resolve(n, r2, target);
      if p1.Some? {
        StemResolvesToBearer(n, r1, paths, target, p1.value);
        StemResolvesToBearer(n, r2, paths, target, p1.value);
      } else if p2.Some? {
        StemResolvesToBearer(n, r1, paths, target, p2.value);
        StemResolvesToBearer(n, r2, paths, target, p2.value);
      }
    }
  }

  /** The path table still speaks for `p`, or no target could reach it that way. */
  predicate Steady(n: Naming, r: Resolver, p: Path) {
    '/' !in n.pathKey(p) || (n.pathKey(p) in r.byPath && r.byPath[n.pathKey(p)] == p)
  }

  /**
   * Taking an indexed path out and putting it back changes the resolution of a target exactly when the target is
   * the path's own key and the path table spoke for another note under that key.
   */
  lemma TouchedPath(n: Naming, r: Resolver, p: Path, key: string)
    ensures var byPath := InsertPath(n, RemovePath(n, r, p), p).byPath;
            && (key in byPath <==> key in r.byPath || key == n.pathKey(p))
            && (key in byPath ==> byPath[key] == if key == n.pathKey(p) then p else r.byPath[key])
  {
    hide Retained;
  }

  lemma TouchedResolution(n: Naming, r: Resolver, paths: set<Path>, p: Path, target: string)
    requires ResolverInv(n, r, paths) && p in paths
    ensures Resolve(n, InsertPath(n, RemovePath(n, r, p), p), target) == Resolve(n, r, target) <==>
            Steady(n, r, p) || n.targetKey(target) != n.pathKey(p)
  {
    var r' := InsertPath(n, RemovePath(n, r, p), p);
    var key := n.targetKey(target);
    hide RemovePath, InsertPath;
    if '/' in key {
      TouchedPath(n, r, p, key);
      hide ResolverInv;
    } else {
      RemoveKeepsInv(n, r, paths, p);
      InsertAfterRemove(n, r, paths, p);
      assert paths + {p} == paths;
      StemResolutionIsBySet(n, r, r', paths, target);
    }
  }

  // ----- when path keys are distinct -----

  ghost predicate DistinctKeys(n: Naming, paths: set<Path>) {
    forall p, q :: p in paths && q in paths && n.pathKey(p) == n.pathKey(q) ==> p == q
  }

  /** The path table lists every indexed path. */
  ghost predicate PathsComplete(n: Naming, r: Resolver, paths: set<Path>) {
    forall p :: p in paths ==> n.pathKey(p) in r.byPath && r.byPath[n.pathKey(p)] == p
  }

  /** Without clashes of path keys every path stays steady, whatever is added or removed. */
  lemma DistinctKeysStaySteady(n: Naming, r: Resolver, paths: set<Path>, p: Path)
    requires PathsComplete(n, r, paths) && DistinctKeys(n, paths + {p})
    ensures PathsComplete(n, InsertPath(n, r, p), paths + {p})
    ensures PathsComplete(n, RemovePath(n, r, p), paths - {p})
    ensures forall q :: q in paths ==> Steady(n, r, q)
  {
  }

  /**
   * What a target resolves to: an empty one to nothing, one with a slash to the note with that path key, any other to
   * the only note with that stem.
   */
  lemma ResolvesTo(n: Naming, r: Resolver, paths: set<Path>, target: string, p: Path)
    requires ResolverInv(n, r, paths) && PathsComplete(n, r, paths)
    ensures Resolve(n, r, target) == Some(p) <==>
            var key := n.targetKey(target);
            && key != "" && p in paths
            && (if '/' in key then n.pathKey(p) == key
                else n.stemKey(p) == key && forall q :: q in paths && n.stemKey(q) == key ==> q == p)
  {
    if n.targetKey(target) != "" && '/' !in n.targetKey(target) {
      StemResolvesToBearer(n, r, paths, target, p);
    }
  }

  /** Then resolution as a whole is a function of the set of indexed paths. */
  lemma ResolutionIsBySet(n: Naming, r1: Resolver, r2: Resolver, paths: set<Path>, target: string)
    requires ResolverInv(n, r1, paths) && ResolverInv(n, r2, paths)
    requires PathsComplete(n, r1, paths) && PathsComplete(n, r2, paths)
    ensures Resolve(n, r1, target) == Resolve(n, r2, target)
  {
    if '/' !in n.targetKey(target) {
      StemResolutionIsBySet(n, r1, r2, paths, target);
    }
  }
}
