/** The orphan report: notes with no edge in the graph of resolved links. */
module Orphans {
  import opened Common
  import opened LinkResolver
  import opened VaultIndex

  datatype Status = NoLinks | BrokenOutgoingOnly

  datatype Entry = Entry(path: Path, status: Status, brokenTargets: seq<string>)

  // ----- the graph -----

  predicate Edge(n: Naming, r: Resolver, notes: Notes, from: Path, to: Path) {
    from in notes && to in Targets(n, r, notes[from].links)
  }

  /** No resolved link leads in or out. */
  ghost predicate Disconnected(n: Naming, r: Resolver, notes: Notes, p: Path) {
    p in notes && forall q :: !Edge(n, r, notes, p, q) && !Edge(n, r, notes, q, p)
  }

  predicate HasTarget(note: Note) {
    exists l :: l in note.links && l.target != ""
  }

  ghost predicate BrokenTarget(n: Naming, r: Resolver, note: Note, target: string) {
    exists l :: l in note.links && l.target == target && IsBroken(n, r, l)
  }

  ghost predicate IsEntry(n: Naming, r: Resolver, notes: Notes, e: Entry) {
    && Disconnected(n, r, notes, e.path)
    && (e.status.NoLinks? <==> !HasTarget(notes[e.path]))
    && (forall t :: t in e.brokenTargets <==> BrokenTarget(n, r, notes[e.path], t))
    && SortedBy(e.brokenTargets, TextLe)
    && (forall i, j :: 0 <= i < j < |e.brokenTargets| ==> e.brokenTargets[i] != e.brokenTargets[j])
  }

  ghost predicate EachOnce(entries: seq<Entry>) {
    forall i, j :: 0 <= i < j < |entries| ==> entries[i].path != entries[j].path
  }

  ghost predicate ByPath(entries: seq<Entry>) {
    forall i, j :: 0 <= i < j < |entries| ==> PathLe(entries[i].path, entries[j].path)
  }

  predicate Lists(entries: seq<Entry>, p: Path) {
    exists e :: e in entries && e.path == p
  }

  // ----- from the index to the graph -----

  lemma IncomingIsBacklinks(n: Naming, r: Resolver, notes: Notes, backlinks: map<Path, set<Path>>, p: Path)
    requires BacklinksExact(n, r, notes, backlinks)
    ensures p in backlinks && backlinks[p] != {} <==> exists q :: Edge(n, r, notes, q, p)
    ensures (exists s :: p in backlinks && s in backlinks[p] && s in notes) <==> exists q :: Edge(n, r, notes, q, p)
  {
    if q :| Edge(n, r, notes, q, p) {
      assert Files(backlinks, p, q);
    }
    if s :| p in backlinks && s in backlinks[p] {
      assert Files(backlinks, p, s) && Edge(n, r, notes, s, p);
    }
  }

  lemma NoTargetNoEdge(n: Naming, r: Resolver, notes: Notes, p: Path)
    requires p in notes && !HasTarget(notes[p])
    ensures forall q :: !Edge(n, r, notes, p, q)
    ensures forall t :: !BrokenTarget(n, r, notes[p], t)
  {
    var links := notes[p].links;
    forall i | 0 <= i < |links| ensures links[i].target == "" {
      assert links[i] in links;
    }
  }

  lemma OutgoingIsResolved(n: Naming, r: Resolver, notes: Notes, p: Path)
    requires p in notes
    ensures (exists l :: l in notes[p].links && l.target != "" && Resolve(n, r, l.target).Some?) <==>
            exists q :: Edge(n, r, notes, p, q)
  {
    var links := notes[p].links;
    if l :| l in links && l.target != "" && Resolve(n, r, l.target).Some? {
      var i :| 0 <= i < |links| && links[i] == l;
      assert Edge(n, r, notes, p, Resolve(n, r, links[i].target).value);
    }
    if q :| Edge(n, r, notes, p, q) {
      var i :| 0 <= i < |links| && links[i].target != "" && Resolve(n, r, links[i].target).Some? &&
        Resolve(n, r, links[i].target).value == q;
      assert links[i] in links;
    }
  }

  // ----- the report -----

  predicate Mentions(broken: seq<(Path, Link)>, p: Path, t: string) {
    exists i :: 0 <= i < |broken| && broken[i].0 == p && broken[i].1.target == t
  }

  predicate InGroup(groups: map<Path, set<string>>, p: Path, t: string) {
    p in groups && t in groups[p]
  }

  lemma MentionsSnoc(broken: seq<(Path, Link)>, i: nat, p: Path, t: string)
    requires i < |broken|
    ensures Mentions(broken[..i + 1], p, t) <==>
            Mentions(broken[..i], p, t) || (broken[i].0 == p && broken[i].1.target == t)
  {
    var a, b := broken[..i], broken[..i + 1];
    assert forall j :: 0 <= j < i ==> a[j] == b[j];
    assert b[i] == broken[i];
  }

  /** Groups broken targets by note. */
  method GroupBroken(broken: seq<(Path, Link)>) returns (groups: map<Path, set<string>>)
    ensures forall p, t :: InGroup(groups, p, t) <==> Mentions(broken, p, t)
    ensures forall p :: p in groups ==> groups[p] != {}
  {
    groups := map[];
    var i := 0;
    while i < |broken|
      invariant 0 <= i <= |broken|
      invariant forall p, t :: InGroup(groups, p, t) <==> Mentions(broken[..i], p, t)
      invariant forall p :: p in groups ==> groups[p] != {}
    {
      var source, target := broken[i].0, broken[i].1.target;
      ghost var before := groups;
      groups := groups[source := (if source in groups then groups[source] else {}) + {target}];
      forall p, t ensures InGroup(groups, p, t) <==> Mentions(broken[..i + 1], p, t) {
        MentionsSnoc(broken, i, p, t);
        assert InGroup(before, p, t) <==> Mentions(broken[..i], p, t);
        assert InGroup(groups, p, t) <==> InGroup(before, p, t) || (p == source && t == target);
      }
      i := i + 1;
    }
    assert broken[..i] == broken;
  }

  /** Sorting entries by their paths, which are distinct. */
  method SortEntries(entries: seq<Entry>) returns (sorted: seq<Entry>)
    requires EachOnce(entries)
    ensures EachOnce(sorted) && ByPath(sorted)
    ensures forall e :: e in sorted <==> e in entries
  {
    PathOrder();
    hide TotalOrder;
    var paths := SortedList(set i | 0 <= i < |entries| :: entries[i].path, PathLe);
    sorted := [];
    var i := 0;
    while i < |paths|
      invariant 0 <= i <= |paths| && |sorted| == i
      invariant forall j :: 0 <= j < i ==> sorted[j] in entries && sorted[j].path == paths[j]
    {
      assert paths[i] in paths;
      var k :| 0 <= k < |entries| && entries[k].path == paths[i];
      sorted := sorted + [entries[k]];
      i := i + 1;
    }
    forall e | e in entries ensures e in sorted {
      var k :| 0 <= k < |entries| && entries[k] == e;
      assert e.path in paths;
      var j :| 0 <= j < |paths| && paths[j] == e.path;
      var m :| 0 <= m < |entries| && entries[m] == sorted[j];
      assert m == k;
    }
    forall e | e in sorted ensures e in entries {
      var j :| 0 <= j < |sorted| && sorted[j] == e;
    }
  }

  method NoLinkEntries(orphans: set<Path>) returns (entries: seq<Entry>)
    ensures EachOnce(entries)
    ensures forall e :: e in entries <==> e.path in orphans && e == Entry(e.path, NoLinks, [])
  {
    entries := [];
    var rest := orphans;
    while rest != {}
      invariant rest <= orphans && EachOnce(entries)
      invariant forall e :: e in entries <==> e.path in orphans - rest && e == Entry(e.path, NoLinks, [])
      decreases rest
    {
      var p :| p in rest;
      forall i | 0 <= i < |entries| ensures entries[i].path != p {
        assert entries[i] in entries;
      }
      entries := entries + [Entry(p, NoLinks, [])];
      rest := rest - {p};
    }
  }

  /** What grouping the broken links of the index yields. */
  ghost predicate GroupsExact(n: Naming, r: Resolver, notes: Notes, groups: map<Path, set<string>>) {
    && (forall p, t :: InGroup(groups, p, t) <==> p in notes && BrokenTarget(n, r, notes[p], t))
    && (forall p :: p in groups ==> groups[p] != {})
  }

  lemma GroupedBroken(n: Naming, r: Resolver, notes: Notes, broken: seq<(Path, Link)>, groups: map<Path, set<string>>)
    requires forall x :: x in broken <==> x.0 in notes && x.1 in notes[x.0].links && IsBroken(n, r, x.1)
    requires forall p, t :: InGroup(groups, p, t) <==> Mentions(broken, p, t)
    requires forall p :: p in groups ==> groups[p] != {}
    ensures GroupsExact(n, r, notes, groups)
  {
    forall p, t ensures Mentions(broken, p, t) <==> p in notes && BrokenTarget(n, r, notes[p], t) {
      if Mentions(broken, p, t) {
        var i :| 0 <= i < |broken| && broken[i].0 == p && broken[i].1.target == t;
        assert broken[i] in broken;
      }
      if p in notes && BrokenTarget(n, r, notes[p], t) {
        var l :| l in notes[p].links && l.target == t && IsBroken(n, r, l);
        assert (p, l) in broken;
      }
    }
  }

  /** The report of a note whose links are all broken and that nothing links to. */
  method BrokenOnlyEntry(index: Index, path: Path, targets: set<string>) returns (e: Option<Entry>)
    requires index.Valid() && path in index.notes && targets != {}
    requires forall t :: t in targets <==> BrokenTarget(index.naming, index.resolver, index.notes[path], t)
    ensures e.Some? <==> Disconnected(index.naming, index.resolver, index.notes, path)
    ensures e.Some? ==> e.value.path == path && IsEntry(index.naming, index.resolver, index.notes, e.value)
  {
    var hasIncoming := index.BacklinksTo(path) != {};
    var hasResolvedOutgoing :=
      exists l :: l in index.notes[path].links && l.target != "" && Resolve(index.naming, index.resolver, l.target).Some?;
    ConnectedWhen(index, path, hasIncoming, hasResolvedOutgoing);
    hide Disconnected, IsEntry;
    if hasIncoming || hasResolvedOutgoing {
      return None;
    }
    TextOrder();
    hide TotalOrder;
    var sorted := SortedList(targets, TextLe);
    e := Some(Entry(path, BrokenOutgoingOnly, sorted));
    BrokenOnlyIsEntry(index.naming, index.resolver, index.notes, path, targets, sorted);
  }

  lemma ConnectedWhen(index: Index, p: Path, hasIncoming: bool, hasResolvedOutgoing: bool)
    requires index.Valid() && p in index.notes
    requires hasIncoming <==> index.BacklinksTo(p) != {}
    requires hasResolvedOutgoing <==> exists l :: l in index.notes[p].links && l.target != "" &&
                                        Resolve(index.naming, index.resolver, l.target).Some?
    ensures !hasIncoming && !hasResolvedOutgoing <==> Disconnected(index.naming, index.resolver, index.notes, p)
  {
    var n, r, notes, backlinks := index.naming, index.resolver, index.notes, index.backlinks;
    IncomingIsBacklinks(n, r, notes, backlinks, p);
    OutgoingIsResolved(n, r, notes, p);
    hide Edge, Resolve;
    if hasIncoming {
      var s :| s in index.BacklinksTo(p);
    } else {
      assert forall s :: p in backlinks && s in backlinks[p] && s in notes ==> s in index.BacklinksTo(p);
    }
  }

  lemma BrokenOnlyIsEntry(n: Naming, r: Resolver, notes: Notes, p: Path, targets: set<string>, sorted: seq<string>)
    requires Disconnected(n, r, notes, p) && targets != {}
    requires forall t :: t in targets <==> BrokenTarget(n, r, notes[p], t)
    requires SortedBy(sorted, TextLe) && forall t :: t in sorted <==> t in targets
    requires forall i, j :: 0 <= i < j < |sorted| ==> sorted[i] != sorted[j]
    ensures IsEntry(n, r, notes, Entry(p, BrokenOutgoingOnly, sorted))
  {
    hide BrokenTarget;
    BrokenHasTarget(n, r, notes[p], targets);
  }

  lemma BrokenHasTarget(n: Naming, r: Resolver, note: Note, targets: set<string>)
    requires targets != {} && forall t :: t in targets <==> BrokenTarget(n, r, note, t)
    ensures HasTarget(note)
  {
    var t :| t in targets;
    assert BrokenTarget(n, r, note, t);
  }

  lemma OrphanIsEntry(index: Index, p: Path)
    requires index.Valid() && p in index.OrphanNotes()
    ensures IsEntry(index.naming, index.resolver, index.notes, Entry(p, NoLinks, []))
  {
    NoTargetNoEdge(index.naming, index.resolver, index.notes, p);
    IncomingIsBacklinks(index.naming, index.resolver, index.notes, index.backlinks, p);
  }

  /** A disconnected note either has no target at all or has broken ones. */
  lemma DisconnectedIsListed(index: Index, groups: map<Path, set<string>>, p: Path)
    requires index.Valid() && GroupsExact(index.naming, index.resolver, index.notes, groups)
    requires Disconnected(index.naming, index.resolver, index.notes, p)
    ensures p in index.OrphanNotes() || p in groups
  {
    var n, r, note := index.naming, index.resolver, index.notes[p];
    IncomingIsBacklinks(n, r, index.notes, index.backlinks, p);
    OutgoingIsResolved(n, r, index.notes, p);
    if l :| l in note.links && l.target != "" {
      assert IsBroken(n, r, l);
      assert BrokenTarget(n, r, note, l.target);
    }
  }

  /**
   * The report lists each disconnected note exactly once, in path order, as having no links exactly when it has no
   * non-empty target, and otherwise with exactly its broken targets, sorted.
   */
  method WikilinksOrphans(index: Index) returns (report: seq<Entry>)
    requires index.Valid()
    ensures EachOnce(report) && ByPath(report)
    ensures forall e :: e in report ==> IsEntry(index.naming, index.resolver, index.notes, e)
    ensures forall p :: Lists(report, p) <==> Disconnected(index.naming, index.resolver, index.notes, p)
  {
    hide GroupsExact, Disconnected, IsEntry;
    var orphans := index.OrphanNotes();
    var disconnected := NoLinkEntries(orphans);
    forall e | e in disconnected ensures IsEntry(index.naming, index.resolver, index.notes, e) {
      OrphanIsEntry(index, e.path);
    }
    forall p | p in orphans ensures Lists(disconnected, p) {
      assert Entry(p, NoLinks, []) in disconnected;
    }
    var groups := BrokenGroups(index);
    disconnected := AddAllBrokenOnly(index, groups, orphans, disconnected);
    forall p ensures Lists(disconnected, p) <==> Disconnected(index.naming, index.resolver, index.notes, p) {
      if Disconnected(index.naming, index.resolver, index.notes, p) {
        DisconnectedIsListed(index, groups, p);
      }
      if Lists(disconnected, p) {
        EntryIsDisconnected(index.naming, index.resolver, index.notes, disconnected, p);
      }
    }
    report := SortEntries(disconnected);
    assert forall p :: Lists(report, p) <==> Lists(disconnected, p);
  }

  method BrokenGroups(index: Index) returns (groups: map<Path, set<string>>)
    ensures GroupsExact(index.naming, index.resolver, index.notes, groups)
  {
    hide GroupsExact;
    var broken := index.BrokenLinks();
    groups := GroupBroken(broken);
    GroupedBroken(index.naming, index.resolver, index.notes, broken, groups);
  }

  method AddAllBrokenOnly(index: Index, groups: map<Path, set<string>>, orphans: set<Path>, entries: seq<Entry>)
    returns (disconnected: seq<Entry>)
    requires index.Valid() && GroupsExact(index.naming, index.resolver, index.notes, groups) && EachOnce(entries)
    requires forall e :: e in entries ==> e.path in orphans && IsEntry(index.naming, index.resolver, index.notes, e)
    requires forall p :: p in orphans ==> Lists(entries, p)
    ensures EachOnce(disconnected) && entries <= disconnected
    ensures forall e :: e in disconnected ==> IsEntry(index.naming, index.resolver, index.notes, e)
    ensures forall p :: p in groups && Disconnected(index.naming, index.resolver, index.notes, p) ==> Lists(disconnected, p)
    ensures forall p :: p in orphans ==> Lists(disconnected, p)
  {
    hide GroupsExact, Disconnected, IsEntry, VaultIndex.Index.Valid;
    disconnected := entries;
    var rest := groups.Keys;
    while rest != {}
      invariant rest <= groups.Keys && EachOnce(disconnected) && entries <= disconnected
      invariant forall e :: e in disconnected ==>
                  IsEntry(index.naming, index.resolver, index.notes, e) && (e.path in orphans || e.path in groups.Keys - rest)
      invariant forall p :: p in orphans ==> Lists(disconnected, p)
      invariant forall p :: p in groups.Keys - rest && Disconnected(index.naming, index.resolver, index.notes, p) ==>
                  Lists(disconnected, p)
      decreases rest
    {
      var source :| source in rest;
      ghost var before := disconnected;
      disconnected := AddBrokenOnly(index, groups, source, orphans, disconnected);
      assert forall p :: Lists(before, p) ==> Lists(disconnected, p);
      rest := rest - {source};
    }
  }

  lemma EntryIsDisconnected(n: Naming, r: Resolver, notes: Notes, entries: seq<Entry>, p: Path)
    requires forall e :: e in entries ==> IsEntry(n, r, notes, e)
    requires Lists(entries, p)
    ensures Disconnected(n, r, notes, p)
  {
  }

  method AddBrokenOnly(index: Index, groups: map<Path, set<string>>, source: Path, orphans: set<Path>,
    entries: seq<Entry>)
    returns (more: seq<Entry>)
    requires index.Valid() && GroupsExact(index.naming, index.resolver, index.notes, groups) && source in groups
    requires EachOnce(entries) && forall p :: p in orphans ==> Lists(entries, p)
    requires Lists(entries, source) ==> source in orphans
    ensures entries <= more && EachOnce(more)
    ensures forall e :: e in more && e !in entries ==>
              e.path == source && IsEntry(index.naming, index.resolver, index.notes, e)
    ensures Disconnected(index.naming, index.resolver, index.notes, source) ==> Lists(more, source)
  {
    GroupIsBroken(index.naming, index.resolver, index.notes, groups, source);
    hide GroupsExact, Disconnected, IsEntry;
    more := entries;
    if source !in orphans {
      var e := BrokenOnlyEntry(index, source, groups[source]);
      if e.Some? {
        forall i | 0 <= i < |entries| ensures entries[i].path != source {
          assert entries[i] in entries;
        }
        more := entries + [e.value];
        assert e.value in more;
      }
    }
  }

  lemma GroupIsBroken(n: Naming, r: Resolver, notes: Notes, groups: map<Path, set<string>>, p: Path)
    requires GroupsExact(n, r, notes, groups) && p in groups
    ensures p in notes && groups[p] != {} && forall t :: t in groups[p] <==> BrokenTarget(n, r, notes[p], t)
  {
    forall t ensures t in groups[p] <==> p in notes && BrokenTarget(n, r, notes[p], t) {
      assert InGroup(groups, p, t) <==> t in groups[p];
    }
    var t :| t in groups[p];
  }
}
