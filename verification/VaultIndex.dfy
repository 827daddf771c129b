/**
 * The in-memory vault index: notes, the inverted tag index, the backlink index and statistics, kept up to date on
 * create, modify, rename, delete and exclude.
 */
module VaultIndex {
  import opened Common
  import opened LinkResolver

  datatype Link = Link(raw: string, target: string)

  datatype Note = Note(tags: seq<string>, links: seq<Link>, size: nat)

  datatype Stats = Stats(
    totalNotes: nat, totalFiles: nat, totalTags: nat, totalLinks: nat, vaultSizeBytes: nat, excludedNotes: nat)

  /** What the directory walk meets: excluded or parsed or unparseable notes, and other files. */
  datatype WalkEntry =
    | ExcludedNote(path: Path)
    | ParsedNote(path: Path, note: Note)
    | UnparseableNote(path: Path)
    | OtherFile(bytes: nat)

  type Notes = map<Path, Note>

  // ----- what the indexes should hold -----

  predicate Files<K>(index: map<K, set<Path>>, k: K, p: Path) {
    k in index && p in index[k]
  }

  ghost predicate NoEmptyBucket<K(!new)>(index: map<K, set<Path>>) {
    forall k :: k in index ==> index[k] != {}
  }

  /** The tag index is the exact inverse of the notes' tags. */
  ghost predicate TagsExact(tags: map<string, set<Path>>, notes: Notes) {
    && NoEmptyBucket(tags)
    && (forall t, p :: Files(tags, t, p) <==> p in notes && t in notes[p].tags)
  }

  /** The notes that the links of one note resolve to. */
  function Targets(n: Naming, r: Resolver, links: seq<Link>): set<Path> {
    set i | 0 <= i < |links| && links[i].target != "" && Resolve(n, r, links[i].target).Some? ::
      Resolve(n, r, links[i].target).value
  }

  /** The backlink index lists, for each note linked to, exactly the notes with a link that resolves to it. */
  ghost predicate BacklinksExact(n: Naming, r: Resolver, notes: Notes, backlinks: map<Path, set<Path>>) {
    && NoEmptyBucket(backlinks)
    && (forall t, p :: Files(backlinks, t, p) <==> p in notes && t in Targets(n, r, notes[p].links))
  }

  /** The backlink index computed from the notes at one go. */
  ghost function BacklinksOf(n: Naming, r: Resolver, notes: Notes): map<Path, set<Path>> {
    map t | t in AllTargets(n, r, notes) :: set p | p in notes && t in Targets(n, r, notes[p].links)
  }

  ghost function AllTargets(n: Naming, r: Resolver, notes: Notes): set<Path> {
    set p, t | p in notes && t in Targets(n, r, notes[p].links) :: t
  }

  /** There is exactly one exact backlink index, the one computed from the notes at one go. */
  lemma BacklinksUnique(n: Naming, r: Resolver, notes: Notes, b: map<Path, set<Path>>)
    ensures BacklinksExact(n, r, notes, b) <==> b == BacklinksOf(n, r, notes)
  {
    hide Targets;
    var b0 := BacklinksOf(n, r, notes);
    forall t | t in b0 ensures b0[t] != {} {
      var p :| p in notes && t in Targets(n, r, notes[p].links);
      assert p in b0[t];
    }
    assert BacklinksExact(n, r, notes, b0);
    if BacklinksExact(n, r, notes, b) {
      SameFiling(b, b0);
    }
  }

  lemma SameFiling(b1: map<Path, set<Path>>, b2: map<Path, set<Path>>)
    requires NoEmptyBucket(b1) && NoEmptyBucket(b2) && forall t, p :: Files(b1, t, p) <==> Files(b2, t, p)
    ensures b1 == b2
  {
    forall t | t in b1 ensures t in b2 && b1[t] == b2[t] {
      var p :| p in b1[t];
      assert Files(b1, t, p) && Files(b2, t, p);
      forall q ensures q in b1[t] <==> q in b2[t] {
        assert Files(b1, t, q) <==> Files(b2, t, q);
      }
    }
    forall t | t in b2 ensures t in b1 {
      var p :| p in b2[t];
      assert Files(b2, t, p) && Files(b1, t, p);
    }
  }

  ghost function SizeSum(notes: Notes): nat
    decreases |notes|
  {
    if notes == map[] then 0
    else
      var p :| p in notes;
      assert |notes - {p}| < |notes| by { Smaller(notes, p); }
      notes[p].size + SizeSum(notes - {p})
  }

  ghost function LinkSum(notes: Notes): nat
    decreases |notes|
  {
    if notes == map[] then 0
    else
      var p :| p in notes;
      assert |notes - {p}| < |notes| by { Smaller(notes, p); }
      |notes[p].links| + LinkSum(notes - {p})
  }

  lemma Smaller(notes: Notes, p: Path)
    requires p in notes
    ensures |notes - {p}| == |notes| - 1
  {
    assert (notes - {p}).Keys == notes.Keys - {p};
    assert |(notes - {p}).Keys| == |notes.Keys| - 1;
    assert |notes.Keys| == |notes| && |(notes - {p}).Keys| == |notes - {p}|;
  }

  /** The sums do not depend on the order in which notes are visited. */
  lemma {:induction false} SumsSplit(notes: Notes, p: Path)
    requires p in notes
    ensures SizeSum(map[]) == 0 && LinkSum(map[]) == 0
    ensures SizeSum(notes) == notes[p].size + SizeSum(notes - {p})
    ensures LinkSum(notes) == |notes[p].links| + LinkSum(notes - {p})
    decreases |notes|
  {
    var q :| q in notes && SizeSum(notes) == notes[q].size + SizeSum(notes - {q});
    SizeSplit(notes, p, q);
    var s :| s in notes && LinkSum(notes) == |notes[s].links| + LinkSum(notes - {s});
    LinkSplit(notes, p, s);
  }

  lemma {:induction false} SizeSplit(notes: Notes, p: Path, q: Path)
    requires p in notes && q in notes && SizeSum(notes) == notes[q].size + SizeSum(notes - {q})
    ensures SizeSum(notes) == notes[p].size + SizeSum(notes - {p})
    decreases |notes|, 0
  {
    if p != q {
      Smaller(notes, p);
      Smaller(notes, q);
      SumsSplit(notes - {q}, p);
      SumsSplit(notes - {p}, q);
      assert notes - {q} - {p} == notes - {p} - {q};
    }
  }

  lemma {:induction false} LinkSplit(notes: Notes, p: Path, q: Path)
    requires p in notes && q in notes && LinkSum(notes) == |notes[q].links| + LinkSum(notes - {q})
    ensures LinkSum(notes) == |notes[p].links| + LinkSum(notes - {p})
    decreases |notes|, 0
  {
    if p != q {
      Smaller(notes, p);
      Smaller(notes, q);
      SumsSplit(notes - {q}, p);
      SumsSplit(notes - {p}, q);
      assert notes - {q} - {p} == notes - {p} - {q};
    }
  }

  ghost function StatsOf(
    notes: Notes, tags: map<string, set<Path>>, otherFiles: nat, otherBytes: nat, excluded: set<Path>): Stats
  {
    Stats(|notes|, |notes| + otherFiles, |tags|, LinkSum(notes), SizeSum(notes) + otherBytes, |excluded|)
  }

  /** The walk meets each path once. */
  ghost predicate WalkedOnce(entries: seq<WalkEntry>) {
    forall i, j :: 0 <= i < j < |entries| && !entries[i].OtherFile? && !entries[j].OtherFile? ==>
                     entries[i].path != entries[j].path
  }

  /** How many other files a walk meets, and how many bytes they hold. */
  function OtherFiles(entries: seq<WalkEntry>): nat {
    if |entries| == 0 then 0
    else OtherFiles(entries[..|entries| - 1]) + (if entries[|entries| - 1].OtherFile? then 1 else 0)
  }

  function OtherBytes(entries: seq<WalkEntry>): nat {
    if |entries| == 0 then 0
    else
      var last := entries[|entries| - 1];
      OtherBytes(entries[..|entries| - 1]) + (if last.OtherFile? then last.bytes else 0)
  }

  lemma FirstEntries(entries: seq<WalkEntry>, i: nat)
    requires i < |entries|
    ensures forall x :: x in entries[..i + 1] <==> x in entries[..i] || x == entries[i]
    ensures OtherFiles(entries[..i + 1]) == OtherFiles(entries[..i]) + (if entries[i].OtherFile? then 1 else 0)
    ensures OtherBytes(entries[..i + 1]) ==
            OtherBytes(entries[..i]) + (if entries[i].OtherFile? then entries[i].bytes else 0)
  {
    assert entries[..i + 1] == entries[..i] + [entries[i]];
    assert entries[..i + 1][..i] == entries[..i];
  }

  lemma MetOnce(entries: seq<WalkEntry>, i: nat, p: Path, note: Note)
    requires WalkedOnce(entries) && i < |entries| && entries[i].ParsedNote? && entries[i].path == p
    ensures ParsedNote(p, note) !in entries[..i]
  {
  }

  lemma NothingTagged(tags: map<string, set<Path>>, notes: Notes)
    requires tags == map[] && notes == map[]
    ensures TagsExact(tags, notes)
  {
  }

  // ----- the index -----

  class Index {
    var notes: Notes
    var tags: map<string, set<Path>>
    var resolver: Resolver
    var backlinks: map<Path, set<Path>>
    var stats: Stats
    var otherFiles: nat
    var otherBytes: nat
    var excluded: set<Path>
    const naming: Naming

    /** Tags and resolver describe the notes. */
    ghost predicate Core()
      reads this`notes, this`tags, this`resolver
    {
      TagsExact(tags, notes) && ResolverInv(naming, resolver, notes.Keys)
    }

    /** The same but for `p`, which the resolver may list although it is not indexed. */
    ghost predicate CoreBut(p: Path)
      reads this`notes, this`tags, this`resolver
    {
      TagsExact(tags, notes) && ResolverInv(naming, RemovePath(naming, resolver, p), notes.Keys - {p})
    }

    ghost predicate LinksRight()
      reads this
    {
      BacklinksExact(naming, resolver, notes, backlinks)
    }

    ghost predicate StatsRight()
      reads this
    {
      stats == StatsOf(notes, tags, otherFiles, otherBytes, excluded)
    }

    ghost predicate Valid()
      reads this
    {
      Core() && LinksRight() && StatsRight()
    }

    /** Building from a walk of the vault. */
    constructor (entries: seq<WalkEntry>, names: Naming)
      requires WalkedOnce(entries)
      ensures Valid() && naming == names
      ensures forall p, note :: p in notes && notes[p] == note <==> ParsedNote(p, note) in entries
      ensures forall p :: p in excluded <==> ExcludedNote(p) in entries
      ensures otherFiles == OtherFiles(entries) && otherBytes == OtherBytes(entries)
    {
      notes, tags, backlinks, excluded := map[], map[], map[], {};
      resolver, stats, otherFiles, otherBytes, naming := Resolver(map[], map[]), Stats(0, 0, 0, 0, 0, 0), 0, 0, names;
      new;
      Walk(entries);
      BuildResolver();
      Refresh();
    }

    method Walk(entries: seq<WalkEntry>)
      requires WalkedOnce(entries)
      requires notes == map[] && tags == map[] && excluded == {} && otherFiles == 0 && otherBytes == 0
      modifies this`notes, this`tags, this`excluded, this`otherFiles, this`otherBytes
      ensures TagsExact(tags, notes)
      ensures forall p, note :: p in notes && notes[p] == note <==> ParsedNote(p, note) in entries
      ensures forall p :: p in excluded <==> ExcludedNote(p) in entries
      ensures otherFiles == OtherFiles(entries) && otherBytes == OtherBytes(entries)
    {
      hide TagsExact, WalkedOnce;
      assert TagsExact(tags, notes) by {
        NothingTagged(tags, notes);
      }
      var i := 0;
      while i < |entries|
        invariant 0 <= i <= |entries|
        invariant TagsExact(tags, notes)
        invariant forall p, note :: p in notes && notes[p] == note <==> ParsedNote(p, note) in entries[..i]
        invariant forall p :: p in excluded <==> ExcludedNote(p) in entries[..i]
        invariant otherFiles == OtherFiles(entries[..i]) && otherBytes == OtherBytes(entries[..i])
      {
        FirstEntries(entries, i);
        match entries[i] {
          case ExcludedNote(p) => excluded := excluded + {p};
          case ParsedNote(p, note) =>
            if p in notes {
              MetOnce(entries, i, p, notes[p]);
            }
            MeetNote(p, note);
          case UnparseableNote(_) =>
          case OtherFile(bytes) => otherFiles, otherBytes := otherFiles + 1, otherBytes + bytes;
        }
        i := i + 1;
      }
      assert entries[..i] == entries;
    }

    method MeetNote(path: Path, note: Note)
      requires TagsExact(tags, notes) && path !in notes
      modifies this`notes, this`tags
      ensures TagsExact(tags, notes) && notes == old(notes)[path := note]
    {
      AddTags(path, note.tags);
      notes := notes[path := note];
    }

    method BuildResolver()
      requires resolver == Resolver(map[], map[])
      modifies this`resolver
      ensures ResolverInv(naming, resolver, notes.Keys)
    {
      var rest := notes.Keys;
      while rest != {}
        invariant rest <= notes.Keys
        invariant ResolverInv(naming, resolver, notes.Keys - rest)
        decreases rest
      {
        var p :| p in rest;
        InsertKeepsInv(naming, resolver, notes.Keys - rest, p);
        assert notes.Keys - rest + {p} == notes.Keys - (rest - {p});
        resolver := InsertPath(naming, resolver, p);
        rest := rest - {p};
      }
      assert notes.Keys - rest == notes.Keys;
    }

    method AddTags(path: Path, noteTags: seq<string>)
      modifies this`tags
      ensures forall t, p :: Files(tags, t, p) <==> Files(old(tags), t, p) || (p == path && t in noteTags)
      ensures NoEmptyBucket(old(tags)) ==> NoEmptyBucket(tags)
    {
      var i := 0;
      while i < |noteTags|
        invariant 0 <= i <= |noteTags|
        invariant forall t, p :: Files(tags, t, p) <==> Files(old(tags), t, p) || (p == path && t in noteTags[..i])
        invariant NoEmptyBucket(old(tags)) ==> NoEmptyBucket(tags)
      {
        var tag := noteTags[i];
        assert noteTags[..i + 1] == noteTags[..i] + [tag];
        assert forall t :: t in noteTags[..i + 1] <==> t in noteTags[..i] || t == tag;
        FileTag(tag, path);
        i := i + 1;
      }
      assert noteTags[..i] == noteTags;
    }

    method FileTag(tag: string, path: Path)
      modifies this`tags
      ensures forall t, p :: Files(tags, t, p) <==> Files(old(tags), t, p) || (t == tag && p == path)
      ensures NoEmptyBucket(old(tags)) ==> NoEmptyBucket(tags)
    {
      tags := tags[tag := (if tag in tags then tags[tag] else {}) + {path}];
    }

    /** Takes a note and its tags out, dropping the buckets that it leaves empty. */
    method RemoveNoteContributions(path: Path)
      requires TagsExact(tags, notes)
      modifies this`notes, this`tags
      ensures notes == old(notes) - {path}
      ensures TagsExact(tags, notes)
    {
      if path in notes {
        var oldNote := notes[path];
        notes := notes - {path};
        var emptied := DropFromBuckets(path, oldNote.tags);
        DropBuckets(emptied);
      }
    }

    method DropFromBuckets(path: Path, noteTags: seq<string>) returns (emptied: seq<string>)
      requires NoEmptyBucket(tags)
      modifies this`tags
      ensures forall t, p :: Files(tags, t, p) <==> Files(old(tags), t, p) && !(p == path && t in noteTags)
      ensures forall t :: t in tags ==> (tags[t] == {} <==> t in emptied)
    {
      emptied := [];
      var i := 0;
      while i < |noteTags|
        invariant 0 <= i <= |noteTags|
        invariant forall t, p :: Files(tags, t, p) <==> Files(old(tags), t, p) && !(p == path && t in noteTags[..i])
        invariant forall t :: t in tags ==> (tags[t] == {} <==> t in emptied)
      {
        var tag := noteTags[i];
        assert noteTags[..i + 1] == noteTags[..i] + [tag];
        if tag in tags {
          tags := tags[tag := tags[tag] - {path}];
          if tags[tag] == {} {
            emptied := emptied + [tag];
          }
        }
        i := i + 1;
      }
    }

    method DropBuckets(emptied: seq<string>)
      requires forall t :: t in tags ==> (tags[t] == {} <==> t in emptied)
      modifies this`tags
      ensures forall t, p :: Files(tags, t, p) <==> Files(old(tags), t, p)
      ensures NoEmptyBucket(tags)
    {
      var i := 0;
      while i < |emptied|
        invariant 0 <= i <= |emptied|
        invariant forall t, p :: Files(tags, t, p) <==> Files(old(tags), t, p)
        invariant forall t :: t in tags ==> (tags[t] == {} <==> t in emptied[i..])
      {
        assert emptied[i..] == [emptied[i]] + emptied[i + 1..];
        tags := tags - {emptied[i]};
        i := i + 1;
      }
    }

    // ----- backlinks -----

    method FileLinks(source: Path, links: seq<Link>)
      modifies this`backlinks
      ensures forall t, p :: Files(backlinks, t, p) <==>
                Files(old(backlinks), t, p) || (p == source && t in Targets(naming, resolver, links))
      ensures NoEmptyBucket(old(backlinks)) ==> NoEmptyBucket(backlinks)
    {
      var i := 0;
      while i < |links|
        invariant 0 <= i <= |links|
        invariant forall t, p :: Files(backlinks, t, p) <==>
                    Files(old(backlinks), t, p) || (p == source && t in Targets(naming, resolver, links[..i]))
        invariant NoEmptyBucket(old(backlinks)) ==> NoEmptyBucket(backlinks)
      {
        TargetsSnoc(naming, resolver, links, i);
        if links[i].target != "" {
          var resolved := Resolve(naming, resolver, links[i].target);
          if resolved.Some? {
            File(resolved.value, source);
          }
        }
        i := i + 1;
      }
      assert links[..i] == links;
    }

    method File(target: Path, source: Path)
      modifies this`backlinks
      ensures forall t, p :: Files(backlinks, t, p) <==> Files(old(backlinks), t, p) || (t == target && p == source)
      ensures NoEmptyBucket(old(backlinks)) ==> NoEmptyBucket(backlinks)
    {
      backlinks := backlinks[target := (if target in backlinks then backlinks[target] else {}) + {source}];
    }

    method Unfile(target: Path, source: Path)
      requires NoEmptyBucket(backlinks)
      modifies this`backlinks
      ensures forall t, p :: Files(backlinks, t, p) <==> Files(old(backlinks), t, p) && !(t == target && p == source)
      ensures NoEmptyBucket(backlinks)
    {
      if target in backlinks {
        var sources := backlinks[target] - {source};
        assert forall p :: p in backlinks[target] && p != source ==> p in sources;
        backlinks := if sources == {} then backlinks - {target} else backlinks[target := sources];
      }
    }

    method UnfileLinks(source: Path, links: seq<Link>)
      requires NoEmptyBucket(backlinks)
      modifies this`backlinks
      ensures forall t, p :: Files(backlinks, t, p) <==>
                Files(old(backlinks), t, p) && !(p == source && t in Targets(naming, resolver, links))
      ensures NoEmptyBucket(backlinks)
    {
      var i := 0;
      while i < |links|
        invariant 0 <= i <= |links|
        invariant forall t, p :: Files(backlinks, t, p) <==>
                    Files(old(backlinks), t, p) && !(p == source && t in Targets(naming, resolver, links[..i]))
        invariant NoEmptyBucket(backlinks)
      {
        TargetsSnoc(naming, resolver, links, i);
        if links[i].target != "" {
          var resolved := Resolve(naming, resolver, links[i].target);
          if resolved.Some? {
            Unfile(resolved.value, source);
          }
        }
        i := i + 1;
      }
      assert links[..i] == links;
    }

    /** Whatever the backlink index held before, rebuilding makes it exact. */
    method RebuildBacklinks()
      modifies this`backlinks
      ensures LinksRight()
    {
      backlinks := map[];
      var rest := notes.Keys;
      while rest != {}
        invariant rest <= notes.Keys
        invariant NoEmptyBucket(backlinks)
        invariant forall t, p :: Files(backlinks, t, p) <==>
                    p in notes && p !in rest && t in Targets(naming, resolver, notes[p].links)
        decreases rest
      {
        var source :| source in rest;
        FileLinks(source, notes[source].links);
        rest := rest - {source};
      }
    }

    /** Patches one file's links: its old ones out, its new ones in, both under the current resolver. */
    method UpdateBacklinksForFile(path: Path, oldLinks: Option<seq<Link>>)
      requires NoEmptyBucket(backlinks)
      modifies this`backlinks
      ensures NoEmptyBucket(backlinks)
      ensures forall t, p :: Files(backlinks, t, p) <==>
                || (Files(old(backlinks), t, p) &&
                    !(p == path && oldLinks.Some? && t in Targets(naming, resolver, oldLinks.value)))
                || (p == path && path in notes && t in Targets(naming, resolver, notes[path].links))
    {
      if oldLinks.Some? {
        UnfileLinks(path, oldLinks.value);
      }
      if path in notes {
        FileLinks(path, notes[path].links);
      }
    }

    method RecomputeStats()
      modifies this`stats
      ensures StatsRight()
    {
      var size, links := 0, 0;
      var rest := notes;
      while rest != map[]
        invariant rest.Keys <= notes.Keys && forall p :: p in rest ==> rest[p] == notes[p]
        invariant size + SizeSum(rest) == SizeSum(notes) && links + LinkSum(rest) == LinkSum(notes)
        decreases rest.Keys
      {
        assert rest.Keys != {};
        var p :| p in rest;
        SumsSplit(rest, p);
        size, links := size + rest[p].size, links + |rest[p].links|;
        rest := rest - {p};
      }
      stats := Stats(|notes|, |notes| + otherFiles, |tags|, links, size + otherBytes, |excluded|);
    }

    // ----- operations -----

    /** Backlinks and statistics from scratch, under the resolver as it is. */
    method Refresh()
      modifies this`backlinks, this`stats
      ensures LinksRight() && StatsRight()
    {
      hide BacklinksExact, StatsOf;
      RebuildBacklinks();
      RecomputeStats();
    }

    /** Takes a path out of notes, tags and resolver. */
    method TakeOut(path: Path)
      requires TagsExact(tags, notes)
      modifies this`notes, this`tags, this`resolver
      ensures TagsExact(tags, notes) && notes == old(notes) - {path}
      ensures resolver == RemovePath(naming, old(resolver), path)
      ensures Core() <==> old(CoreBut(path))
      ensures forall q :: old(CoreBut(q)) ==> CoreBut(q)
    {
      RemoveNoteContributions(path);
      resolver := RemovePath(naming, resolver, path);
      assert notes.Keys == old(notes).Keys - {path};
      hide TagsExact, ResolverInv, RemovePath;
      forall q | old(CoreBut(q)) ensures CoreBut(q) {
        RemovalKeepsStray(naming, old(resolver), old(notes).Keys, path, q);
      }
    }

    /**
     * Re-indexes one file. A known file has only its own links patched, which is exact precisely when
     * `PatchSuffices`; a new file triggers a rebuild. A file that does not parse leaves the index without it,
     * backlinks and statistics untouched. The resolver is exact afterwards if at most this file was listed wrongly.
     */
    method ReindexFile(path: Path, parsed: Option<Note>) returns (ok: bool)
      requires TagsExact(tags, notes) && NoEmptyBucket(backlinks)
      modifies this
      ensures ok <==> parsed.Some?
      ensures excluded == old(excluded) - {path} && otherFiles == old(otherFiles) && otherBytes == old(otherBytes)
      ensures TagsExact(tags, notes) && NoEmptyBucket(backlinks)
      ensures old(CoreBut(path)) ==> Core()
      ensures forall q :: q != path && old(CoreBut(q)) ==> CoreBut(q)
      ensures ok ==> notes == old(notes)[path := parsed.value] && StatsRight()
      ensures ok ==> resolver == InsertPath(naming, RemovePath(naming, old(resolver), path), path)
      ensures ok && path !in old(notes) ==> LinksRight()
      ensures ok && path in old(notes) && old(LinksRight()) ==>
                (LinksRight() <==> PatchSuffices(naming, old(resolver), resolver, old(notes), path, parsed.value.links))
      ensures ok && path in old(notes) && old(Core() && LinksRight()) && Steady(naming, old(resolver), path) ==> LinksRight()
      ensures !ok ==> notes == old(notes) - {path} && backlinks == old(backlinks) && stats == old(stats)
    {
      hide TagsExact, ResolverInv, BacklinksExact, PatchSuffices, Patched, RemovePath, InsertPath, NoEmptyBucket,
        Steady;
      var wasExisting := path in notes;
      var oldLinks := if wasExisting then Some(notes[path].links) else None;
      excluded := excluded - {path};
      TakeOut(path);
      if parsed.None? {
        return false;
      }
      ReplaceNote(old(notes), path, parsed.value);
      IndexParsed(path, parsed.value, oldLinks);
      if wasExisting && old(LinksRight()) {
        ReindexedLinks(naming, old(resolver), old(notes), path, parsed.value, old(backlinks), backlinks);
      }
      ok := true;
    }

    /**
     * Removing a file rebuilds the backlinks: tags, backlinks and statistics are right again whatever the last two
     * were before. The resolver is exact if at most this file was listed wrongly.
     */
    method RemoveFile(path: Path)
      requires TagsExact(tags, notes)
      modifies this
      ensures TagsExact(tags, notes) && LinksRight() && StatsRight()
      ensures Core() <==> old(CoreBut(path))
      ensures forall q :: old(CoreBut(q)) ==> CoreBut(q)
      ensures notes == old(notes) - {path} && excluded == old(excluded) - {path}
      ensures otherFiles == old(otherFiles) && otherBytes == old(otherBytes)
    {
      hide TagsExact, ResolverInv, RemovePath, BacklinksExact, StatsOf;
      excluded := excluded - {path};
      TakeOut(path);
      backlinks := backlinks - {path};
      Refresh();
    }

    /**
     * Renaming. Backlinks and statistics are right afterwards; tags and resolver are, exactly when the new path
     * was not indexed already. If the new file does not parse, only the resolver lists it.
     */
    method RenameFile(oldPath: Path, newPath: Path, parsed: Option<Note>) returns (ok: bool)
      requires TagsExact(tags, notes)
      modifies this
      ensures ok <==> parsed.Some?
      ensures excluded == old(excluded) - {oldPath} && otherFiles == old(otherFiles) && otherBytes == old(otherBytes)
      ensures ok ==> notes == (old(notes) - {oldPath})[newPath := parsed.value] && LinksRight() && StatsRight()
      ensures ok && old(CoreBut(oldPath)) ==> (Core() <==> newPath == oldPath || newPath !in old(notes))
      ensures ok ==> (TagsExact(tags, notes) <==>
                (newPath in old(notes) - {oldPath} ==> forall t :: t in old(notes)[newPath].tags ==> t in parsed.value.tags))
      ensures !ok ==> notes == old(notes) - {oldPath} && TagsExact(tags, notes)
      ensures !ok && old(CoreBut(oldPath)) ==> CoreBut(newPath)
      ensures !ok ==> backlinks == old(backlinks) - {oldPath} && stats == old(stats)
    {
      hide TagsExact, ResolverInv, RemovePath, InsertPath, BacklinksExact, StatsOf, NoEmptyBucket, Files;
      excluded := excluded - {oldPath};
      TakeOut(oldPath);
      ghost var kept, keptTags, taken := notes, tags, resolver;
      resolver := InsertPath(naming, resolver, newPath);
      backlinks := backlinks - {oldPath};
      ghost var exact := ResolverInv(naming, taken, kept.Keys);
      if exact {
        RemoveUndoesInsert(naming, taken, kept.Keys, newPath);
        OverwriteBreaksResolver(naming, taken, kept, newPath);
      }
      if parsed.None? {
        return false;
      }
      ExactHasNoEmptyBucket(tags, notes);
      AddTags(newPath, parsed.value.tags);
      TagsAfterOverwrite(keptTags, kept, tags, newPath, parsed.value);
      notes := notes[newPath := parsed.value];
      assert notes.Keys == kept.Keys + {newPath};
      RebuildBacklinks();
      RecomputeStats();
      ok := true;
    }

    /** A file that becomes excluded leaves the index; the backlinks are rebuilt. */
    method AddExcludedFile(path: Path)
      requires TagsExact(tags, notes)
      modifies this
      ensures TagsExact(tags, notes) && LinksRight() && StatsRight()
      ensures Core() <==> old(CoreBut(path))
      ensures forall q :: old(CoreBut(q)) ==> CoreBut(q)
      ensures notes == old(notes) - {path} && excluded == old(excluded) + {path}
      ensures otherFiles == old(otherFiles) && otherBytes == old(otherBytes)
    {
      hide TagsExact, ResolverInv, RemovePath, BacklinksExact, StatsOf;
      TakeOut(path);
      backlinks := backlinks - {path};
      excluded := excluded + {path};
      Refresh();
    }

    // ----- queries -----

    /** Every note that carries the tag or a tag below it, once. */
    method NotesWithTagPrefix(prefix: string) returns (results: seq<Path>)
      requires TagsExact(tags, notes)
      ensures forall i, j :: 0 <= i < j < |results| ==> results[i] != results[j]
      ensures forall p :: p in results <==>
                p in notes && exists t :: t in notes[p].tags && (t == prefix || prefix + "/" <= t)
    {
      results := [];
      var rest := tags.Keys;
      while rest != {}
        invariant rest <= tags.Keys
        invariant forall i, j :: 0 <= i < j < |results| ==> results[i] != results[j]
        invariant forall p :: p in results <==> exists t :: t in tags && t !in rest && UnderTag(t, prefix) && p in tags[t]
        decreases rest
      {
        var tag :| tag in rest;
        if UnderTag(tag, prefix) {
          var more := NewPaths(tags[tag], results);
          forall i, j | 0 <= i < |results| && 0 <= j < |more| ensures results[i] != more[j] {
            assert results[i] in results && more[j] in more;
          }
          results := results + more;
        }
        rest := rest - {tag};
      }
      forall p ensures p in results <==> p in notes && exists t :: t in notes[p].tags && UnderTag(t, prefix) {
        if t :| t in tags && UnderTag(t, prefix) && p in tags[t] {
          assert Files(tags, t, p);
        }
        if p in notes {
          forall t | t in notes[p].tags ensures Files(tags, t, p) {
          }
        }
      }
    }

    /** Every link with a target that resolves to no note, under its note, as often as the note holds it. */
    method BrokenLinks() returns (result: seq<(Path, Link)>)
      ensures forall x :: multiset(result)[x] == BrokenTimes(naming, resolver, notes, x)
      ensures forall x :: x in result <==>
                && x.0 in notes && x.1 in notes[x.0].links
                && x.1.target != "" && Resolve(naming, resolver, x.1.target).None?
    {
      result := [];
      var rest := notes.Keys;
      while rest != {}
        invariant rest <= notes.Keys
        invariant forall x :: multiset(result)[x] == if x.0 in rest then 0 else BrokenTimes(naming, resolver, notes, x)
        decreases rest
      {
        var path :| path in rest;
        var more := BrokenOf(path, notes[path].links);
        result := result + more;
        rest := rest - {path};
      }
      forall x ensures x in result <==> x.0 in notes && x.1 in notes[x.0].links && IsBroken(naming, resolver, x.1) {
        assert x in result <==> multiset(result)[x] > 0;
        assert x.0 in notes ==> (x.1 in notes[x.0].links <==> multiset(notes[x.0].links)[x.1] > 0);
      }
    }

    method BrokenOf(path: Path, links: seq<Link>) returns (result: seq<(Path, Link)>)
      ensures forall x :: multiset(result)[x] ==
                if x.0 == path && IsBroken(naming, resolver, x.1) then multiset(links)[x.1] else 0
    {
      result := [];
      var i := 0;
      while i < |links|
        invariant 0 <= i <= |links|
        invariant forall x :: multiset(result)[x] ==
                    if x.0 == path && IsBroken(naming, resolver, x.1) then multiset(links[..i])[x.1] else 0
      {
        assert links[..i + 1] == links[..i] + [links[i]];
        if links[i].target != "" && Resolve(naming, resolver, links[i].target).None? {
          result := result + [(path, links[i])];
        }
        i := i + 1;
      }
      assert links[..i] == links;
    }

    function BacklinksTo(path: Path): (sources: set<Path>)
      reads this
      ensures sources <= notes.Keys
    {
      if path in backlinks then set p | p in backlinks[path] && p in notes else {}
    }

    function OrphanNotes(): set<Path>
      reads this
    {
      set p | p in notes && (p !in backlinks || backlinks[p] == {}) && forall l :: l in notes[p].links ==> l.target == ""
    }

    method IndexParsed(path: Path, note: Note, oldLinks: Option<seq<Link>>)
      requires TagsExact(tags, notes) && path !in notes && NoEmptyBucket(backlinks)
      modifies this`tags, this`resolver, this`notes, this`backlinks, this`stats
      ensures TagsExact(tags, notes) && StatsRight() && NoEmptyBucket(backlinks)
      ensures old(Core()) ==> Core()
      ensures forall q :: q != path && old(CoreBut(q)) ==> CoreBut(q)
      ensures notes == old(notes)[path := note] && resolver == InsertPath(naming, old(resolver), path)
      ensures oldLinks.None? ==> LinksRight()
      ensures oldLinks.Some? ==>
                Patched(naming, resolver, path, oldLinks.value, note.links, old(backlinks), backlinks)
    {
      hide TagsExact, ResolverInv, InsertPath, NoEmptyBucket, Targets, StatsOf, Files;
      AddNote(path, note);
      if oldLinks.Some? {
        UpdateBacklinksForFile(path, oldLinks);
      } else {
        RebuildBacklinks();
      }
      RecomputeStats();
    }

    method AddNote(path: Path, note: Note)
      requires TagsExact(tags, notes) && path !in notes
      modifies this`tags, this`resolver, this`notes
      ensures TagsExact(tags, notes) && notes == old(notes)[path := note]
      ensures resolver == InsertPath(naming, old(resolver), path)
      ensures old(Core()) ==> Core()
      ensures forall q :: q != path && old(CoreBut(q)) ==> CoreBut(q)
    {
      MeetNote(path, note);
      resolver := InsertPath(naming, resolver, path);
      assert notes.Keys == old(notes).Keys + {path};
      hide TagsExact, ResolverInv, RemovePath, InsertPath;
      if old(Core()) {
        InsertKeepsInv(naming, old(resolver), old(notes).Keys, path);
      }
      forall q | q != path && old(CoreBut(q)) ensures CoreBut(q) {
        InsertKeepsStray(naming, old(resolver), old(notes).Keys, path, q);
      }
    }
  }

  /** What right statistics say. */
  lemma StatsAre(index: Index)
    requires index.StatsRight()
    ensures var stats := index.stats;
            && stats.totalNotes == |index.notes| && stats.totalFiles == |index.notes| + index.otherFiles
            && stats.totalTags == |index.tags| && stats.totalLinks == LinkSum(index.notes)
            && stats.vaultSizeBytes == SizeSum(index.notes) + index.otherBytes
            && stats.excludedNotes == |index.excluded|
  {
  }

  /** The backlinks of a note are the indexed notes with a link that resolves to it. */
  lemma BacklinksAre(index: Index, path: Path, p: Path)
    requires index.LinksRight()
    ensures p in index.BacklinksTo(path) <==>
            && p in index.notes
            && exists i :: && 0 <= i < |index.notes[p].links| && index.notes[p].links[i].target != ""
                           && Resolve(index.naming, index.resolver, index.notes[p].links[i].target) == Some(path)
  {
    assert Files(index.backlinks, path, p) <==>
           p in index.notes && path in Targets(index.naming, index.resolver, index.notes[p].links);
  }

  predicate UnderTag(tag: string, prefix: string) {
    tag == prefix || prefix + "/" <= tag
  }

  /** How often a note holds a link, if the link is broken. */
  function BrokenTimes(n: Naming, r: Resolver, notes: Notes, x: (Path, Link)): nat {
    if x.0 in notes && IsBroken(n, r, x.1) then multiset(notes[x.0].links)[x.1] else 0
  }

  predicate IsBroken(n: Naming, r: Resolver, link: Link) {
    link.target != "" && Resolve(n, r, link.target).None?
  }

  /** The members of a set that a list does not hold yet, listed once. */
  method NewPaths(paths: set<Path>, seen: seq<Path>) returns (more: seq<Path>)
    ensures forall p :: p in more <==> p in paths && p !in seen
    ensures forall i, j :: 0 <= i < j < |more| ==> more[i] != more[j]
  {
    more := [];
    var rest := paths;
    while rest != {}
      invariant rest <= paths
      invariant forall p :: p in more <==> p in paths && p !in rest && p !in seen
      invariant forall i, j :: 0 <= i < j < |more| ==> more[i] != more[j]
      decreases rest
    {
      var p :| p in rest;
      if p !in seen {
        more := more + [p];
      }
      rest := rest - {p};
    }
  }

  lemma ExactHasNoEmptyBucket(tags: map<string, set<Path>>, notes: Notes)
    requires TagsExact(tags, notes)
    ensures NoEmptyBucket(tags)
  {
  }

  lemma TagsAfterOverwrite(
    tags: map<string, set<Path>>, notes: Notes, tags': map<string, set<Path>>, path: Path, note: Note)
    requires TagsExact(tags, notes) && NoEmptyBucket(tags')
    requires forall t, p :: Files(tags', t, p) <==> Files(tags, t, p) || (p == path && t in note.tags)
    ensures TagsExact(tags', notes[path := note]) <==> (path in notes ==> forall t :: t in notes[path].tags ==> t in note.tags)
  {
    var notes' := notes[path := note];
    if path in notes {
      forall t | t in notes[path].tags ensures Files(tags', t, path) {
        assert Files(tags, t, path);
      }
    }
    if TagsExact(tags', notes') && path in notes {
      forall t | t in notes[path].tags ensures t in note.tags {
        assert Files(tags', t, path) <==> path in notes' && t in notes'[path].tags;
      }
    }
  }

  lemma OverwriteBreaksResolver(n: Naming, r: Resolver, notes: Notes, path: Path)
    requires ResolverInv(n, r, notes.Keys)
    ensures ResolverInv(n, InsertPath(n, r, path), notes.Keys + {path}) <==> path !in notes
  {
    if path in notes {
      assert notes.Keys + {path} == notes.Keys;
      InsertTwiceBreaks(n, r, notes.Keys, path);
    } else {
      InsertKeepsInv(n, r, notes.Keys, path);
    }
  }

  lemma ReplaceNote(notes: Notes, path: Path, note: Note)
    ensures (notes - {path})[path := note] == notes[path := note]
  {
  }

  lemma TargetsSnoc(n: Naming, r: Resolver, links: seq<Link>, i: nat)
    requires i < |links|
    ensures Targets(n, r, links[..i + 1]) == Targets(n, r, links[..i]) +
              (if links[i].target != "" && Resolve(n, r, links[i].target).Some? then {Resolve(n, r, links[i].target).value} else {})
  {
    var a, b := links[..i], links[..i + 1];
    assert forall j :: 0 <= j < i ==> b[j] == a[j];
    assert b[i] == links[i];
  }

  /**
   * When does patching one file give what a rebuild gives? No other note's targets moved with the resolver, and
   * every old target of the file that the resolver no longer yields is a target again.
   */
  ghost predicate PatchSuffices(
    n: Naming, before: Resolver, after: Resolver, notes: Notes, path: Path, links: seq<Link>)
    requires path in notes
  {
    && (forall p :: p in notes && p != path ==> Targets(n, before, notes[p].links) == Targets(n, after, notes[p].links))
    && Targets(n, before, notes[path].links) <= Targets(n, after, notes[path].links) + Targets(n, after, links)
  }

  /** How patching changes the backlink index. */
  ghost predicate Patched(
    n: Naming, after: Resolver, path: Path, oldLinks: seq<Link>, links: seq<Link>, b: map<Path, set<Path>>,
    b': map<Path, set<Path>>)
  {
    forall t, p :: Files(b', t, p) <==>
      || (Files(b, t, p) && !(p == path && t in Targets(n, after, oldLinks)))
      || (p == path && t in Targets(n, after, links))
  }

  lemma PatchIsRebuild(
    n: Naming, before: Resolver, after: Resolver, notes: Notes, path: Path, note: Note, b: map<Path, set<Path>>,
    b': map<Path, set<Path>>)
    requires path in notes && BacklinksExact(n, before, notes, b) && NoEmptyBucket(b')
    requires Patched(n, after, path, notes[path].links, note.links, b, b')
    ensures BacklinksExact(n, after, notes[path := note], b') <==> PatchSuffices(n, before, after, notes, path, note.links)
  {
    if PatchSuffices(n, before, after, notes, path, note.links) {
      PatchedIsExact(n, before, after, notes, path, note, b, b');
    }
    if BacklinksExact(n, after, notes[path := note], b') {
      ExactPatchSuffices(n, before, after, notes, path, note, b, b');
    }
  }

  lemma PatchedIsExact(
    n: Naming, before: Resolver, after: Resolver, notes: Notes, path: Path, note: Note, b: map<Path, set<Path>>,
    b': map<Path, set<Path>>)
    requires path in notes && BacklinksExact(n, before, notes, b) && NoEmptyBucket(b')
    requires Patched(n, after, path, notes[path].links, note.links, b, b')
    requires PatchSuffices(n, before, after, notes, path, note.links)
    ensures BacklinksExact(n, after, notes[path := note], b')
  {
    var notes' := notes[path := note];
    hide Targets;
    forall t, p ensures Files(b', t, p) <==> p in notes' && t in Targets(n, after, notes'[p].links) {
      assert Files(b, t, p) <==> p in notes && t in Targets(n, before, notes[p].links);
    }
  }

  lemma ExactPatchSuffices(
    n: Naming, before: Resolver, after: Resolver, notes: Notes, path: Path, note: Note, b: map<Path, set<Path>>,
    b': map<Path, set<Path>>)
    requires path in notes && BacklinksExact(n, before, notes, b)
    requires Patched(n, after, path, notes[path].links, note.links, b, b')
    requires BacklinksExact(n, after, notes[path := note], b')
    ensures PatchSuffices(n, before, after, notes, path, note.links)
  {
    var notes' := notes[path := note];
    hide Targets;
    forall p | p in notes && p != path ensures Targets(n, before, notes[p].links) == Targets(n, after, notes[p].links) {
      forall t ensures t in Targets(n, before, notes[p].links) <==> t in Targets(n, after, notes'[p].links) {
        assert Files(b, t, p) <==> Files(b', t, p);
      }
    }
    forall t | t in Targets(n, before, notes[path].links)
      ensures t in Targets(n, after, notes[path].links) + Targets(n, after, note.links)
    {
      assert Files(b, t, path);
      assert Files(b', t, path) <==> t in Targets(n, after, notes'[path].links);
    }
  }

  /** The guard under which the incremental update needs no further look at the notes. */
  lemma SteadyPatchSuffices(n: Naming, r: Resolver, notes: Notes, path: Path, links: seq<Link>)
    requires ResolverInv(n, r, notes.Keys) && path in notes && Steady(n, r, path)
    ensures PatchSuffices(n, r, InsertPath(n, RemovePath(n, r, path), path), notes, path, links)
  {
    var r' := InsertPath(n, RemovePath(n, r, path), path);
    hide ResolverInv, InsertPath, RemovePath, Steady, Resolve;
    forall target ensures Resolve(n, r', target) == Resolve(n, r, target) {
      TouchedResolution(n, r, notes.Keys, path, target);
    }
    forall p | p in notes ensures Targets(n, r, notes[p].links) == Targets(n, r', notes[p].links) {
      SameTargets(n, r, r', notes[p].links);
    }
  }

  lemma ReindexedLinks(
    n: Naming, r: Resolver, notes: Notes, path: Path, note: Note, b: map<Path, set<Path>>, b': map<Path, set<Path>>)
    requires path in notes && BacklinksExact(n, r, notes, b) && NoEmptyBucket(b')
    requires var r' := InsertPath(n, RemovePath(n, r, path), path);
             Patched(n, r', path, notes[path].links, note.links, b, b')
    ensures var r' := InsertPath(n, RemovePath(n, r, path), path);
            && (BacklinksExact(n, r', notes[path := note], b') <==> PatchSuffices(n, r, r', notes, path, note.links))
            && (ResolverInv(n, r, notes.Keys) && Steady(n, r, path) ==> BacklinksExact(n, r', notes[path := note], b'))
  {
    hide ResolverInv, BacklinksExact, NoEmptyBucket, Patched, PatchSuffices, Steady, InsertPath, RemovePath;
    var r' := InsertPath(n, RemovePath(n, r, path), path);
    PatchIsRebuild(n, r, r', notes, path, note, b, b');
    if ResolverInv(n, r, notes.Keys) && Steady(n, r, path) {
      SteadyPatchSuffices(n, r, notes, path, note.links);
    }
  }

  lemma SameTargets(n: Naming, r1: Resolver, r2: Resolver, links: seq<Link>)
    requires forall target :: Resolve(n, r1, target) == Resolve(n, r2, target)
    ensures Targets(n, r1, links) == Targets(n, r2, links)
  {
    hide Resolve;
  }

  // ----- reachability of exactness -----

  /** With an exact resolver no path is listed wrongly. */
  lemma CoreGivesCoreBut(n: Naming, r: Resolver, notes: Notes, path: Path)
    requires ResolverInv(n, r, notes.Keys)
    ensures ResolverInv(n, RemovePath(n, r, path), notes.Keys - {path})
  {
    RemoveKeepsInv(n, r, notes.Keys, path);
  }

  /**
   * The guard is needed: when the path table speaks for another note under the file's key, a third note with a
   * link to that key makes the patched backlinks differ from the rebuilt ones, whatever the file's own links.
   */
  lemma UnsteadyPatchFails(n: Naming, r: Resolver, notes: Notes, path: Path, links: seq<Link>, third: Path, link: Link)
    requires ResolverInv(n, r, notes.Keys) && path in notes && !Steady(n, r, path)
    requires third in notes && third != path && notes[third].links == [link]
    requires link.target != "" && n.targetKey(link.target) == n.pathKey(path)
    ensures !PatchSuffices(n, r, InsertPath(n, RemovePath(n, r, path), path), notes, path, links)
  {
    var r' := InsertPath(n, RemovePath(n, r, path), path);
    TouchedResolution(n, r, notes.Keys, path, link.target);
    assert notes[third].links[0] == link;
    var before, after := Targets(n, r, notes[third].links), Targets(n, r', notes[third].links);
    assert Resolve(n, r', link.target) == Some(path);
    assert path in after;
    assert path !in before;
  }
}
