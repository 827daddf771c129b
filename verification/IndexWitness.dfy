/**
 * What sequences of index operations lead to: an index in which the incremental backlink update goes wrong, for two
 * notes whose paths differ only in case, and the way back from a rename that failed.
 */
module IndexWitness {
  import opened Common
  import opened LinkResolver
  import opened VaultIndex

  /** Of two notes with one lookup key at least one is not the one that the path table speaks for. */
  lemma ClashIsUnsteady(n: Naming, r: Resolver, p: Path, q: Path)
    requires p != q && n.pathKey(p) == n.pathKey(q) && '/' in n.pathKey(p)
    ensures !Steady(n, r, p) || !Steady(n, r, q)
  {
  }

  /** Two notes of a vault share a lookup key, and the one link of a third note is to that key. */
  ghost predicate Clash(n: Naming, p: Path, q: Path, third: Path, link: Link) {
    && p != q && third != p && third != q
    && '/' in n.pathKey(p) && n.pathKey(q) == n.pathKey(p)
    && link.target != "" && n.targetKey(link.target) == n.pathKey(p)
  }

  /** Re-indexing one of the two, even with unchanged content, leaves backlinks that differ from a rebuild. */
  lemma ClashBreaksPatch(n: Naming, r: Resolver, notes: Notes, p: Path, q: Path, third: Path, link: Link, x: Path)
    requires ResolverInv(n, r, notes.Keys) && p in notes && q in notes && third in notes
    requires Clash(n, p, q, third, link) && notes[third].links == [link]
    requires x == if Steady(n, r, p) then q else p
    ensures forall links :: !PatchSuffices(n, r, InsertPath(n, RemovePath(n, r, x), x), notes, x, links)
  {
    ClashIsUnsteady(n, r, p, q);
    forall links ensures !PatchSuffices(n, r, InsertPath(n, RemovePath(n, r, x), x), notes, x, links) {
      UnsteadyPatchFails(n, r, notes, x, links, third, link);
    }
  }

  /** A walk that meets two notes with one lookup key and a third one that links to it. */
  ghost predicate WalkClashes(
    entries: seq<WalkEntry>, n: Naming, p: Path, q: Path, third: Path, link: Link, notes: seq<Note>)
  {
    && WalkedOnce(entries) && Clash(n, p, q, third, link) && |notes| == 3 && notes[2].links == [link]
    && ParsedNote(p, notes[0]) in entries && ParsedNote(q, notes[1]) in entries
    && ParsedNote(third, notes[2]) in entries
  }

  /** Re-indexes one of two clashing notes of a right index with the very content it has. */
  method ReindexUnchanged(index: Index, p: Path, q: Path, third: Path, link: Link)
    requires index.Valid() && p in index.notes && q in index.notes && third in index.notes
    requires Clash(index.naming, p, q, third, link) && index.notes[third].links == [link]
    modifies index
    ensures index.notes == old(index.notes) && index.Core() && index.StatsRight() && !index.LinksRight()
  {
    hide Clash, TagsExact, ResolverInv, BacklinksExact, PatchSuffices, InsertPath, RemovePath, Steady, StatsOf,
      NoEmptyBucket;
    NoEmptyBacklinks(index.naming, index.resolver, index.notes, index.backlinks);
    var x := if Steady(index.naming, index.resolver, p) then q else p;
    CoreGivesCoreBut(index.naming, index.resolver, index.notes, x);
    ClashBreaksPatch(index.naming, index.resolver, index.notes, p, q, third, link, x);
    var note := index.notes[x];
    var _ := index.ReindexFile(x, Some(note));
    assert index.notes == old(index.notes);
  }

  /**
   * Built from such a walk the index is right in every respect; after re-indexing one of the two notes with the very
   * content it had, its backlinks are not those of a rebuild.
   */
  method PatchGoesWrong(
    entries: seq<WalkEntry>, n: Naming, p: Path, q: Path, third: Path, link: Link, ghost found: seq<Note>)
    returns (index: Index)
    requires WalkClashes(entries, n, p, q, third, link, found)
    ensures index.Core() && index.StatsRight() && !index.LinksRight()
    ensures forall x, note :: x in index.notes && index.notes[x] == note <==> ParsedNote(x, note) in entries
  {
    index := new Index(entries, n);
    hide Clash, VaultIndex.Index.Valid;
    assert p in index.notes && q in index.notes && third in index.notes && index.notes[third] == found[2];
    ReindexUnchanged(index, p, q, third, link);
  }

  lemma NoEmptyBacklinks(n: Naming, r: Resolver, notes: Notes, backlinks: map<Path, set<Path>>)
    requires BacklinksExact(n, r, notes, backlinks)
    ensures NoEmptyBucket(backlinks)
  {
  }

  /**
   * After a rename whose new file did not parse, other files can go on being removed, and re-indexing the new file
   * once it parses makes everything right again.
   */
  method FailedRenameHeals(index: Index, oldPath: Path, newPath: Path, other: Path, note: Note)
    requires index.Valid() && newPath !in index.notes && other != newPath && oldPath != newPath
    modifies index
    ensures index.Valid() && index.notes == (old(index.notes) - {oldPath, other})[newPath := note]
  {
    hide TagsExact, ResolverInv, BacklinksExact, PatchSuffices, InsertPath, RemovePath, Steady, StatsOf, NoEmptyBucket;
    CoreGivesCoreBut(index.naming, index.resolver, index.notes, oldPath);
    var _ := index.RenameFile(oldPath, newPath, None);
    index.RemoveFile(other);
    NoEmptyBacklinks(index.naming, index.resolver, index.notes, index.backlinks);
    var _ := index.ReindexFile(newPath, Some(note));
    assert old(index.notes) - {oldPath} - {other} == old(index.notes) - {oldPath, other};
  }

  // ----- a concrete vault -----

  function Fold(c: char): char {
    if 'A' <= c <= 'Z' then c - 'A' + 'a' else c
  }

  function Folded(s: string): string {
    seq(|s|, i requires 0 <= i < |s| => Fold(s[i]))
  }

  function WithoutMd(s: string): string {
    if |s| >= 3 && s[|s| - 3..] == ".md" then s[..|s| - 3] else s
  }

  function FileName(s: string): string {
    if '/' !in s then s else FileName(s[1..])
  }

  /** Keys as the program builds them, for text without combining marks: lower case, without the note extension. */
  const FOLDING := Naming(
    (p: Path) => WithoutMd(Folded(FileName(p.text))), (p: Path) => WithoutMd(Folded(p.text)),
    (target: string) => WithoutMd(Folded(target)))

  const UPPER := Path("A/x.md")
  const LOWER := Path("a/x.md")
  const THIRD := Path("t.md")
  const LINK := Link("[[a/x]]", "a/x")
  const VAULT: seq<WalkEntry> := [
    ParsedNote(UPPER, Note([], [], 0)), ParsedNote(LOWER, Note([], [], 0)), ParsedNote(THIRD, Note([], [LINK], 0))]

  lemma FoldingClashes()
    ensures FOLDING.pathKey(UPPER) == "a/x" && FOLDING.pathKey(LOWER) == "a/x"
    ensures FOLDING.targetKey(LINK.target) == "a/x"
    ensures UPPER != LOWER && THIRD != UPPER && THIRD != LOWER
  {
    assert Folded("A/x.md") == "a/x.md" == Folded("a/x.md");
    assert "a/x.md"[3..] == ".md" && "a/x.md"[..3] == "a/x";
    assert Folded("a/x") == "a/x";
    assert "A/x.md"[0] == 'A' && "a/x.md"[0] == 'a' && |"t.md"| == 4;
  }

  lemma VaultHolds()
    ensures ParsedNote(UPPER, Note([], [], 0)) in VAULT && ParsedNote(LOWER, Note([], [], 0)) in VAULT
    ensures ParsedNote(THIRD, Note([], [LINK], 0)) in VAULT
  {
    assert VAULT[0] == ParsedNote(UPPER, Note([], [], 0)) && VAULT[1] == ParsedNote(LOWER, Note([], [], 0));
    assert VAULT[2] == ParsedNote(THIRD, Note([], [LINK], 0));
  }

  lemma ThreeWalkedOnce(p: Path, q: Path, third: Path, a: Note, b: Note, c: Note)
    requires p != q && third != p && third != q
    ensures WalkedOnce([ParsedNote(p, a), ParsedNote(q, b), ParsedNote(third, c)])
  {
  }

  lemma VaultWalkedOnce()
    ensures WalkedOnce(VAULT)
  {
    FoldingClashes();
    hide WalkedOnce;
    ThreeWalkedOnce(UPPER, LOWER, THIRD, Note([], [], 0), Note([], [], 0), Note([], [LINK], 0));
  }

  lemma VaultClash()
    ensures Clash(FOLDING, UPPER, LOWER, THIRD, LINK)
  {
    FoldingClashes();
    assert '/' == "a/x"[1];
  }

  /** Such a vault exists: "A/x.md", "a/x.md", and a note that links to "a/x". */
  lemma VaultClashes()
    ensures WalkClashes(
              VAULT, FOLDING, UPPER, LOWER, THIRD, LINK, [Note([], [], 0), Note([], [], 0), Note([], [LINK], 0)])
  {
    VaultHolds();
    VaultWalkedOnce();
    VaultClash();
    hide WalkedOnce, Clash;
  }
}
