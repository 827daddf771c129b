/**
 * The in-memory embedding store and the rows one note contributes to it.
 *
 * A row is keyed by (note, chunk ordinal) or by (note, summary). A vector is opaque: it is known only by the
 * text it embeds and by its dimension, so two rows agree exactly when they embed the same text. The content
 * hash is the hashed text itself, which is what an injective digest amounts to.
 */
module EmbeddingStore {
  import opened Common

  datatype Key = ChunkKey(note: Path, index: nat) | SummaryKey(note: Path)

  datatype Vector = Vector(text: string, dim: nat)

  datatype Entry = Entry(hash: string, vector: Vector)

  type Entries = map<Key, Entry>

  datatype Store = Store(entries: Entries, firstPassComplete: bool)

  /** The passage and heading trail of one chunk, as far as embedding needs them. */
  datatype Piece = Piece(breadcrumb: string, text: string)

  /**
   * Everything a run holds fixed: the chunker under one configuration, the configuration as it is printed
   * into the hashed text, the text builders, the title of each path (its file stem) and both dimensions.
   */
  datatype Params = Params(
    pieces: string -> seq<Piece>,
    configText: string,
    title: Path -> string,
    chunkText: (string, Piece) -> string,
    summaryText: (string, seq<string>, string) -> string,
    docPrefix: string,
    modelDim: nat,
    storeDim: nat)

  function ContentHash(prm: Params, p: Path, body: string): string {
    prm.title(p) + "|" + prm.configText + "|" + body
  }

  /** For one path and one configuration the hash identifies the body. */
  lemma ContentHashInjective(prm: Params, p: Path, body1: string, body2: string)
    requires ContentHash(prm, p, body1) == ContentHash(prm, p, body2)
    ensures body1 == body2
  {
    var pre := prm.title(p) + "|" + prm.configText + "|";
    assert body1 == (pre + body1)[|pre|..];
    assert body2 == (pre + body2)[|pre|..];
  }

  /** Texts to embed for a note: one per chunk in order, then the summary. */
  function PreparedTexts(prm: Params, p: Path, headings: seq<string>, body: string): (texts: seq<string>)
    ensures |texts| == |prm.pieces(body)| + 1
  {
    var pieces := prm.pieces(body);
    seq(|pieces|, i requires 0 <= i < |pieces| => prm.docPrefix + prm.chunkText(prm.title(p), pieces[i]))
    + [prm.docPrefix + prm.summaryText(prm.title(p), headings, body)]
  }

  /** Store keys matching `PreparedTexts`. */
  function RowKeys(p: Path, chunks: nat): (keys: seq<Key>)
    ensures |keys| == chunks + 1
    ensures forall i :: 0 <= i < chunks ==> keys[i] == ChunkKey(p, i)
    ensures keys[chunks] == SummaryKey(p)
  {
    seq(chunks, i requires 0 <= i => ChunkKey(p, i)) + [SummaryKey(p)]
  }

  function EmbedAll(prm: Params, texts: seq<string>): (vectors: seq<Vector>)
    ensures |vectors| == |texts|
    ensures forall i :: 0 <= i < |texts| ==> vectors[i] == Vector(texts[i], prm.modelDim)
  {
    seq(|texts|, i requires 0 <= i < |texts| => Vector(texts[i], prm.modelDim))
  }

  function KeySet(p: Path, chunks: nat): set<Key> {
    (set i | 0 <= i < chunks :: ChunkKey(p, i)) + {SummaryKey(p)}
  }

  /** The rows of a note whose chunks and summary have these vectors. */
  function Rows(p: Path, hash: string, vectors: seq<Vector>): Entries
    requires |vectors| > 0
  {
    map k | k in KeySet(p, |vectors| - 1) ::
      Entry(hash, if k.ChunkKey? && k.index < |vectors| then vectors[k.index] else vectors[|vectors| - 1])
  }

  /**
   * What a recomputation from scratch stores for an indexed note: nothing when the body yields no chunk,
   * otherwise every chunk and the summary under the hash of the body.
   */
  function Fresh(prm: Params, p: Path, headings: seq<string>, body: string): Entries {
    if prm.pieces(body) == [] then map[]
    else Rows(p, ContentHash(prm, p, body), EmbedAll(prm, PreparedTexts(prm, p, headings, body)))
  }

  /**
   * Row by row: chunk `i` holds the vector of the document prefix and its chunk text, the summary that of the prefix
   * and the summary text, all under the hash of title, configuration and body; and there is no other row.
   */
  lemma FreshRowsAre(prm: Params, p: Path, headings: seq<string>, body: string)
    ensures prm.pieces(body) == [] ==> Fresh(prm, p, headings, body) == map[]
    ensures prm.pieces(body) != [] ==>
              var rows := Fresh(prm, p, headings, body);
              var hash := prm.title(p) + "|" + prm.configText + "|" + body;
              && (forall key :: key in rows <==>
                    key == SummaryKey(p) || (key.ChunkKey? && key.note == p && key.index < |prm.pieces(body)|))
              && (forall i: nat :: i < |prm.pieces(body)| ==>
                    ChunkKey(p, i) in rows && rows[ChunkKey(p, i)] ==
                    Entry(hash, Vector(prm.docPrefix + prm.chunkText(prm.title(p), prm.pieces(body)[i]), prm.modelDim)))
              && SummaryKey(p) in rows && rows[SummaryKey(p)] ==
                 Entry(hash, Vector(prm.docPrefix + prm.summaryText(prm.title(p), headings, body), prm.modelDim))
  {
    if prm.pieces(body) != [] {
      var n := |prm.pieces(body)|;
      assert forall key :: key in KeySet(p, n) <==>
                key == SummaryKey(p) || (key.ChunkKey? && key.note == p && key.index < n);
    }
  }

  function EntriesOf(entries: Entries, p: Path): Entries {
    map k | k in entries && k.note == p :: entries[k]
  }

  function RemoveNote(entries: Entries, p: Path): Entries {
    map k | k in entries && k.note != p :: entries[k]
  }

  function RetainPaths(entries: Entries, paths: set<Path>): Entries {
    map k | k in entries && k.note in paths :: entries[k]
  }

  predicate HasNote(entries: Entries, p: Path) {
    ChunkKey(p, 0) in entries || SummaryKey(p) in entries
  }

  /**
   * Inserting rows one by one; a vector of another dimension is refused and stops the loop. The flag tells
   * whether every row went in.
   */
  function InsertAll(entries: Entries, keys: seq<Key>, hash: string, vectors: seq<Vector>, dim: nat)
    : (Entries, bool)
    requires |keys| == |vectors|
    decreases |keys|
  {
    if |keys| == 0 then (entries, true)
    else if vectors[0].dim != dim then (entries, false)
    else InsertAll(entries[keys[0] := Entry(hash, vectors[0])], keys[1..], hash, vectors[1..], dim)
  }

  function MapOf(keys: seq<Key>, hash: string, vectors: seq<Vector>): Entries
    requires |keys| == |vectors|
  {
    if |keys| == 0 then map[]
    else map[keys[0] := Entry(hash, vectors[0])] + MapOf(keys[1..], hash, vectors[1..])
  }

  lemma {:induction false} InsertAllSameDim(entries: Entries, keys: seq<Key>, hash: string, vectors: seq<Vector>,
    dim: nat)
    requires |keys| == |vectors|
    requires forall i :: 0 <= i < |vectors| ==> vectors[i].dim == dim
    ensures InsertAll(entries, keys, hash, vectors, dim) == (entries + MapOf(keys, hash, vectors), true)
    decreases |keys|
  {
    if |keys| == 0 {
      assert entries + MapOf(keys, hash, vectors) == entries;
    } else {
      var next := entries[keys[0] := Entry(hash, vectors[0])];
      InsertAllSameDim(next, keys[1..], hash, vectors[1..], dim);
      assert next + MapOf(keys[1..], hash, vectors[1..]) == entries + MapOf(keys, hash, vectors);
    }
  }

  lemma {:induction false} MapOfLookup(keys: seq<Key>, hash: string, vectors: seq<Vector>)
    requires |keys| == |vectors|
    requires forall i, j :: 0 <= i < j < |keys| ==> keys[i] != keys[j]
    ensures forall k :: k in MapOf(keys, hash, vectors) <==> k in keys
    ensures forall i :: 0 <= i < |keys| ==>
                          keys[i] in MapOf(keys, hash, vectors) && MapOf(keys, hash, vectors)[keys[i]] == Entry(hash, vectors[i])
  {
    if |keys| > 0 {
      var tail := MapOf(keys[1..], hash, vectors[1..]);
      MapOfLookup(keys[1..], hash, vectors[1..]);
      assert keys == [keys[0]] + keys[1..];
      forall i | 0 <= i < |keys|
        ensures keys[i] in MapOf(keys, hash, vectors) && MapOf(keys, hash, vectors)[keys[i]] == Entry(hash, vectors[i])
      {
        if i > 0 {
          assert keys[i] == keys[1..][i - 1] && vectors[i] == vectors[1..][i - 1];
        } else {
          assert keys[0] !in keys[1..];
        }
      }
    }
  }

  lemma RowKeysCover(p: Path, chunks: nat)
    ensures forall k :: k in RowKeys(p, chunks) <==> k in KeySet(p, chunks)
  {
    var keys := RowKeys(p, chunks);
    forall k | k in KeySet(p, chunks) ensures k in keys {
      assert keys[if k.ChunkKey? then k.index else chunks] == k;
    }
  }

  lemma MapOfRows(p: Path, hash: string, vectors: seq<Vector>)
    requires |vectors| > 0
    ensures MapOf(RowKeys(p, |vectors| - 1), hash, vectors) == Rows(p, hash, vectors)
  {
    hide MapOf;
    var n := |vectors| - 1;
    var keys := RowKeys(p, n);
    MapOfLookup(keys, hash, vectors);
    RowKeysCover(p, n);
    forall k | k in KeySet(p, n)
      ensures MapOf(keys, hash, vectors)[k] == Rows(p, hash, vectors)[k]
    {
      assert keys[if k.ChunkKey? then k.index else n] == k;
    }
    assert forall k :: k in MapOf(keys, hash, vectors) <==> k in Rows(p, hash, vectors);
  }

  /**
   * Rewriting one note under vectors of one dimension is all or nothing: with the store's dimension the
   * note's rows become exactly the new ones; with any other dimension the first insertion already fails, so
   * no partial set of chunks is ever left behind, only the removal.
   */
  lemma RewriteNote(entries: Entries, p: Path, hash: string, vectors: seq<Vector>, dim: nat, storeDim: nat)
    requires |vectors| > 0
    requires forall i :: 0 <= i < |vectors| ==> vectors[i].dim == dim
    ensures InsertAll(RemoveNote(entries, p), RowKeys(p, |vectors| - 1), hash, vectors, storeDim) ==
            if dim == storeDim then (RemoveNote(entries, p) + Rows(p, hash, vectors), true)
            else (RemoveNote(entries, p), false)
  {
    if dim == storeDim {
      InsertAllSameDim(RemoveNote(entries, p), RowKeys(p, |vectors| - 1), hash, vectors, dim);
      MapOfRows(p, hash, vectors);
    }
  }

  lemma RowsOwnership(entries: Entries, p: Path, hash: string, vectors: seq<Vector>)
    requires |vectors| > 0
    ensures EntriesOf(RemoveNote(entries, p) + Rows(p, hash, vectors), p) == Rows(p, hash, vectors)
    ensures forall q :: q != p ==>
                          EntriesOf(RemoveNote(entries, p) + Rows(p, hash, vectors), q) == EntriesOf(entries, q)
  {
  }

  lemma RemoveNoteOwnership(entries: Entries, p: Path)
    ensures EntriesOf(RemoveNote(entries, p), p) == map[]
    ensures forall q :: q != p ==> EntriesOf(RemoveNote(entries, p), q) == EntriesOf(entries, q)
    ensures RemoveNote(entries, p) == entries <==> EntriesOf(entries, p) == map[]
  {
    if EntriesOf(entries, p) == map[] {
      forall k | k in entries ensures k in RemoveNote(entries, p) {
        assert k !in EntriesOf(entries, p);
      }
      assert RemoveNote(entries, p) == entries;
    } else {
      var k :| k in EntriesOf(entries, p);
      assert k in entries && k !in RemoveNote(entries, p);
    }
  }

  lemma RetainPathsOwnership(entries: Entries, paths: set<Path>)
    ensures forall q :: EntriesOf(RetainPaths(entries, paths), q) == if q in paths then EntriesOf(entries, q) else map[]
  {
  }

  /** Chunk 0 of a fresh note carries the hash of its body. */
  lemma FreshProbe(prm: Params, p: Path, headings: seq<string>, body: string)
    requires prm.pieces(body) != []
    ensures ChunkKey(p, 0) in Fresh(prm, p, headings, body)
    ensures Fresh(prm, p, headings, body)[ChunkKey(p, 0)].hash == ContentHash(prm, p, body)
    ensures Fresh(prm, p, headings, body) != map[]
  {
    assert ChunkKey(p, 0) in KeySet(p, |prm.pieces(body)|);
  }

  /**
   * When does re-embedding an unchanged body matter? Two computations that differ only in the headings give
   * the same rows exactly when the summary text is the same; chunk rows never depend on the headings.
   */
  lemma FreshDependsOnSummary(prm: Params, p: Path, h1: seq<string>, h2: seq<string>, body: string)
    requires prm.pieces(body) != []
    ensures Fresh(prm, p, h1, body) == Fresh(prm, p, h2, body) <==>
            prm.summaryText(prm.title(p), h1, body) == prm.summaryText(prm.title(p), h2, body)
  {
    var n := |prm.pieces(body)|;
    var f1, f2 := Fresh(prm, p, h1, body), Fresh(prm, p, h2, body);
    var s1, s2 := prm.summaryText(prm.title(p), h1, body), prm.summaryText(prm.title(p), h2, body);
    assert SummaryKey(p) in KeySet(p, n);
    assert f1[SummaryKey(p)].vector.text == prm.docPrefix + s1;
    assert f2[SummaryKey(p)].vector.text == prm.docPrefix + s2;
    if f1 == f2 {
      assert s1 == (prm.docPrefix + s1)[|prm.docPrefix|..];
      assert s2 == (prm.docPrefix + s2)[|prm.docPrefix|..];
    }
  }
}
