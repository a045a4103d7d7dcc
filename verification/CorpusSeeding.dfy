/** Seeding the evaluation corpus under V1 and V2 index versions that share their documents, and
    the validator that must accept what a seeder produced. */
module CorpusSeeding {
  import opened Prelude

  /** What an embedding client says it is. */
  datatype Identity = Identity(provider: string, model: string, dimensions: nat)

  /** Ids are digests, and digests are injective, so an id is the tuple it was computed from. */
  datatype VersionId = V1Version(document: string) | V2Version(document: string, identity: Identity)
  datatype ChunkId = V1Chunk(document: string, index: nat) | V2Chunk(version: VersionId, index: nat)
  datatype BuildKey = LegacyKey | V2Key(document: string, identity: Identity)

  datatype Status = Building | Ready | Active | Retired | Failed
  datatype Version = Version(document: string, buildKey: BuildKey, status: Status, schema: string, chunker: string,
                             identity: Identity)
  datatype Chunk = Chunk(document: string, version: VersionId)
  type Versions = map<VersionId, Version>

  /** The rows of the evaluation documents. */
  datatype Database = Database(documents: set<string>, versions: Versions, chunks: map<ChunkId, Chunk>)

  /** One index of the whole corpus: V1, or V2, built with an embedding identity. */
  datatype Cohort = Cohort(v2: bool, identity: Identity)

  const V1_SCHEMA := "legacy-v1"
  const V1_CHUNKER := "legacy-split-text-v1"
  const V2_SCHEMA := "v2"
  const V2_CHUNKER := "evaluation-corpus-v1:chunking-v2"

  function IdOf(c: Cohort, document: string): VersionId {
    if c.v2 then V2Version(document, c.identity) else V1Version(document)
  }

  function KeyOf(c: Cohort, document: string): BuildKey {
    if c.v2 then V2Key(document, c.identity) else LegacyKey
  }

  function RowOf(c: Cohort, document: string, status: Status): Version {
    Version(document, KeyOf(c, document), status, if c.v2 then V2_SCHEMA else V1_SCHEMA,
            if c.v2 then V2_CHUNKER else V1_CHUNKER, c.identity)
  }

  function CohortOf(row: Version): Cohort {
    Cohort(row.schema == V2_SCHEMA, row.identity)
  }

  /** The manifest, with the number of chunks either chunker makes of each document. */
  datatype Corpus = Corpus(documents: seq<string>, v1Chunks: string -> nat, v2Chunks: string -> nat) {
    /** Documents are listed once, and the V1 splitter never returns an empty list. */
    ghost predicate Valid() {
      && (forall i, j | 0 <= i < j < |documents| :: documents[i] != documents[j])
      && (forall d :: v1Chunks(d) >= 1)
    }
  }

  function Documents(corpus: Corpus): set<string> {
    set d | d in corpus.documents
  }

  /** The chunk ids expected for one document. */
  function ChunkIds(corpus: Corpus, c: Cohort, document: string): set<ChunkId> {
    if c.v2 then set n | 0 <= n < corpus.v2Chunks(document) :: V2Chunk(IdOf(c, document), n)
    else set n | 0 <= n < corpus.v1Chunks(document) :: V1Chunk(document, n)
  }

  /** The document and the version a chunk id belongs to. */
  function DocumentOf(x: ChunkId): string {
    if x.V1Chunk? then x.document else x.version.document
  }

  function VersionOf(x: ChunkId): VersionId {
    if x.V1Chunk? then V1Version(x.document) else x.version
  }

  function Expected(corpus: Corpus, c: Cohort): set<ChunkId> {
    set d, x | d in Documents(corpus) && x in ChunkIds(corpus, c, d) :: x
  }

  lemma ExpectedIs(corpus: Corpus, c: Cohort, x: ChunkId)
    ensures x in Expected(corpus, c) <==> DocumentOf(x) in corpus.documents && x in ChunkIds(corpus, c, DocumentOf(x))
    ensures x in Expected(corpus, c) ==> VersionOf(x) == IdOf(c, DocumentOf(x))
  {
  }

  // ---------------------------------------------------------------- constraints of the tables

  /** The unique partial index: one active version per document. */
  ghost predicate OneActive(versions: Versions) {
    forall v, w | v in versions && w in versions && versions[v].status == Active && versions[w].status == Active
                  && versions[v].document == versions[w].document :: v == w
  }

  /** Unique key (document_id, build_key, embedding_provider). */
  ghost predicate UniqueBuild(versions: Versions) {
    forall v, w | v in versions && w in versions && versions[v].document == versions[w].document
                  && versions[v].buildKey == versions[w].buildKey
                  && versions[v].identity.provider == versions[w].identity.provider :: v == w
  }

  /** What the database checks whenever a session flushes. */
  ghost predicate Constraints(db: Database) {
    && OneActive(db.versions)
    && UniqueBuild(db.versions)
    && (forall v | v in db.versions :: db.versions[v].document in db.documents)
    && (forall x | x in db.chunks :: db.chunks[x].version in db.versions
                                     && db.versions[db.chunks[x].version].document == db.chunks[x].document)
  }

  /** Every version row is the row of some cohort under that cohort's id. */
  ghost predicate RowsOk(versions: Versions) {
    forall v | v in versions ::
      && v == IdOf(CohortOf(versions[v]), versions[v].document)
      && versions[v] == RowOf(CohortOf(versions[v]), versions[v].document, versions[v].status)
  }

  lemma RowsAreUnique(versions: Versions)
    requires RowsOk(versions)
    ensures UniqueBuild(versions)
  {
    forall v, w | v in versions && w in versions && versions[v].document == versions[w].document
                  && versions[v].buildKey == versions[w].buildKey
      ensures v == w
    {
      assert CohortOf(versions[v]).v2 == CohortOf(versions[w]).v2;
    }
  }

  // ---------------------------------------------------------------- what seeding does

  function Retire(versions: Versions, document: string): Versions {
    map v | v in versions ::
      if versions[v].document == document && versions[v].status == Active then versions[v].(status := Retired)
      else versions[v]
  }

  function RetiredIf(row: Version, documents: set<string>): Version {
    if row.document in documents && row.status == Active then row.(status := Retired) else row
  }

  /** Row `v` once the cohort's versions of `documents` are active and every other version of them is retired. */
  function SwitchedAt(versions: Versions, c: Cohort, documents: set<string>, v: VersionId): Option<Version> {
    if v.document in documents && v == IdOf(c, v.document) then Some(RowOf(c, v.document, Active))
    else if v in versions then Some(RetiredIf(versions[v], documents))
    else None
  }

  function Switched(versions: Versions, c: Cohort, documents: set<string>): Versions {
    map v | v in versions.Keys + (set d | d in documents :: IdOf(c, d))
      && SwitchedAt(versions, c, documents, v).Some? ::
      SwitchedAt(versions, c, documents, v).value
  }

  lemma SwitchedRow(versions: Versions, c: Cohort, documents: set<string>, v: VersionId)
    ensures v in Switched(versions, c, documents) <==> SwitchedAt(versions, c, documents, v).Some?
    ensures v in Switched(versions, c, documents) ==>
      Switched(versions, c, documents)[v] == SwitchedAt(versions, c, documents, v).value
  {
  }

  /** At every point of a switch the version table keeps its shape and its unique index. */
  lemma SwitchedIsSound(versions: Versions, c: Cohort, documents: set<string>)
    requires RowsOk(versions) && OneActive(versions)
    ensures RowsOk(Switched(versions, c, documents)) && OneActive(Switched(versions, c, documents))
  {
    hide Switched;
    var s := Switched(versions, c, documents);
    forall v | v in s
      ensures v == IdOf(CohortOf(s[v]), s[v].document) && s[v] == RowOf(CohortOf(s[v]), s[v].document, s[v].status)
      ensures s[v].status == Active && s[v].document in documents ==> v == IdOf(c, s[v].document)
      ensures s[v].document !in documents ==> v in versions && s[v] == versions[v]
    {
      SwitchedRow(versions, c, documents, v);
    }
  }

  lemma SwitchOneRow(versions: Versions, c: Cohort, documents: set<string>, d: string, v: VersionId)
    requires RowsOk(versions) && d !in documents
    ensures var l := Switched(versions, c, documents + {d});
      var r := Retire(Switched(versions, c, documents), d)[IdOf(c, d) := RowOf(c, d, Active)];
      (v in l <==> v in r) && (v in l ==> l[v] == r[v])
  {
    SwitchedRow(versions, c, documents, v);
    SwitchedRow(versions, c, documents + {d}, v);
    assert v in versions ==> v.document == versions[v].document;
    hide Switched, RowsOk;
  }

  /** One more document: retire what is active there, then put the cohort's version in. */
  lemma SwitchOne(versions: Versions, c: Cohort, documents: set<string>, d: string)
    requires RowsOk(versions) && d !in documents
    ensures Switched(versions, c, documents + {d}) ==
      Retire(Switched(versions, c, documents), d)[IdOf(c, d) := RowOf(c, d, Active)]
  {
    hide Switched, Retire, RowsOk, IdOf, RowOf;
    var l := Switched(versions, c, documents + {d});
    var r := Retire(Switched(versions, c, documents), d)[IdOf(c, d) := RowOf(c, d, Active)];
    forall v ensures (v in l <==> v in r) && (v in l ==> l[v] == r[v]) {
      SwitchOneRow(versions, c, documents, d, v);
    }
  }

  /** Activating a version that is active already changes nothing. */
  lemma SwitchIdle(versions: Versions, c: Cohort, d: string)
    requires RowsOk(versions) && OneActive(versions)
    requires IdOf(c, d) in versions && versions[IdOf(c, d)] == RowOf(c, d, Active)
    ensures Retire(versions, d)[IdOf(c, d) := RowOf(c, d, Active)] == versions
  {
    forall v | v in versions && v != IdOf(c, d) && versions[v].document == d ensures versions[v].status != Active {
      assert versions[IdOf(c, d)].document == d;
    }
  }

  // ---------------------------------------------------------------- reachable states

  ghost predicate VersionsOk(corpus: Corpus, versions: Versions, present: set<Cohort>) {
    && (forall v | v in versions :: versions[v].document in corpus.documents && CohortOf(versions[v]) in present
                                    && versions[v].status in {Active, Retired})
    && (forall c, d | c in present && d in corpus.documents ::
          IdOf(c, d) in versions && CohortOf(versions[IdOf(c, d)]) == c)
  }

  ghost predicate ChunksOk(corpus: Corpus, chunks: map<ChunkId, Chunk>, present: set<Cohort>) {
    && (forall x | x in chunks ::
          chunks[x] == Chunk(DocumentOf(x), VersionOf(x)) && exists c | c in present :: x in Expected(corpus, c))
    && (forall c, x | c in present && x in Expected(corpus, c) :: x in chunks)
  }

  /** What every sequence of seedings keeps: the tables hold exactly the rows of the cohorts in `present`. */
  ghost predicate Seeded(corpus: Corpus, db: Database, present: set<Cohort>) {
    && db.documents in {{}, Documents(corpus)}
    && (present != {} ==> db.documents == Documents(corpus))
    && (forall c, c' | c in present && c' in present && !c.v2 && !c'.v2 :: c == c')
    && RowsOk(db.versions) && OneActive(db.versions)
    && VersionsOk(corpus, db.versions, present)
    && ChunksOk(corpus, db.chunks, present)
  }

  /** The cohort is stored, built with the same embedding identity. */
  predicate Stored(corpus: Corpus, versions: Versions, c: Cohort) {
    forall d | d in corpus.documents :: IdOf(c, d) in versions && versions[IdOf(c, d)].identity == c.identity
  }

  function RowsFor(ids: set<ChunkId>): map<ChunkId, Chunk> {
    map x | x in ids :: Chunk(DocumentOf(x), VersionOf(x))
  }

  function ChunkRows(corpus: Corpus, c: Cohort): map<ChunkId, Chunk> {
    RowsFor(Expected(corpus, c))
  }

  /** The tables after a successful seeding of `c`. */
  function Installed(corpus: Corpus, db: Database, c: Cohort): Database {
    Database(Documents(corpus), Switched(db.versions, c, Documents(corpus)), db.chunks + ChunkRows(corpus, c))
  }

  /** What the validator demands of one document: its one active version is the cohort's, and the
      chunks stored under it are exactly the expected ones. */
  ghost predicate AcceptsDocument(corpus: Corpus, db: Database, c: Cohort, d: string) {
    && IdOf(c, d) in db.versions && db.versions[IdOf(c, d)] == RowOf(c, d, Active)
    && (forall v | v in db.versions && db.versions[v].document == d && db.versions[v].status == Active ::
         v == IdOf(c, d))
    && (forall x :: x in db.chunks && db.chunks[x].version == IdOf(c, d) <==> x in ChunkIds(corpus, c, d))
  }

  ghost predicate Accepts(corpus: Corpus, db: Database, c: Cohort) {
    forall d | d in corpus.documents :: AcceptsDocument(corpus, db, c, d)
  }

  /** An absent cohort whose V1 ids are not in use either can be added. */
  ghost predicate Addable(present: set<Cohort>, c: Cohort) {
    !c.v2 ==> forall c' | c' in present :: c'.v2 || c' == c
  }

  lemma InstalledVersions(corpus: Corpus, versions: Versions, c: Cohort, present: set<Cohort>)
    requires RowsOk(versions) && VersionsOk(corpus, versions, present) && Addable(present, c)
    ensures VersionsOk(corpus, Switched(versions, c, Documents(corpus)), present + {c})
  {
    hide Switched;
    var s := Switched(versions, c, Documents(corpus));
    forall v | v in s
      ensures s[v].document in corpus.documents && CohortOf(s[v]) in present + {c} && s[v].status in {Active, Retired}
    {
      SwitchedRow(versions, c, Documents(corpus), v);
    }
    forall c', d | c' in present + {c} && d in corpus.documents
      ensures IdOf(c', d) in s && CohortOf(s[IdOf(c', d)]) == c'
    {
      SwitchedRow(versions, c, Documents(corpus), IdOf(c', d));
    }
  }

  lemma InstalledChunks(corpus: Corpus, chunks: map<ChunkId, Chunk>, c: Cohort, present: set<Cohort>)
    requires ChunksOk(corpus, chunks, present)
    ensures ChunksOk(corpus, chunks + ChunkRows(corpus, c), present + {c})
  {
    hide Expected;
    var chunks' := chunks + ChunkRows(corpus, c);
    forall x | x in chunks' ensures exists c' | c' in present + {c} :: x in Expected(corpus, c') {
      if x in Expected(corpus, c) {
        assert c in present + {c};
      } else {
        var c' :| c' in present && x in Expected(corpus, c');
        assert c' in present + {c};
      }
    }
  }

  /** A successful seeding keeps the shape of the tables. */
  lemma InstalledIsSeeded(corpus: Corpus, db: Database, c: Cohort, present: set<Cohort>)
    requires Seeded(corpus, db, present) && Addable(present, c)
    ensures Seeded(corpus, Installed(corpus, db, c), present + {c})
  {
    InstalledVersions(corpus, db.versions, c, present);
    InstalledChunks(corpus, db.chunks, c, present);
    SwitchedIsSound(db.versions, c, Documents(corpus));
    hide Switched, ChunkRows, VersionsOk, ChunksOk, RowsOk, OneActive;
  }

  /** The chunks stored under the cohort's version of a document. */
  lemma ChunksUnder(corpus: Corpus, db: Database, c: Cohort, present: set<Cohort>, d: string, x: ChunkId)
    requires Seeded(corpus, db, present) && c in present && d in corpus.documents
    ensures x in db.chunks && db.chunks[x].version == IdOf(c, d) <==> x in ChunkIds(corpus, c, d)
  {
    ExpectedIs(corpus, c, x);
    hide RowsOk, OneActive, VersionsOk, Expected;
    if x in db.chunks && db.chunks[x].version == IdOf(c, d) {
      var c' :| c' in present && x in Expected(corpus, c');
      ExpectedIs(corpus, c', x);
      assert IdOf(c', DocumentOf(x)) == IdOf(c, d);
      assert c' == c;
    }
  }

  lemma DocumentIsAccepted(corpus: Corpus, db: Database, c: Cohort, present: set<Cohort>, d: string)
    requires Seeded(corpus, db, present) && c in present && d in corpus.documents
    requires IdOf(c, d) in db.versions && db.versions[IdOf(c, d)] == RowOf(c, d, Active)
    ensures AcceptsDocument(corpus, db, c, d)
  {
    SeededOneActive(corpus, db, present);
    assert RowOf(c, d, Active).document == d && RowOf(c, d, Active).status == Active;
    hide RowOf, RowsOk, ChunkIds, Seeded;
    forall x ensures x in db.chunks && db.chunks[x].version == IdOf(c, d) <==> x in ChunkIds(corpus, c, d) {
      ChunksUnder(corpus, db, c, present, d, x);
    }
  }

  /** The validator accepts what a seeder produced, for the identity it was seeded with. */
  lemma InstalledIsAccepted(corpus: Corpus, db: Database, c: Cohort, present: set<Cohort>)
    requires Seeded(corpus, db, present) && Addable(present, c)
    ensures Accepts(corpus, Installed(corpus, db, c), c)
  {
    InstalledIsSeeded(corpus, db, c, present);
    hide Seeded, Installed, AcceptsDocument;
    forall d | d in corpus.documents ensures AcceptsDocument(corpus, Installed(corpus, db, c), c, d) {
      InstalledRow(corpus, db, c, d);
      DocumentIsAccepted(corpus, Installed(corpus, db, c), c, present + {c}, d);
    }
  }

  lemma SeededOneActive(corpus: Corpus, db: Database, present: set<Cohort>)
    requires Seeded(corpus, db, present)
    ensures OneActive(db.versions)
  {
  }

  lemma InstalledRow(corpus: Corpus, db: Database, c: Cohort, d: string)
    requires d in corpus.documents
    ensures IdOf(c, d) in Installed(corpus, db, c).versions
    ensures Installed(corpus, db, c).versions[IdOf(c, d)] == RowOf(c, d, Active)
  {
    SwitchedRow(db.versions, c, Documents(corpus), IdOf(c, d));
  }

  /** Seeding again changes nothing. */
  lemma ReseedingIsIdle(corpus: Corpus, db: Database, c: Cohort)
    requires RowsOk(db.versions)
    ensures Installed(corpus, Installed(corpus, db, c), c) == Installed(corpus, db, c)
  {
    hide Switched;
    var ds := Documents(corpus);
    var once := Switched(db.versions, c, ds);
    var twice := Switched(once, c, ds);
    forall v ensures (v in once <==> v in twice) && (v in once ==> once[v] == twice[v]) {
      SwitchedRow(db.versions, c, ds, v);
      SwitchedRow(once, c, ds, v);
    }
    assert once == twice;
  }

  /** Seeding V2 beside V1 leaves the V1 versions but for their status, and the V1 chunks, as they are. */
  lemma V2KeepsV1(corpus: Corpus, db: Database, c: Cohort, v: VersionId, x: ChunkId)
    requires c.v2 && RowsOk(db.versions)
    requires v.V1Version? && v in db.versions && x.V1Chunk?
    ensures var db' := Installed(corpus, db, c);
      && v in db'.versions && db'.versions[v].(status := db.versions[v].status) == db.versions[v]
      && (x in db'.chunks <==> x in db.chunks) && (x in db.chunks ==> db'.chunks[x] == db.chunks[x])
  {
    SwitchedRow(db.versions, c, Documents(corpus), v);
    ExpectedIs(corpus, c, x);
  }

  // ---------------------------------------------------------------- the seeders

  const EMPTY := Database({}, map[], map[])

  /** The tables a seeding starts from. */
  function Base(db: Database, reset: bool): Database {
    if reset then EMPTY else db
  }

  predicate AllEmbed(corpus: Corpus, c: Cohort, embeds: ChunkId -> bool) {
    forall x | x in Expected(corpus, c) :: embeds(x)
  }

  /** Exactly when a seeding succeeds: the cohort is stored with this identity, or nothing is in
      its way and every chunk can be embedded. V1 needs the documents themselves to be absent. */
  predicate Succeeds(corpus: Corpus, db: Database, c: Cohort, embeds: ChunkId -> bool) {
    || corpus.documents == []
    || Stored(corpus, db.versions, c)
    || (AllEmbed(corpus, c, embeds) && if c.v2 then Expected(corpus, c) != {} else db.documents == {})
  }

  /** A successful seeding that finds the cohort in place only activates it. */
  predicate Reuses(corpus: Corpus, db: Database, c: Cohort) {
    corpus.documents == [] || Stored(corpus, db.versions, c)
  }

  /** `_compatible_legacy_version` and `_compatible_v2_version` */
  predicate Compatible(row: Version, c: Cohort) {
    if c.v2 then
      row.buildKey == KeyOf(c, row.document) && row.schema == V2_SCHEMA && row.chunker == V2_CHUNKER
      && row.identity.provider == c.identity.provider
    else
      row.buildKey == LegacyKey && row.schema == V1_SCHEMA && row.chunker == V1_CHUNKER && row.identity == c.identity
  }

  function StoredChunks(corpus: Corpus, db: Database, c: Cohort): set<ChunkId> {
    set x | x in Expected(corpus, c) && x in db.chunks
  }

  function Ids(corpus: Corpus, c: Cohort): set<VersionId> {
    set d | d in corpus.documents :: IdOf(c, d)
  }

  function StoredVersions(corpus: Corpus, db: Database, c: Cohort): set<VersionId> {
    set v | v in Ids(corpus, c) && v in db.versions
  }

  lemma StoredRow(corpus: Corpus, versions: Versions, c: Cohort, present: set<Cohort>, d: string)
    requires RowsOk(versions) && VersionsOk(corpus, versions, present)
    requires IdOf(c, d) in versions && versions[IdOf(c, d)].identity == c.identity
    ensures c in present
  {
    assert CohortOf(versions[IdOf(c, d)]) == c;
  }

  lemma StoredMeansPresent(corpus: Corpus, db: Database, c: Cohort, present: set<Cohort>)
    requires Seeded(corpus, db, present) && corpus.documents != []
    ensures Stored(corpus, db.versions, c) <==> c in present
  {
    hide ChunksOk, OneActive, KeyOf, RowsOk, RowOf, Documents;
    if Stored(corpus, db.versions, c) {
      StoredRow(corpus, db.versions, c, present, corpus.documents[0]);
    }
  }

  /** Stored chunks name the version their id belongs to. */
  lemma ChunksNameTheirVersion(corpus: Corpus, db: Database, c: Cohort, present: set<Cohort>, x: ChunkId)
    requires Seeded(corpus, db, present) && x in StoredChunks(corpus, db, c)
    ensures db.chunks[x].version == IdOf(c, db.chunks[x].document)
  {
    ExpectedIs(corpus, c, x);
  }

  /** V1 ids do not tell embedding identities apart. */
  predicate SameIds(c: Cohort, c': Cohort) {
    c.v2 == c'.v2 && (c.v2 ==> c == c')
  }

  /** What the checks find when the cohort is stored. */
  lemma FoundStored(corpus: Corpus, db: Database, c: Cohort, present: set<Cohort>)
    requires Seeded(corpus, db, present) && c in present
    ensures StoredChunks(corpus, db, c) == Expected(corpus, c)
    ensures StoredVersions(corpus, db, c) == Ids(corpus, c)
    ensures forall v | v in StoredVersions(corpus, db, c) :: Compatible(db.versions[v], c)
  {
    hide Expected;
    forall v | v in Ids(corpus, c) ensures v in db.versions && Compatible(db.versions[v], c) {
      var d :| d in corpus.documents && v == IdOf(c, d);
    }
  }

  lemma ChunkOwner(corpus: Corpus, db: Database, c: Cohort, present: set<Cohort>, x: ChunkId)
    requires Seeded(corpus, db, present)
    ensures x in Expected(corpus, c) && x in db.chunks ==> c in present || !Addable(present, c)
  {
    hide VersionsOk, OneActive, RowsOk, Expected;
    if x in Expected(corpus, c) && x in db.chunks {
      var c' :| c' in present && x in Expected(corpus, c');
      ExpectedIs(corpus, c, x);
      ExpectedIs(corpus, c', x);
      assert SameIds(c, c');
    }
  }

  lemma VersionOwner(corpus: Corpus, db: Database, c: Cohort, present: set<Cohort>, v: VersionId)
    requires Seeded(corpus, db, present)
    ensures v in Ids(corpus, c) && v in db.versions ==> c in present || !Addable(present, c)
  {
    hide ChunksOk, OneActive;
    if v in Ids(corpus, c) && v in db.versions {
      assert CohortOf(db.versions[v]) in present && SameIds(c, CohortOf(db.versions[v]));
    }
  }

  /** What they find when neither the cohort nor another one of the same ids is stored. */
  lemma FoundNothing(corpus: Corpus, db: Database, c: Cohort, present: set<Cohort>)
    requires Seeded(corpus, db, present) && c !in present && Addable(present, c)
    ensures StoredChunks(corpus, db, c) == {} && StoredVersions(corpus, db, c) == {}
  {
    forall x ensures x in Expected(corpus, c) && x in db.chunks ==> c in present || !Addable(present, c) {
      ChunkOwner(corpus, db, c, present, x);
    }
    forall v ensures v in Ids(corpus, c) && v in db.versions ==> c in present || !Addable(present, c) {
      VersionOwner(corpus, db, c, present, v);
    }
    hide Seeded, Expected, Ids, Addable;
  }

  /** What they find when V1 was built with another identity. */
  lemma FoundIncompatible(corpus: Corpus, db: Database, c: Cohort, present: set<Cohort>)
    requires Seeded(corpus, db, present) && !Addable(present, c) && corpus.documents != []
    ensures exists v | v in StoredVersions(corpus, db, c) :: !Compatible(db.versions[v], c)
  {
    hide ChunksOk, OneActive;
    var c' :| c' in present && !c'.v2 && c' != c;
    var d := corpus.documents[0];
    assert IdOf(c, d) == IdOf(c', d) && IdOf(c, d) in Ids(corpus, c);
    assert IdOf(c', d) in db.versions && CohortOf(db.versions[IdOf(c', d)]) == c';
    assert IdOf(c, d) in StoredVersions(corpus, db, c);
  }

  lemma ExpectedNonEmpty(corpus: Corpus, c: Cohort)
    requires corpus.Valid() && corpus.documents != [] && !c.v2
    ensures Expected(corpus, c) != {}
  {
    var d := corpus.documents[0];
    assert V1Chunk(d, 0) in ChunkIds(corpus, c, d);
    assert V1Chunk(d, 0) in Expected(corpus, c);
  }

  lemma SeededMeets(corpus: Corpus, db: Database, present: set<Cohort>)
    requires Seeded(corpus, db, present)
    ensures Constraints(db)
  {
    RowsAreUnique(db.versions);
    forall x | x in db.chunks
      ensures db.chunks[x].version in db.versions && db.versions[db.chunks[x].version].document == db.chunks[x].document
    {
      var c :| c in present && x in Expected(corpus, c);
      ExpectedIs(corpus, c, x);
    }
  }

  lemma SwitchedReferences(corpus: Corpus, versions: Versions, c: Cohort, documents: set<string>)
    requires RowsOk(versions) && documents <= Documents(corpus)
    requires forall v | v in versions :: versions[v].document in corpus.documents
    ensures var s := Switched(versions, c, documents);
      && (forall v | v in s :: s[v].document in Documents(corpus))
      && (forall v | v in versions :: v in s && s[v].document == versions[v].document)
  {
    hide Switched;
    var s := Switched(versions, c, documents);
    forall v | v in s ensures s[v].document in Documents(corpus) {
      SwitchedRow(versions, c, documents, v);
    }
    forall v | v in versions ensures v in s && s[v].document == versions[v].document {
      SwitchedRow(versions, c, documents, v);
    }
  }

  /** The tables meet their constraints at every flush of a switch. */
  lemma SwitchedMeets(corpus: Corpus, db: Database, c: Cohort, documents: set<string>, present: set<Cohort>)
    requires Seeded(corpus, db, present) && documents <= Documents(corpus)
    ensures Constraints(Database(Documents(corpus), Switched(db.versions, c, documents), db.chunks))
  {
    SeededMeets(corpus, db, present);
    hide ChunksOk, OneActive, RowsOk, Switched, Documents, UniqueBuild;
    SwitchedIsSound(db.versions, c, documents);
    SwitchedReferences(corpus, db.versions, c, documents);
    RowsAreUnique(Switched(db.versions, c, documents));
  }

  lemma RetireMeets(db: Database, d: string)
    requires Constraints(db)
    ensures Constraints(db.(versions := Retire(db.versions, d)))
  {
  }

  /** A session over the evaluation tables: `db` is what it sees, `committed` what survives it. */
  class SeedSession {
    const corpus: Corpus
    var db: Database
    var committed: Database

    constructor (corpus: Corpus, db: Database)
      ensures this.corpus == corpus && this.db == db && committed == db
    {
      this.corpus, this.db, committed := corpus, db, db;
    }

    /** Flushing checks the constraints. */
    method Flush()
      requires Constraints(db)
    {
    }

    method Commit()
      requires Constraints(db)
      modifies this`committed
      ensures committed == db
    {
      committed := db;
    }

    /** `delete` of the chunks and documents; the versions go with their documents. */
    method Reset(ghost present: set<Cohort>)
      requires Seeded(corpus, db, present)
      modifies this`db
      ensures db == EMPTY
    {
      var ids := Documents(corpus);
      var chunks := map x | x in db.chunks && db.chunks[x].document !in ids :: db.chunks[x];
      var versions := map v | v in db.versions && db.versions[v].document !in ids :: db.versions[v];
      ResetIsEmpty(corpus, db, present);
      db := Database(db.documents - ids, versions, chunks);
      Flush();
    }

    /** `_activate_versions` over the stored versions of the cohort, in any order. */
    method ActivateVersions(c: Cohort, ghost present: set<Cohort>) returns (ok: bool)
      requires Seeded(corpus, db, present) && c in present
      modifies this`db
      ensures ok && db == old(db).(versions := Switched(old(db).versions, c, Documents(corpus)))
    {
      ghost var start := db;
      ghost var done: set<string> := {};
      var left := Documents(corpus);
      SwitchNone(db.versions, c);
      hide Switched, Seeded, Constraints, Retire;
      SeededDocuments(corpus, db, present, c);
      while left != {}
        invariant done + left == Documents(corpus) && done !! left
        invariant db == start.(versions := Switched(start.versions, c, done))
        decreases left
      {
        var d :| d in left;
        left := left - {d};
        SwitchProgress(corpus, start, c, done, d, present);
        done := done + {d};
        var row := db.versions[IdOf(c, d)];
        if row.status != Active {
          if row.status !in {Ready, Retired} {
            return false;
          }
          db := db.(versions := Retire(db.versions, d));
          Flush();
          db := db.(versions := db.versions[IdOf(c, d) := row.(status := Active)]);
          Flush();
        }
      }
      ok := true;
    }

    method InsertDocuments()
      modifies this`db
      ensures db == old(db).(documents := old(db).documents + Documents(corpus))
    {
      for i := 0 to |corpus.documents|
        invariant db == old(db).(documents := old(db).documents + set d | d in corpus.documents[..i])
      {
        assert corpus.documents[..i + 1] == corpus.documents[..i] + [corpus.documents[i]];
        db := db.(documents := db.documents + {corpus.documents[i]});
      }
      assert corpus.documents[..|corpus.documents|] == corpus.documents;
    }

    /** Embed and add the chunks document by document; stop at the first one that cannot be embedded. */
    method InsertChunks(c: Cohort, embeds: ChunkId -> bool) returns (ok: bool)
      modifies this`db
      ensures ok <==> AllEmbed(corpus, c, embeds)
      ensures ok ==> db == old(db).(chunks := old(db).chunks + ChunkRows(corpus, c))
    {
      ghost var start := db;
      ghost var done: set<ChunkId> := {};
      for i := 0 to |corpus.documents|
        invariant db == start.(chunks := start.chunks + RowsFor(done))
        invariant forall x :: x in done <==> x in Expected(corpus, c) && DocumentOf(x) in corpus.documents[..i]
        invariant forall x | x in done :: embeds(x)
      {
        var d := corpus.documents[i];
        assert corpus.documents[..i + 1] == corpus.documents[..i] + [d];
        forall x ensures x in ChunkIds(corpus, c, d) <==> x in Expected(corpus, c) && DocumentOf(x) == d {
          ExpectedIs(corpus, c, x);
        }
        ok := InsertDocumentChunks(c, d, embeds, start, done);
        if !ok {
          return;
        }
        done := done + ChunkIds(corpus, c, d);
      }
      assert corpus.documents[..|corpus.documents|] == corpus.documents;
      forall x ensures x in done <==> x in Expected(corpus, c) {
        ExpectedIs(corpus, c, x);
      }
      assert done == Expected(corpus, c);
      ok := true;
    }

    method InsertDocumentChunks(c: Cohort, d: string, embeds: ChunkId -> bool, ghost start: Database,
                                ghost done: set<ChunkId>)
      returns (ok: bool)
      requires db == start.(chunks := start.chunks + RowsFor(done))
      modifies this`db
      ensures ok <==> forall x | x in ChunkIds(corpus, c, d) :: embeds(x)
      ensures ok ==> db == start.(chunks := start.chunks + RowsFor(done + ChunkIds(corpus, c, d)))
    {
      var left := ChunkIds(corpus, c, d);
      while left != {}
        invariant left <= ChunkIds(corpus, c, d)
        invariant forall x | x in ChunkIds(corpus, c, d) - left :: embeds(x)
        invariant db == start.(chunks := start.chunks + RowsFor(done + (ChunkIds(corpus, c, d) - left)))
        decreases left
      {
        var x :| x in left;
        if !embeds(x) {
          return false;
        }
        assert VersionOf(x) == IdOf(c, d) && DocumentOf(x) == d;
        RowsForOne(start.chunks, done + (ChunkIds(corpus, c, d) - left), x);
        assert done + (ChunkIds(corpus, c, d) - (left - {x})) == done + (ChunkIds(corpus, c, d) - left) + {x};
        left := left - {x};
        db := db.(chunks := db.chunks[x := Chunk(d, IdOf(c, d))]);
      }
      assert done + (ChunkIds(corpus, c, d) - left) == done + ChunkIds(corpus, c, d);
      ok := true;
    }

    /** The reuse path of both seeders. */
    method Reactivate(c: Cohort, ghost present: set<Cohort>) returns (ok: bool)
      requires corpus.Valid() && Seeded(corpus, db, present) && (corpus.documents == [] || c in present)
      modifies this
      ensures ok && db == Installed(corpus, old(db), c) && committed == db
    {
      ghost var there := if corpus.documents == [] then {c} else present;
      if corpus.documents == [] {
        EmptyCorpus(corpus, db, c, present);
      }
      ReactivatedIsInstalled(corpus, db, c, there);
      InstalledIsSeeded(corpus, db, c, there);
      SeededMeets(corpus, Installed(corpus, db, c), there + {c});
      hide Installed, Switched, Seeded, Constraints, Corpus.Valid;
      ok := ActivateVersions(c, there);
      Commit();
    }

    /** The creating path of V1: documents, versions and chunks, flushed in this order. */
    method Create(c: Cohort, embeds: ChunkId -> bool, ghost present: set<Cohort>) returns (ok: bool)
      requires corpus.Valid() && Seeded(corpus, db, present) && corpus.documents != [] && db.documents == {}
      modifies this
      ensures ok <==> AllEmbed(corpus, c, embeds)
      ensures ok ==> db == Installed(corpus, old(db), c) && committed == db
      ensures !ok ==> committed == old(committed)
    {
      NothingThere(corpus, db, c, present);
      hide Seeded, Installed, Switched, Constraints, Corpus.Valid, AllEmbed, ChunkRows, Documents;
      InsertDocuments();
      Flush();
      InsertVersions(c);
      Flush();
      ok := InsertChunks(c, embeds);
      if ok {
        Commit();
      }
    }

    method InsertVersions(c: Cohort)
      requires db.versions == map[]
      modifies this`db
      ensures db == old(db).(versions := Switched(map[], c, Documents(corpus)))
    {
      ghost var start := db;
      SwitchNone(map[], c);
      assert Listed(corpus.documents[..0]) == {};
      for i := 0 to |corpus.documents|
        invariant db == start.(versions := Switched(map[], c, Listed(corpus.documents[..i])))
      {
        var d := corpus.documents[i];
        assert Listed(corpus.documents[..i + 1]) == Listed(corpus.documents[..i]) + {d};
        SwitchFresh(c, Listed(corpus.documents[..i]), d);
        db := db.(versions := db.versions[IdOf(c, d) := RowOf(c, d, Active)]);
      }
      assert corpus.documents[..|corpus.documents|] == corpus.documents;
      assert Listed(corpus.documents) == Documents(corpus);
    }

    /** `seed_evaluation_corpus`. Whatever happens, a failure leaves the committed tables alone. */
    method SeedV1(identity: Identity, reset: bool, embeds: ChunkId -> bool, ghost present: set<Cohort>)
      returns (ok: bool, reused: bool)
      requires corpus.Valid() && Seeded(corpus, db, present)
      modifies this
      ensures ok <==> Succeeds(corpus, Base(old(db), reset), Cohort(false, identity), embeds)
      ensures reused <==> ok && Reuses(corpus, Base(old(db), reset), Cohort(false, identity))
      ensures reused <==>
        || corpus.documents == []
        || (!reset && forall d | d in corpus.documents ::
             V1Version(d) in old(db).versions && old(db).versions[V1Version(d)].identity == identity)
      ensures ok ==> db == Installed(corpus, Base(old(db), reset), Cohort(false, identity)) && committed == db
      ensures !ok ==> committed == old(committed)
      ensures ok <==>
        || corpus.documents == []
        || (!reset && forall d | d in corpus.documents ::
              V1Version(d) in old(db).versions && old(db).versions[V1Version(d)].identity == identity)
        || (&& (forall d, n: nat | d in corpus.documents && n < corpus.v1Chunks(d) :: embeds(V1Chunk(d, n)))
            && (reset || old(db).documents == {}))
      ensures ok ==> forall d, n: nat | d in corpus.documents ::
        V1Chunk(d, n) in db.chunks <==> n < corpus.v1Chunks(d)
      ensures ok ==> forall d, n: nat | d in corpus.documents && n < corpus.v1Chunks(d) ::
        db.chunks[V1Chunk(d, n)] == Chunk(d, V1Version(d))
      ensures ok ==> forall d | d in corpus.documents ::
        && V1Version(d) in db.versions
        && db.versions[V1Version(d)] == Version(d, LegacyKey, Active, V1_SCHEMA, V1_CHUNKER, identity)
      ensures ok ==>
        forall v | v in db.versions && db.versions[v].status == Active :: v == V1Version(db.versions[v].document)
      ensures ok && !reset ==> forall v | v in old(db).versions && v != V1Version(old(db).versions[v].document) ::
        v in db.versions && db.versions[v] == old(db).versions[v].(status := Retired)
      ensures ok && !reset ==> forall x | x in old(db).chunks :: x in db.chunks && db.chunks[x] == old(db).chunks[x]
      ensures ok ==> db.documents == set d | d in corpus.documents
      ensures ok ==> forall v | v in db.versions ::
        v == V1Version(db.versions[v].document) || (!reset && v in old(db).versions)
      ensures ok ==> forall x | x in db.chunks ::
        || (!reset && x in old(db).chunks)
        || (x.V1Chunk? && x.document in corpus.documents)
    {
      ghost var start := Base(db, reset);
      ghost var now := if reset then {} else present;
      if reset {
        Reset(present);
        EmptyIsSeeded(corpus);
      }
      ok, reused := CheckAndSeedV1(Cohort(false, identity), embeds, now);
      assert corpus.documents != [] ==> corpus.documents[0] in corpus.documents;
      V1Succeeds(corpus, start, identity, embeds);
      if ok {
        V1Shows(corpus, start, identity, embeds, now);
      }
    }

    method CheckAndSeedV1(c: Cohort, embeds: ChunkId -> bool, ghost present: set<Cohort>)
      returns (ok: bool, reused: bool)
      requires corpus.Valid() && Seeded(corpus, db, present) && !c.v2
      modifies this
      ensures ok <==> Succeeds(corpus, old(db), c, embeds)
      ensures reused <==> ok && Reuses(corpus, old(db), c)
      ensures ok ==> db == Installed(corpus, old(db), c) && committed == db
      ensures !ok ==> committed == old(committed)
    {
      hide Seeded, Expected, Stored, Addable, Ids, ChunkIds, Compatible, StoredChunks, StoredVersions, Mismatch,
        Incompatible, Documents, Corpus.Valid, AllEmbed, Succeeds, Reuses, Installed;
      DecideV1(corpus, db, c, embeds, present);
      var existing := db.documents * Documents(corpus);
      var expected, current := Expected(corpus, c), StoredChunks(corpus, db, c);
      var versions := StoredVersions(corpus, db, c);
      if current != {} && current != expected {
        return false, false;
      }
      if Mismatch(db, current, c) {
        return false, false;
      }
      if versions != {} && (versions != Ids(corpus, c) || Incompatible(db, versions, c)) {
        return false, false;
      }
      if |existing| == |corpus.documents| && current == expected {
        if versions != Ids(corpus, c) {
          return false, false;
        }
        ok := Reactivate(c, present);
        return ok, true;
      }
      if existing != {} {
        return false, false;
      }
      ok := Create(c, embeds, present);
      return ok, false;
    }

    /** `seed_evaluation_corpus_v2` */
    method SeedV2(identity: Identity, reset: bool, embeds: ChunkId -> bool, ghost present: set<Cohort>)
      returns (ok: bool, reused: bool)
      requires corpus.Valid() && Seeded(corpus, db, present)
      modifies this
      ensures ok <==> Succeeds(corpus, Base(old(db), reset), Cohort(true, identity), embeds)
      ensures reused <==> ok && Reuses(corpus, Base(old(db), reset), Cohort(true, identity))
      ensures reused <==>
        || corpus.documents == []
        || (!reset && forall d | d in corpus.documents :: V2Version(d, identity) in old(db).versions)
      ensures ok ==> db == Installed(corpus, Base(old(db), reset), Cohort(true, identity)) && committed == db
      ensures !ok ==> committed == old(committed)
      ensures ok <==>
        || corpus.documents == []
        || (!reset && forall d | d in corpus.documents :: V2Version(d, identity) in old(db).versions)
        || (&& (forall d, n: nat | d in corpus.documents && n < corpus.v2Chunks(d) ::
                  embeds(V2Chunk(V2Version(d, identity), n)))
            && exists d :: d in corpus.documents && corpus.v2Chunks(d) > 0)
      ensures ok ==> forall d, n: nat | d in corpus.documents ::
        V2Chunk(V2Version(d, identity), n) in db.chunks <==> n < corpus.v2Chunks(d)
      ensures ok ==> forall d, n: nat | d in corpus.documents && n < corpus.v2Chunks(d) ::
        db.chunks[V2Chunk(V2Version(d, identity), n)] == Chunk(d, V2Version(d, identity))
      ensures ok ==> forall d | d in corpus.documents ::
        && V2Version(d, identity) in db.versions
        && db.versions[V2Version(d, identity)]
           == Version(d, V2Key(d, identity), Active, V2_SCHEMA, V2_CHUNKER, identity)
      ensures ok ==>
        forall v | v in db.versions && db.versions[v].status == Active ::
          v == V2Version(db.versions[v].document, identity)
      ensures ok && !reset ==>
        forall v | v in old(db).versions && v != V2Version(old(db).versions[v].document, identity) ::
        v in db.versions && db.versions[v] == old(db).versions[v].(status := Retired)
      ensures ok && !reset ==> forall x | x in old(db).chunks :: x in db.chunks && db.chunks[x] == old(db).chunks[x]
      ensures ok ==> db.documents == set d | d in corpus.documents
      ensures ok ==> forall v | v in db.versions ::
        v == V2Version(db.versions[v].document, identity) || (!reset && v in old(db).versions)
      ensures ok ==> forall x | x in db.chunks ::
        || (!reset && x in old(db).chunks)
        || (x.V2Chunk? && x.version.document in corpus.documents
            && x.version == V2Version(x.version.document, identity))
    {
      ghost var start := Base(db, reset);
      ghost var now := if reset then {} else present;
      if reset {
        Reset(present);
        EmptyIsSeeded(corpus);
      }
      ok, reused := CheckAndSeedV2(Cohort(true, identity), embeds, now);
      assert corpus.documents != [] ==> corpus.documents[0] in corpus.documents;
      V2Succeeds(corpus, start, identity, embeds, now);
      if ok {
        V2Shows(corpus, start, identity, embeds, now);
      }
    }

    method CheckAndSeedV2(c: Cohort, embeds: ChunkId -> bool, ghost present: set<Cohort>)
      returns (ok: bool, reused: bool)
      requires corpus.Valid() && Seeded(corpus, db, present) && c.v2
      modifies this
      ensures ok <==> Succeeds(corpus, old(db), c, embeds)
      ensures reused <==> ok && Reuses(corpus, old(db), c)
      ensures ok ==> db == Installed(corpus, old(db), c) && committed == db
      ensures !ok ==> committed == old(committed)
    {
      hide Seeded, Expected, Stored, Addable, Ids, ChunkIds, Compatible, StoredChunks, StoredVersions, Mismatch,
        Incompatible, Documents, Corpus.Valid, AllEmbed, Succeeds, Reuses, Installed;
      DecideV2(corpus, db, c, embeds, present);
      var existing := db.documents * Documents(corpus);
      var expected, current := Expected(corpus, c), StoredChunks(corpus, db, c);
      var versions := StoredVersions(corpus, db, c);
      if existing != {} && |existing| != |corpus.documents| {
        return false, false;
      }
      if current != {} && current != expected {
        return false, false;
      }
      if Mismatch(db, current, c) {
        return false, false;
      }
      if versions != {} && (versions != Ids(corpus, c) || Incompatible(db, versions, c)) {
        return false, false;
      }
      if current == expected {
        if versions != Ids(corpus, c) {
          return false, false;
        }
        ok := Reactivate(c, present);
        return ok, true;
      }
      if versions != {} {
        return false, false;
      }
      ok := Extend(c, existing == {}, embeds, present);
      return ok, false;
    }

    /** The creating path of V2: documents if there are none, then one version after the other in
        place of the active one, then the chunks. */
    method Extend(c: Cohort, create: bool, embeds: ChunkId -> bool, ghost present: set<Cohort>) returns (ok: bool)
      requires corpus.Valid() && Seeded(corpus, db, present) && c.v2
      requires create || db.documents == Documents(corpus)
      modifies this
      ensures ok <==> AllEmbed(corpus, c, embeds)
      ensures ok ==> db == Installed(corpus, old(db), c) && committed == db
      ensures !ok ==> committed == old(committed)
    {
      WithDocuments(corpus, db, c, present);
      hide Seeded, Installed, Switched, Constraints, Corpus.Valid, AllEmbed, ChunkRows, Documents;
      ghost var start := db.(documents := Documents(corpus));
      if create {
        InsertDocuments();
        Flush();
      }
      SwitchCohort(c, start, present);
      ok := InsertChunks(c, embeds);
      if ok {
        Commit();
      }
    }

    method SwitchCohort(c: Cohort, ghost start: Database, ghost present: set<Cohort>)
      requires corpus.Valid() && Seeded(corpus, start, present) && start.documents == Documents(corpus) && db == start
      modifies this`db
      ensures db == start.(versions := Switched(start.versions, c, Documents(corpus)))
    {
      SwitchNone(start.versions, c);
      assert Listed(corpus.documents[..0]) == {};
      for i := 0 to |corpus.documents|
        invariant db == start.(versions := Switched(start.versions, c, Listed(corpus.documents[..i])))
      {
        hide Switched, Retire, Constraints, Seeded, RowOf;
        var d := corpus.documents[i];
        SwitchFlushes(corpus, start, c, i, present);
        RetireActiveVersion(d);
        db := db.(versions := db.versions[IdOf(c, d) := RowOf(c, d, Active)]);
        Flush();
      }
      assert corpus.documents[..|corpus.documents|] == corpus.documents;
      assert Listed(corpus.documents) == Documents(corpus);
    }

    /** `retire_active_version` */
    method RetireActiveVersion(d: string)
      requires Constraints(db.(versions := Retire(db.versions, d)))
      modifies this`db
      ensures db == old(db).(versions := Retire(old(db).versions, d))
    {
      db := db.(versions := Retire(db.versions, d));
      Flush();
    }

    /** `validate_evaluation_index_schema`: accepts if and only if every document's active version and
        its chunks are the expected ones. */
    method Validate(c: Cohort) returns (ok: bool)
      requires OneActive(db.versions)
      ensures ok <==> Accepts(corpus, db, c)
      ensures c.v2 ==> (ok <==> forall d | d in corpus.documents ::
        && V2Version(d, c.identity) in db.versions
        && db.versions[V2Version(d, c.identity)]
           == Version(d, V2Key(d, c.identity), Active, V2_SCHEMA, V2_CHUNKER, c.identity)
        && (forall v | v in db.versions && db.versions[v].document == d && db.versions[v].status == Active ::
              v == V2Version(d, c.identity))
        && (forall n: nat | n < corpus.v2Chunks(d) ::
              && V2Chunk(V2Version(d, c.identity), n) in db.chunks
              && db.chunks[V2Chunk(V2Version(d, c.identity), n)].version == V2Version(d, c.identity))
        && (forall x | x in db.chunks && db.chunks[x].version == V2Version(d, c.identity) ::
              x.V2Chunk? && x.version == V2Version(d, c.identity) && x.index < corpus.v2Chunks(d)))
      ensures !c.v2 ==> (ok <==> forall d | d in corpus.documents ::
        && V1Version(d) in db.versions
        && db.versions[V1Version(d)] == Version(d, LegacyKey, Active, V1_SCHEMA, V1_CHUNKER, c.identity)
        && (forall v | v in db.versions && db.versions[v].document == d && db.versions[v].status == Active ::
              v == V1Version(d))
        && (forall n: nat | n < corpus.v1Chunks(d) ::
             V1Chunk(d, n) in db.chunks && db.chunks[V1Chunk(d, n)].version == V1Version(d))
        && (forall x | x in db.chunks && db.chunks[x].version == V1Version(d) ::
              x.V1Chunk? && x.document == d && x.index < corpus.v1Chunks(d)))
    {
      hide AcceptsDocument, OneActive;
      AcceptsV2(corpus, db, c);
      AcceptsV1(corpus, db, c);
      ok := CheckDocuments(c);
    }

    /** Counts the documents with reasons against them. */
    method CheckDocuments(c: Cohort) returns (ok: bool)
      requires OneActive(db.versions)
      ensures ok <==> Accepts(corpus, db, c)
    {
      hide AcceptsDocument, OneActive;
      var reasons := 0;
      for i := 0 to |corpus.documents|
        invariant reasons == 0 <==> forall k | 0 <= k < i :: AcceptsDocument(corpus, db, c, corpus.documents[k])
        invariant reasons >= 0
      {
        var fine := ValidateDocument(c, corpus.documents[i]);
        if !fine {
          reasons := reasons + 1;
        }
      }
      ok := reasons == 0;
    }

    /** The reasons the validator collects for one document. */
    method ValidateDocument(c: Cohort, d: string) returns (ok: bool)
      requires OneActive(db.versions)
      ensures ok <==> AcceptsDocument(corpus, db, c, d)
    {
      var active := set v | v in db.versions && db.versions[v].document == d && db.versions[v].status == Active;
      if active == {} {
        assert IdOf(c, d) !in active;
        return false;
      }
      var v :| v in active;
      var row := db.versions[v];
      var chunks := set x | x in db.chunks && db.chunks[x].version == v;
      ok := v == IdOf(c, d) && row.buildKey == KeyOf(c, d) && row.schema == (if c.v2 then V2_SCHEMA else V1_SCHEMA)
        && row.chunker == (if c.v2 then V2_CHUNKER else V1_CHUNKER) && row.identity.provider == c.identity.provider
        && row.identity.model == c.identity.model && row.identity.dimensions == c.identity.dimensions
        && chunks == ChunkIds(corpus, c, d);
      hide ChunkIds, KeyOf;
      if ok {
        assert row == RowOf(c, d, Active);
      }
      if AcceptsDocument(corpus, db, c, d) {
        assert v == IdOf(c, d);
      }
    }
  }

  /** Some stored chunk references another version than the expected one. */
  predicate Mismatch(db: Database, current: set<ChunkId>, c: Cohort) {
    exists x | x in current && x in db.chunks :: db.chunks[x].version != IdOf(c, db.chunks[x].document)
  }

  predicate Incompatible(db: Database, versions: set<VersionId>, c: Cohort) {
    exists v | v in versions && v in db.versions :: !Compatible(db.versions[v], c)
  }

  function Listed(documents: seq<string>): set<string> {
    set d | d in documents
  }

  lemma {:induction false} DocumentsCount(corpus: Corpus, n: nat)
    requires corpus.Valid() && n <= |corpus.documents|
    ensures |Listed(corpus.documents[..n])| == n
    ensures n == |corpus.documents| ==> |Documents(corpus)| == n
  {
    if n > 0 {
      DocumentsCount(corpus, n - 1);
      var last := corpus.documents[n - 1];
      assert corpus.documents[..n] == corpus.documents[..n - 1] + [last];
      assert Listed(corpus.documents[..n]) == Listed(corpus.documents[..n - 1]) + {last};
      assert last !in corpus.documents[..n - 1];
    }
    if n == |corpus.documents| {
      assert corpus.documents[..n] == corpus.documents;
      assert Documents(corpus) == Listed(corpus.documents);
    }
  }

  lemma EmptyCorpus(corpus: Corpus, db: Database, c: Cohort, present: set<Cohort>)
    requires Seeded(corpus, db, present) && corpus.documents == []
    ensures db == EMPTY && Documents(corpus) == {} && Expected(corpus, c) == {} && Ids(corpus, c) == {}
    ensures Seeded(corpus, db, {c})
  {
    assert forall x | x in db.chunks :: DocumentOf(x) in corpus.documents;
  }

  /** What the checks of either seeder find, in each of the cases that can arise. */
  lemma Diagnose(corpus: Corpus, db: Database, c: Cohort, present: set<Cohort>)
    requires Seeded(corpus, db, present)
    ensures db.documents in {{}, Documents(corpus)}
    ensures !Mismatch(db, StoredChunks(corpus, db, c), c)
    ensures corpus.documents == [] ==>
      && StoredChunks(corpus, db, c) == Expected(corpus, c) == {}
      && StoredVersions(corpus, db, c) == Ids(corpus, c) == {}
    ensures corpus.documents != [] && Stored(corpus, db.versions, c) ==>
      && c in present && db.documents == Documents(corpus)
      && StoredChunks(corpus, db, c) == Expected(corpus, c) && StoredVersions(corpus, db, c) == Ids(corpus, c)
      && !Incompatible(db, StoredVersions(corpus, db, c), c)
    ensures corpus.documents != [] && !Stored(corpus, db.versions, c) ==>
      if Addable(present, c) then StoredChunks(corpus, db, c) == {} && StoredVersions(corpus, db, c) == {}
      else
        && db.documents == Documents(corpus) && StoredVersions(corpus, db, c) != {}
        && Incompatible(db, StoredVersions(corpus, db, c), c)
  {
    forall x | x in StoredChunks(corpus, db, c) ensures db.chunks[x].version == IdOf(c, db.chunks[x].document) {
      ChunksNameTheirVersion(corpus, db, c, present, x);
    }
    if corpus.documents == [] {
      EmptyCorpus(corpus, db, c, present);
    } else {
      StoredMeansPresent(corpus, db, c, present);
      if c in present {
        FoundStored(corpus, db, c, present);
      } else if Addable(present, c) {
        FoundNothing(corpus, db, c, present);
      } else {
        FoundIncompatible(corpus, db, c, present);
      }
    }
  }

  /** What the findings mean for the V1 seeder's decisions. */
  ghost predicate DecisionsV1(corpus: Corpus, db: Database, c: Cohort, embeds: ChunkId -> bool, present: set<Cohort>) {
    var expected, current := Expected(corpus, c), StoredChunks(corpus, db, c);
    var versions, existing := StoredVersions(corpus, db, c), db.documents * Documents(corpus);
    var rejected := versions != {} && (versions != Ids(corpus, c) || Incompatible(db, versions, c));
    var complete := |existing| == |corpus.documents| && current == expected;
    && ((current != {} && current != expected) || Mismatch(db, current, c) ==> !Succeeds(corpus, db, c, embeds))
    && (rejected ==> !Succeeds(corpus, db, c, embeds))
    && (!rejected && complete ==> versions == Ids(corpus, c) && Reuses(corpus, db, c) && Succeeds(corpus, db, c, embeds)
                                  && (corpus.documents == [] || c in present))
    && (!rejected && !complete ==> !Reuses(corpus, db, c) && corpus.documents != []
                                   && (existing != {} ==> !Succeeds(corpus, db, c, embeds))
                                   && (existing == {} ==>
                                         db.documents == {}
                                         && (Succeeds(corpus, db, c, embeds) <==> AllEmbed(corpus, c, embeds))))
  }

  lemma DecideStoredV1(corpus: Corpus, db: Database, c: Cohort, embeds: ChunkId -> bool, present: set<Cohort>)
    requires corpus.Valid() && Seeded(corpus, db, present) && !c.v2
    requires corpus.documents == [] || Stored(corpus, db.versions, c)
    ensures DecisionsV1(corpus, db, c, embeds, present)
  {
    hide Seeded, Expected, Stored, Addable, Ids, ChunkIds, Compatible, StoredChunks, StoredVersions, Mismatch,
      Incompatible, Documents, Corpus.Valid, AllEmbed;
    Diagnose(corpus, db, c, present);
    DocumentsCount(corpus, |corpus.documents|);
    if corpus.documents == [] {
      EmptyCorpus(corpus, db, c, present);
    }
    assert db.documents * Documents(corpus) == Documents(corpus);
  }

  lemma DecideAbsentV1(corpus: Corpus, db: Database, c: Cohort, embeds: ChunkId -> bool, present: set<Cohort>)
    requires corpus.Valid() && Seeded(corpus, db, present) && !c.v2
    requires corpus.documents != [] && !Stored(corpus, db.versions, c)
    ensures DecisionsV1(corpus, db, c, embeds, present)
  {
    hide Seeded, Expected, Stored, Addable, Ids, ChunkIds, Compatible, StoredChunks, StoredVersions, Mismatch,
      Incompatible, Documents, Corpus.Valid, AllEmbed;
    Diagnose(corpus, db, c, present);
    DocumentsCount(corpus, |corpus.documents|);
    ExpectedNonEmpty(corpus, c);
    assert Documents(corpus) * Documents(corpus) == Documents(corpus) && {} * Documents(corpus) == {};
    assert Documents(corpus) != {};
  }

  lemma DecideV1(corpus: Corpus, db: Database, c: Cohort, embeds: ChunkId -> bool, present: set<Cohort>)
    requires corpus.Valid() && Seeded(corpus, db, present) && !c.v2
    ensures DecisionsV1(corpus, db, c, embeds, present)
  {
    hide DecisionsV1, Seeded, Stored, Corpus.Valid;
    if corpus.documents == [] || Stored(corpus, db.versions, c) {
      DecideStoredV1(corpus, db, c, embeds, present);
    } else {
      DecideAbsentV1(corpus, db, c, embeds, present);
    }
  }

  /** Without the documents there is nothing else either, and each step of the creation is sound. */
  lemma NothingThere(corpus: Corpus, db: Database, c: Cohort, present: set<Cohort>)
    requires Seeded(corpus, db, present) && corpus.documents != [] && db.documents == {}
    ensures db == EMPTY && db.documents + Documents(corpus) == Documents(corpus)
    ensures Constraints(db.(documents := Documents(corpus)))
    ensures Constraints(Database(Documents(corpus), Switched(map[], c, Documents(corpus)), map[]))
    ensures Constraints(Installed(corpus, db, c))
    ensures Installed(corpus, db, c) ==
      Database(Documents(corpus), Switched(map[], c, Documents(corpus)), map[] + ChunkRows(corpus, c))
  {
    assert corpus.documents[0] in Documents(corpus);
    assert present == {};
    assert db == EMPTY;
    EmptyIsSeeded(corpus);
    SwitchedMeets(corpus, EMPTY, c, Documents(corpus), {});
    InstalledIsSeeded(corpus, EMPTY, c, {});
    SeededMeets(corpus, Installed(corpus, EMPTY, c), {c});
  }

  lemma SwitchFresh(c: Cohort, documents: set<string>, d: string)
    ensures Switched(map[], c, documents)[IdOf(c, d) := RowOf(c, d, Active)] == Switched(map[], c, documents + {d})
  {
  }

  /** The findings and the V2 seeder's decisions. */
  ghost predicate DecisionsV2(corpus: Corpus, db: Database, c: Cohort, embeds: ChunkId -> bool, present: set<Cohort>) {
    var expected, current := Expected(corpus, c), StoredChunks(corpus, db, c);
    var versions, existing := StoredVersions(corpus, db, c), db.documents * Documents(corpus);
    && (existing == {} || |existing| == |corpus.documents|)
    && !(current != {} && current != expected) && !Mismatch(db, current, c)
    && !(versions != {} && (versions != Ids(corpus, c) || Incompatible(db, versions, c)))
    && (existing != {} ==> db.documents == Documents(corpus))
    && (if current == expected then
          if versions != Ids(corpus, c) then !Succeeds(corpus, db, c, embeds)
          else Reuses(corpus, db, c) && Succeeds(corpus, db, c, embeds) && (corpus.documents == [] || c in present)
        else
          && versions == {} && !Reuses(corpus, db, c)
          && (Succeeds(corpus, db, c, embeds) <==> AllEmbed(corpus, c, embeds)))
  }

  lemma IdsNonEmpty(corpus: Corpus, c: Cohort)
    requires corpus.documents != []
    ensures Ids(corpus, c) != {}
  {
    assert IdOf(c, corpus.documents[0]) in Ids(corpus, c);
  }

  lemma DecideV2(corpus: Corpus, db: Database, c: Cohort, embeds: ChunkId -> bool, present: set<Cohort>)
    requires corpus.Valid() && Seeded(corpus, db, present) && c.v2
    ensures DecisionsV2(corpus, db, c, embeds, present)
  {
    assert Addable(present, c);
    hide Seeded, Expected, Stored, Addable, Ids, ChunkIds, Compatible, StoredChunks, StoredVersions, Mismatch,
         Documents, Corpus.Valid, AllEmbed;
    Diagnose(corpus, db, c, present);
    DocumentsCount(corpus, |corpus.documents|);
    assert Documents(corpus) * Documents(corpus) == Documents(corpus) && {} * Documents(corpus) == {};
    if corpus.documents == [] {
      EmptyCorpus(corpus, db, c, present);
    } else {
      IdsNonEmpty(corpus, c);
    }
  }

  /** With its documents inserted the base of an extension is still sound, and so is the result. */
  lemma WithDocuments(corpus: Corpus, db: Database, c: Cohort, present: set<Cohort>)
    requires Seeded(corpus, db, present) && c.v2
    ensures Seeded(corpus, db.(documents := Documents(corpus)), present)
    ensures db.documents + Documents(corpus) == Documents(corpus)
    ensures Constraints(db.(documents := Documents(corpus))) && Constraints(Installed(corpus, db, c))
    ensures Installed(corpus, db, c)
         == Database(Documents(corpus), Switched(db.versions, c, Documents(corpus)), db.chunks + ChunkRows(corpus, c))
  {
    SeededMeets(corpus, db.(documents := Documents(corpus)), present);
    InstalledIsSeeded(corpus, db, c, present);
    SeededMeets(corpus, Installed(corpus, db, c), present + {c});
  }

  /** The two flushes of one turn of the V2 loop. */
  lemma SwitchFlushes(corpus: Corpus, db: Database, c: Cohort, i: nat, present: set<Cohort>)
    requires corpus.Valid() && Seeded(corpus, db, present) && db.documents == Documents(corpus)
      && i < |corpus.documents|
    ensures var d, done := corpus.documents[i], Listed(corpus.documents[..i]);
      var s := Switched(db.versions, c, done);
      && Constraints(db.(versions := Retire(s, d)))
      && Switched(db.versions, c, Listed(corpus.documents[..i + 1])) == Retire(s, d)[IdOf(c, d) := RowOf(c, d, Active)]
      && Constraints(db.(versions := Switched(db.versions, c, Listed(corpus.documents[..i + 1]))))
  {
    var d, done := corpus.documents[i], Listed(corpus.documents[..i]);
    assert d !in done;
    assert Listed(corpus.documents[..i + 1]) == done + {d} by {
      assert corpus.documents[..i + 1] == corpus.documents[..i] + [d];
    }
    hide Switched, Constraints, OneActive, ChunksOk;
    SwitchOne(db.versions, c, done, d);
    SwitchedMeets(corpus, db, c, done, present);
    SwitchedMeets(corpus, db, c, done + {d}, present);
    RetireMeets(db.(versions := Switched(db.versions, c, done)), d);
  }

  lemma ReactivatedIsInstalled(corpus: Corpus, db: Database, c: Cohort, present: set<Cohort>)
    requires Seeded(corpus, db, present) && c in present
    ensures db.(versions := Switched(db.versions, c, Documents(corpus))) == Installed(corpus, db, c)
    ensures Addable(present, c)
  {
    assert db.chunks + ChunkRows(corpus, c) == db.chunks;
  }

  lemma RowsForOne(chunks: map<ChunkId, Chunk>, done: set<ChunkId>, x: ChunkId)
    ensures (chunks + RowsFor(done))[x := Chunk(DocumentOf(x), VersionOf(x))] == chunks + RowsFor(done + {x})
  {
  }

  lemma EmptyIsSeeded(corpus: Corpus)
    ensures Seeded(corpus, EMPTY, {})
  {
  }

  lemma ResetIsEmpty(corpus: Corpus, db: Database, present: set<Cohort>)
    requires Seeded(corpus, db, present)
    ensures db.documents - Documents(corpus) == {}
    ensures forall x | x in db.chunks :: db.chunks[x].document in Documents(corpus)
    ensures forall v | v in db.versions :: db.versions[v].document in Documents(corpus)
    ensures Constraints(EMPTY)
  {
    SeededMeets(corpus, db, present);
  }

  lemma SwitchNone(versions: Versions, c: Cohort)
    ensures Switched(versions, c, {}) == versions
  {
  }

  lemma SeededDocuments(corpus: Corpus, db: Database, present: set<Cohort>, c: Cohort)
    requires Seeded(corpus, db, present) && c in present
    ensures db.documents == Documents(corpus)
  {
  }

  /** What one turn of the activation loop finds and leaves. */
  lemma SwitchProgress(corpus: Corpus, db: Database, c: Cohort, done: set<string>, d: string, present: set<Cohort>)
    requires Seeded(corpus, db, present) && c in present && done + {d} <= Documents(corpus) && d !in done
    ensures var s := Switched(db.versions, c, done);
      && IdOf(c, d) in s && s[IdOf(c, d)].(status := Active) == RowOf(c, d, Active)
      && s[IdOf(c, d)].status in {Active, Retired}
      && Switched(db.versions, c, done + {d}) == Retire(s, d)[IdOf(c, d) := RowOf(c, d, Active)]
      && (s[IdOf(c, d)].status == Active ==> Switched(db.versions, c, done + {d}) == s)
      && Constraints(db.(versions := s)) && Constraints(db.(versions := Retire(s, d)))
      && Constraints(db.(versions := Switched(db.versions, c, done + {d})))
  {
    SwitchOne(db.versions, c, done, d);
    SwitchedIsSound(db.versions, c, done);
    SwitchedMeets(corpus, db, c, done, present);
    SwitchedMeets(corpus, db, c, done + {d}, present);
    SwitchedRow(db.versions, c, done, IdOf(c, d));
    hide Switched, Constraints, OneActive, ChunksOk;
    var s := Switched(db.versions, c, done);
    RetireMeets(db.(versions := s), d);
    if s[IdOf(c, d)].status == Active {
      SwitchIdle(s, c, d);
    }
  }

  // ---------------------------------------------------------------- what a seeding shows, row by row

  /** The n-th chunk of a document in a cohort, and how many there are. */
  function NthChunk(c: Cohort, d: string, n: nat): ChunkId {
    if c.v2 then V2Chunk(V2Version(d, c.identity), n) else V1Chunk(d, n)
  }

  lemma ExpectedNth(corpus: Corpus, c: Cohort, d: string, n: nat)
    ensures NthChunk(c, d, n) in ChunkIds(corpus, c, d)
       <==> n < if c.v2 then corpus.v2Chunks(d) else corpus.v1Chunks(d)
    ensures NthChunk(c, d, n) in Expected(corpus, c)
       <==> d in corpus.documents && n < if c.v2 then corpus.v2Chunks(d) else corpus.v1Chunks(d)
    ensures VersionOf(NthChunk(c, d, n)) == IdOf(c, d)
  {
    if c.v2 {
      assert V2Chunk(IdOf(c, d), n) in ChunkIds(corpus, c, d) <==> n < corpus.v2Chunks(d);
    } else {
      assert V1Chunk(d, n) in ChunkIds(corpus, c, d) <==> n < corpus.v1Chunks(d);
    }
    ExpectedIs(corpus, c, NthChunk(c, d, n));
  }

  /** When every chunk of the cohort embeds, by document and index. */
  lemma EmbedsNth(corpus: Corpus, c: Cohort, embeds: ChunkId -> bool)
    ensures AllEmbed(corpus, c, embeds) <==>
      forall d, n: nat | d in corpus.documents && n < (if c.v2 then corpus.v2Chunks(d) else corpus.v1Chunks(d)) ::
        embeds(NthChunk(c, d, n))
  {
    forall d, n: nat
      ensures NthChunk(c, d, n) in Expected(corpus, c)
         <==> d in corpus.documents && n < if c.v2 then corpus.v2Chunks(d) else corpus.v1Chunks(d)
    {
      ExpectedNth(corpus, c, d, n);
    }
    forall x | x in Expected(corpus, c)
      ensures DocumentOf(x) in corpus.documents && x == NthChunk(c, DocumentOf(x), x.index)
      ensures x.index < if c.v2 then corpus.v2Chunks(DocumentOf(x)) else corpus.v1Chunks(DocumentOf(x))
    {
      ExpectedIs(corpus, c, x);
    }
    hide Expected, NthChunk;
  }

  lemma SomeNth(corpus: Corpus, c: Cohort)
    requires c.v2
    ensures Expected(corpus, c) != {} <==> exists d :: d in corpus.documents && corpus.v2Chunks(d) > 0
  {
    if Expected(corpus, c) != {} {
      var x :| x in Expected(corpus, c);
      ExpectedIs(corpus, c, x);
    }
    if d :| d in corpus.documents && corpus.v2Chunks(d) > 0 {
      ExpectedNth(corpus, c, d, 0);
    }
  }

  lemma StoredV2(corpus: Corpus, versions: Versions, identity: Identity)
    requires RowsOk(versions)
    ensures Stored(corpus, versions, Cohort(true, identity)) <==>
      forall d | d in corpus.documents :: V2Version(d, identity) in versions
  {
    forall d | d in corpus.documents && V2Version(d, identity) in versions
      ensures versions[V2Version(d, identity)].identity == identity
    {
      assert V2Version(d, identity) == IdOf(CohortOf(versions[V2Version(d, identity)]), d);
    }
    assert forall d :: IdOf(Cohort(true, identity), d) == V2Version(d, identity);
  }

  lemma StoredV1(corpus: Corpus, versions: Versions, identity: Identity)
    ensures Stored(corpus, versions, Cohort(false, identity)) <==>
      forall d | d in corpus.documents :: V1Version(d) in versions && versions[V1Version(d)].identity == identity
  {
    assert forall d :: IdOf(Cohort(false, identity), d) == V1Version(d);
  }

  lemma V2Succeeds(corpus: Corpus, db: Database, identity: Identity, embeds: ChunkId -> bool, present: set<Cohort>)
    requires Seeded(corpus, db, present)
    ensures Reuses(corpus, db, Cohort(true, identity)) <==>
      corpus.documents == [] || forall d | d in corpus.documents :: V2Version(d, identity) in db.versions
    ensures Succeeds(corpus, db, Cohort(true, identity), embeds) <==>
      || corpus.documents == []
      || (forall d | d in corpus.documents :: V2Version(d, identity) in db.versions)
      || (&& (forall d, n: nat | d in corpus.documents && n < corpus.v2Chunks(d) ::
                embeds(V2Chunk(V2Version(d, identity), n)))
          && exists d :: d in corpus.documents && corpus.v2Chunks(d) > 0)
  {
    var c := Cohort(true, identity);
    SeededRows(corpus, db, present);
    StoredV2(corpus, db.versions, identity);
    EmbedsNth(corpus, c, embeds);
    SomeNth(corpus, c);
    hide Stored, AllEmbed, Expected, Seeded, RowsOk;
    assert forall d, n: nat :: NthChunk(c, d, n) == V2Chunk(V2Version(d, identity), n);
  }

  lemma V1Succeeds(corpus: Corpus, db: Database, identity: Identity, embeds: ChunkId -> bool)
    ensures Reuses(corpus, db, Cohort(false, identity)) <==>
      corpus.documents == [] || forall d | d in corpus.documents ::
        V1Version(d) in db.versions && db.versions[V1Version(d)].identity == identity
    ensures Succeeds(corpus, db, Cohort(false, identity), embeds) <==>
      || corpus.documents == []
      || (forall d | d in corpus.documents ::
            V1Version(d) in db.versions && db.versions[V1Version(d)].identity == identity)
      || (&& (forall d, n: nat | d in corpus.documents && n < corpus.v1Chunks(d) :: embeds(V1Chunk(d, n)))
          && db.documents == {})
  {
    var c := Cohort(false, identity);
    StoredV1(corpus, db.versions, identity);
    EmbedsNth(corpus, c, embeds);
    hide Stored, AllEmbed, Expected;
    assert forall d, n: nat :: NthChunk(c, d, n) == V1Chunk(d, n);
  }

  /** The tables after a successful seeding: exactly the chunks with an index below the number of
      chunks of each document, and the cohort's version active, by itself. */
  lemma InstalledNth(corpus: Corpus, db: Database, c: Cohort, embeds: ChunkId -> bool, present: set<Cohort>,
                     d: string, n: nat)
    requires Seeded(corpus, db, present) && Succeeds(corpus, db, c, embeds) && d in corpus.documents
    ensures var db' := Installed(corpus, db, c);
      && (NthChunk(c, d, n) in db'.chunks <==> n < if c.v2 then corpus.v2Chunks(d) else corpus.v1Chunks(d))
      && (NthChunk(c, d, n) in db'.chunks ==> db'.chunks[NthChunk(c, d, n)] == Chunk(d, IdOf(c, d)))
      && IdOf(c, d) in db'.versions && db'.versions[IdOf(c, d)] == RowOf(c, d, Active)
  {
    hide Succeeds;
    var room := RoomFor(corpus, db, c, embeds, present);
    InstalledIsSeeded(corpus, db, c, room);
    ExpectedNth(corpus, c, d, n);
    InstalledRow(corpus, db, c, d);
    ChunksUnder(corpus, Installed(corpus, db, c), c, room + {c}, d, NthChunk(c, d, n));
    hide Installed, ChunkIds, Expected, VersionsOk, OneActive, RowsOk, RowOf, Addable;
  }

  lemma InstalledKeeps(corpus: Corpus, db: Database, c: Cohort, present: set<Cohort>, v: VersionId)
    requires Seeded(corpus, db, present)
    ensures var db' := Installed(corpus, db, c);
      && (v in db'.versions && db'.versions[v].status == Active ==> v == IdOf(c, db'.versions[v].document))
      && (v in db.versions && v != IdOf(c, db.versions[v].document) ==>
            v in db'.versions && db'.versions[v] == db.versions[v].(status := Retired))
  {
    SwitchedRow(db.versions, c, Documents(corpus), v);
    hide Switched, ChunksOk, OneActive, ChunkRows;
    assert v in db.versions ==> v.document == db.versions[v].document;
  }

  lemma InstalledKeepsChunk(corpus: Corpus, db: Database, c: Cohort, present: set<Cohort>, x: ChunkId)
    requires Seeded(corpus, db, present) && x in db.chunks
    ensures x in Installed(corpus, db, c).chunks && Installed(corpus, db, c).chunks[x] == db.chunks[x]
  {
  }

  lemma InstalledDocuments(corpus: Corpus, db: Database, c: Cohort)
    ensures Installed(corpus, db, c).documents == set d | d in corpus.documents
  {
  }

  lemma InstalledOnly(corpus: Corpus, db: Database, c: Cohort, present: set<Cohort>, v: VersionId)
    requires Seeded(corpus, db, present)
    ensures var db' := Installed(corpus, db, c);
      v in db'.versions ==> v == IdOf(c, db'.versions[v].document) || v in db.versions
  {
    SwitchedRow(db.versions, c, Documents(corpus), v);
    hide Switched, ChunksOk, OneActive, ChunkRows;
  }

  lemma InstalledOnlyChunk(corpus: Corpus, db: Database, c: Cohort, x: ChunkId)
    ensures x in Installed(corpus, db, c).chunks && x !in db.chunks ==>
      && DocumentOf(x) in corpus.documents && VersionOf(x) == IdOf(c, DocumentOf(x))
      && x.V2Chunk? == c.v2
  {
    ExpectedIs(corpus, c, x);
  }

  /** A seeding of V2, version by version and chunk by chunk. */
  lemma V2Shows(corpus: Corpus, db: Database, identity: Identity, embeds: ChunkId -> bool, present: set<Cohort>)
    requires Seeded(corpus, db, present) && Succeeds(corpus, db, Cohort(true, identity), embeds)
    ensures var db' := Installed(corpus, db, Cohort(true, identity));
      && (forall d, n: nat | d in corpus.documents ::
            V2Chunk(V2Version(d, identity), n) in db'.chunks <==> n < corpus.v2Chunks(d))
      && (forall d, n: nat | d in corpus.documents && n < corpus.v2Chunks(d) ::
            db'.chunks[V2Chunk(V2Version(d, identity), n)] == Chunk(d, V2Version(d, identity)))
      && (forall d | d in corpus.documents ::
            && V2Version(d, identity) in db'.versions
            && db'.versions[V2Version(d, identity)]
               == Version(d, V2Key(d, identity), Active, V2_SCHEMA, V2_CHUNKER, identity))
      && (forall v | v in db'.versions && db'.versions[v].status == Active ::
            v == V2Version(db'.versions[v].document, identity))
      && (forall v | v in db.versions && v != V2Version(db.versions[v].document, identity) ::
            v in db'.versions && db'.versions[v] == db.versions[v].(status := Retired))
      && (forall x | x in db.chunks :: x in db'.chunks && db'.chunks[x] == db.chunks[x])
      && db'.documents == (set d | d in corpus.documents)
      && (forall v | v in db'.versions :: v == V2Version(db'.versions[v].document, identity) || v in db.versions)
      && (forall x | x in db'.chunks ::
           x in db.chunks
             || (x.V2Chunk? && x.version.document in corpus.documents
                 && x.version == V2Version(x.version.document, identity)))
  {
    hide Seeded, Succeeds, Installed;
    var c := Cohort(true, identity);
    var db' := Installed(corpus, db, c);
    InstalledDocuments(corpus, db, c);
    forall d, n: nat | d in corpus.documents
      ensures V2Chunk(V2Version(d, identity), n) in db'.chunks <==> n < corpus.v2Chunks(d)
      ensures n < corpus.v2Chunks(d) ==>
        db'.chunks[V2Chunk(V2Version(d, identity), n)] == Chunk(d, V2Version(d, identity))
    {
      InstalledNth(corpus, db, c, embeds, present, d, n);
    }
    forall d | d in corpus.documents
      ensures V2Version(d, identity) in db'.versions
      ensures db'.versions[V2Version(d, identity)]
           == Version(d, V2Key(d, identity), Active, V2_SCHEMA, V2_CHUNKER, identity)
    {
      InstalledNth(corpus, db, c, embeds, present, d, 0);
    }
    forall v ensures v in db'.versions && db'.versions[v].status == Active ==>
                       v == V2Version(db'.versions[v].document, identity)
      ensures v in db.versions && v != V2Version(db.versions[v].document, identity) ==>
                v in db'.versions && db'.versions[v] == db.versions[v].(status := Retired)
    {
      InstalledKeeps(corpus, db, c, present, v);
    }
    forall v | v in db'.versions ensures v == V2Version(db'.versions[v].document, identity) || v in db.versions {
      InstalledOnly(corpus, db, c, present, v);
    }
    forall x | x in db'.chunks
      ensures x in db.chunks
        || (x.V2Chunk? && x.version.document in corpus.documents
            && x.version == V2Version(x.version.document, identity))
    {
      InstalledOnlyChunk(corpus, db, c, x);
    }
    forall x | x in db.chunks ensures x in db'.chunks && db'.chunks[x] == db.chunks[x] {
      InstalledKeepsChunk(corpus, db, c, present, x);
    }
  }

  /** A seeding of V1 likewise. */
  lemma V1Shows(corpus: Corpus, db: Database, identity: Identity, embeds: ChunkId -> bool, present: set<Cohort>)
    requires Seeded(corpus, db, present) && Succeeds(corpus, db, Cohort(false, identity), embeds)
    ensures var db' := Installed(corpus, db, Cohort(false, identity));
      && (forall d, n: nat | d in corpus.documents :: V1Chunk(d, n) in db'.chunks <==> n < corpus.v1Chunks(d))
      && (forall d, n: nat | d in corpus.documents && n < corpus.v1Chunks(d) ::
            db'.chunks[V1Chunk(d, n)] == Chunk(d, V1Version(d)))
      && (forall d | d in corpus.documents ::
            && V1Version(d) in db'.versions
            && db'.versions[V1Version(d)] == Version(d, LegacyKey, Active, V1_SCHEMA, V1_CHUNKER, identity))
      && (forall v | v in db'.versions && db'.versions[v].status == Active :: v == V1Version(db'.versions[v].document))
      && (forall v | v in db.versions && v != V1Version(db.versions[v].document) ::
            v in db'.versions && db'.versions[v] == db.versions[v].(status := Retired))
      && (forall x | x in db.chunks :: x in db'.chunks && db'.chunks[x] == db.chunks[x])
      && db'.documents == (set d | d in corpus.documents)
      && (forall v | v in db'.versions :: v == V1Version(db'.versions[v].document) || v in db.versions)
      && (forall x | x in db'.chunks :: x in db.chunks || (x.V1Chunk? && x.document in corpus.documents))
  {
    hide Seeded, Succeeds, Installed;
    var c := Cohort(false, identity);
    var db' := Installed(corpus, db, c);
    InstalledDocuments(corpus, db, c);
    forall d, n: nat | d in corpus.documents
      ensures V1Chunk(d, n) in db'.chunks <==> n < corpus.v1Chunks(d)
      ensures n < corpus.v1Chunks(d) ==> db'.chunks[V1Chunk(d, n)] == Chunk(d, V1Version(d))
    {
      InstalledNth(corpus, db, c, embeds, present, d, n);
    }
    forall d | d in corpus.documents
      ensures V1Version(d) in db'.versions
      ensures db'.versions[V1Version(d)] == Version(d, LegacyKey, Active, V1_SCHEMA, V1_CHUNKER, identity)
    {
      InstalledNth(corpus, db, c, embeds, present, d, 0);
    }
    forall v ensures v in db'.versions && db'.versions[v].status == Active ==>
                       v == V1Version(db'.versions[v].document)
      ensures v in db.versions && v != V1Version(db.versions[v].document) ==>
                v in db'.versions && db'.versions[v] == db.versions[v].(status := Retired)
    {
      InstalledKeeps(corpus, db, c, present, v);
    }
    forall v | v in db'.versions ensures v == V1Version(db'.versions[v].document) || v in db.versions {
      InstalledOnly(corpus, db, c, present, v);
    }
    forall x | x in db'.chunks ensures x in db.chunks || (x.V1Chunk? && x.document in corpus.documents) {
      InstalledOnlyChunk(corpus, db, c, x);
    }
    forall x | x in db.chunks ensures x in db'.chunks && db'.chunks[x] == db.chunks[x] {
      InstalledKeepsChunk(corpus, db, c, present, x);
    }
  }

  lemma DocumentV2(corpus: Corpus, db: Database, c: Cohort, d: string)
    requires c.v2
    ensures AcceptsDocument(corpus, db, c, d) <==>
      && V2Version(d, c.identity) in db.versions
      && db.versions[V2Version(d, c.identity)]
         == Version(d, V2Key(d, c.identity), Active, V2_SCHEMA, V2_CHUNKER, c.identity)
      && (forall v | v in db.versions && db.versions[v].document == d && db.versions[v].status == Active ::
            v == V2Version(d, c.identity))
      && (forall n: nat | n < corpus.v2Chunks(d) ::
            && V2Chunk(V2Version(d, c.identity), n) in db.chunks
            && db.chunks[V2Chunk(V2Version(d, c.identity), n)].version == V2Version(d, c.identity))
      && (forall x | x in db.chunks && db.chunks[x].version == V2Version(d, c.identity) ::
            x.V2Chunk? && x.version == V2Version(d, c.identity) && x.index < corpus.v2Chunks(d))
  {
    var v := V2Version(d, c.identity);
    forall x ensures x in ChunkIds(corpus, c, d) <==> x.V2Chunk? && x.version == v && x.index < corpus.v2Chunks(d) {
      if x.V2Chunk? && x.version == v {
        assert x == V2Chunk(v, x.index);
        assert V2Chunk(IdOf(c, d), x.index) in ChunkIds(corpus, c, d) <==> x.index < corpus.v2Chunks(d);
      }
    }
    assert RowOf(c, d, Active) == Version(d, V2Key(d, c.identity), Active, V2_SCHEMA, V2_CHUNKER, c.identity);
    hide ChunkIds, RowOf;
  }

  lemma DocumentV1(corpus: Corpus, db: Database, c: Cohort, d: string)
    requires !c.v2
    ensures AcceptsDocument(corpus, db, c, d) <==>
      && V1Version(d) in db.versions
      && db.versions[V1Version(d)] == Version(d, LegacyKey, Active, V1_SCHEMA, V1_CHUNKER, c.identity)
      && (forall v | v in db.versions && db.versions[v].document == d && db.versions[v].status == Active ::
            v == V1Version(d))
      && (forall n: nat | n < corpus.v1Chunks(d) ::
           V1Chunk(d, n) in db.chunks && db.chunks[V1Chunk(d, n)].version == V1Version(d))
      && (forall x | x in db.chunks && db.chunks[x].version == V1Version(d) ::
           x.V1Chunk? && x.document == d && x.index < corpus.v1Chunks(d))
  {
    forall x ensures x in ChunkIds(corpus, c, d) <==> x.V1Chunk? && x.document == d && x.index < corpus.v1Chunks(d) {
      assert x.V1Chunk? && x.document == d ==> x == V1Chunk(d, x.index);
    }
    assert RowOf(c, d, Active) == Version(d, LegacyKey, Active, V1_SCHEMA, V1_CHUNKER, c.identity);
    hide ChunkIds, RowOf;
  }

  lemma AcceptsV2(corpus: Corpus, db: Database, c: Cohort)
    ensures c.v2 ==> (Accepts(corpus, db, c) <==> forall d | d in corpus.documents ::
      && V2Version(d, c.identity) in db.versions
      && db.versions[V2Version(d, c.identity)]
         == Version(d, V2Key(d, c.identity), Active, V2_SCHEMA, V2_CHUNKER, c.identity)
      && (forall v | v in db.versions && db.versions[v].document == d && db.versions[v].status == Active ::
            v == V2Version(d, c.identity))
      && (forall n: nat | n < corpus.v2Chunks(d) ::
            && V2Chunk(V2Version(d, c.identity), n) in db.chunks
            && db.chunks[V2Chunk(V2Version(d, c.identity), n)].version == V2Version(d, c.identity))
      && (forall x | x in db.chunks && db.chunks[x].version == V2Version(d, c.identity) ::
            x.V2Chunk? && x.version == V2Version(d, c.identity) && x.index < corpus.v2Chunks(d)))
  {
    hide AcceptsDocument;
    if c.v2 {
      forall d | d in corpus.documents {
        DocumentV2(corpus, db, c, d);
      }
    }
  }

  lemma AcceptsV1(corpus: Corpus, db: Database, c: Cohort)
    ensures !c.v2 ==> (Accepts(corpus, db, c) <==> forall d | d in corpus.documents ::
      && V1Version(d) in db.versions
      && db.versions[V1Version(d)] == Version(d, LegacyKey, Active, V1_SCHEMA, V1_CHUNKER, c.identity)
      && (forall v | v in db.versions && db.versions[v].document == d && db.versions[v].status == Active ::
            v == V1Version(d))
      && (forall n: nat | n < corpus.v1Chunks(d) ::
           V1Chunk(d, n) in db.chunks && db.chunks[V1Chunk(d, n)].version == V1Version(d))
      && (forall x | x in db.chunks && db.chunks[x].version == V1Version(d) ::
            x.V1Chunk? && x.document == d && x.index < corpus.v1Chunks(d)))
  {
    hide AcceptsDocument;
    if !c.v2 {
      forall d | d in corpus.documents {
        DocumentV1(corpus, db, c, d);
      }
    }
  }

  // ---------------------------------------------------------------- whole runs

  datatype Seeding = Seeding(c: Cohort, reset: bool, embeds: ChunkId -> bool)

  /** What one call of a seeder commits; a failing call is rolled back. */
  function CommittedBy(corpus: Corpus, db: Database, s: Seeding): Database {
    if Succeeds(corpus, Base(db, s.reset), s.c, s.embeds) then Installed(corpus, Base(db, s.reset), s.c) else db
  }

  function RunSeedings(corpus: Corpus, calls: seq<Seeding>): Database {
    if calls == [] then EMPTY else CommittedBy(corpus, RunSeedings(corpus, calls[..|calls| - 1]), calls[|calls| - 1])
  }

  /** When a seeding succeeds there is room for its cohort. */
  lemma RoomFor(corpus: Corpus, db: Database, c: Cohort, embeds: ChunkId -> bool, present: set<Cohort>)
    returns (room: set<Cohort>)
    requires Seeded(corpus, db, present) && Succeeds(corpus, db, c, embeds)
    ensures Seeded(corpus, db, room) && Addable(room, c)
  {
    room := present;
    hide Stored, Expected, AllEmbed;
    if corpus.documents == [] {
      EmptyCorpus(corpus, db, c, present);
      room := {c};
    } else if Stored(corpus, db.versions, c) {
      StoredMeansPresent(corpus, db, c, present);
    } else if !c.v2 {
      assert corpus.documents[0] in Documents(corpus);
    }
  }

  /** Every state that seedings in any order, with any identities, resets and failures can reach
      holds whole cohorts only, with at most one active version per document. */
  lemma {:induction false} RunIsSeeded(corpus: Corpus, calls: seq<Seeding>) returns (present: set<Cohort>)
    ensures Seeded(corpus, RunSeedings(corpus, calls), present)
    ensures Constraints(RunSeedings(corpus, calls))
  {
    if calls == [] {
      EmptyIsSeeded(corpus);
      present := {};
    } else {
      var s := calls[|calls| - 1];
      var db := RunSeedings(corpus, calls[..|calls| - 1]);
      present := RunIsSeeded(corpus, calls[..|calls| - 1]);
      hide Seeded, Installed, Succeeds, Addable;
      if Succeeds(corpus, Base(db, s.reset), s.c, s.embeds) {
        EmptyIsSeeded(corpus);
        present := RoomFor(corpus, Base(db, s.reset), s.c, s.embeds, if s.reset then {} else present);
        InstalledIsSeeded(corpus, Base(db, s.reset), s.c, present);
        present := present + {s.c};
      }
    }
    SeededMeets(corpus, RunSeedings(corpus, calls), present);
  }

  /** After any run, a successful seeding is accepted by the validator for the same schema and
      identity, and seeding once more without reset succeeds and changes nothing. */
  lemma SuccessIsAcceptedAndIdempotent(corpus: Corpus, calls: seq<Seeding>, s: Seeding, again: Seeding)
    requires Succeeds(corpus, Base(RunSeedings(corpus, calls), s.reset), s.c, s.embeds)
    requires again.c == s.c && !again.reset
    ensures var db := CommittedBy(corpus, RunSeedings(corpus, calls), s);
      Accepts(corpus, db, s.c) && Reuses(corpus, db, s.c) && CommittedBy(corpus, db, again) == db
  {
    var present := RunIsSeeded(corpus, calls);
    var base := Base(RunSeedings(corpus, calls), s.reset);
    EmptyIsSeeded(corpus);
    hide RunSeedings, Seeded, Installed, Addable, Stored;
    var room := RoomFor(corpus, base, s.c, s.embeds, if s.reset then {} else present);
    InstalledIsAccepted(corpus, base, s.c, room);
    InstalledIsSeeded(corpus, base, s.c, room);
    AcceptedIsStored(corpus, Installed(corpus, base, s.c), s.c);
    SeededRows(corpus, base, room);
    ReseedingIsIdle(corpus, base, s.c);
  }

  lemma SeededRows(corpus: Corpus, db: Database, present: set<Cohort>)
    requires Seeded(corpus, db, present)
    ensures RowsOk(db.versions)
  {
  }

  lemma AcceptedIsStored(corpus: Corpus, db: Database, c: Cohort)
    requires Accepts(corpus, db, c)
    ensures Stored(corpus, db.versions, c)
  {
    forall d | d in corpus.documents
      ensures IdOf(c, d) in db.versions && db.versions[IdOf(c, d)].identity == c.identity
    {
      assert AcceptsDocument(corpus, db, c, d);
    }
  }
}
