/**
 * main of build_embeddings.py: load the documents, refuse to go on without
 * any, chunk them, embed the chunk texts and produce the two JSON artefacts
 * (rag/documents.json and rag/vectors.json) and the closing summary line.
 * Writing the files and printing are left to the caller; the outcome says
 * what would be written.
 */
module Pipeline {
  import opened Wrappers
  import opened Text
  import opened Chunker
  import opened Entries
  import opened Loader
  import opened Embeddings
  import opened Numeric

  const NoDocumentsMessage: string := "No source documents found in content/"

  /** documents.json holds the entries; vectors.json the model, the dimension and the rows. */
  datatype Artifacts = Artifacts(documents: seq<ChunkEntry>, model: string, dimension: nat, embeddings: seq<Vector>)

  datatype Outcome =
    | NoDocuments(message: string)
      /** The run stopped before writing anything. */
    | Failed(error: Error)
      /** documents.json was written, then embeddings.shape[1] failed before vectors.json. */
    | WroteDocumentsOnly(documents: seq<ChunkEntry>, error: Error)
    | Wrote(artifacts: Artifacts, summary: string)

  /** "Wrote N chunks across M documents." */
  function Summary(chunks: nat, documents: nat): (s: string)
    ensures StartsWith(s, "Wrote " + NatToString(chunks) + " chunks across ")
    ensures s[|s| - |" documents."|..] == " documents."
  {
    "Wrote " + NatToString(chunks) + " chunks across " + NatToString(documents) + " documents."
  }

  /** [entry["text"] for entry in entries] */
  function Texts(entries: seq<ChunkEntry>): (texts: seq<string>)
    ensures |texts| == |entries| && forall i :: 0 <= i < |entries| ==> texts[i] == entries[i].text
  {
    seq(|entries|, i requires 0 <= i < |entries| => entries[i].text)
  }

  /** The outcome of one build over a directory listing. */
  function Build(cfg: Config, backends: Backends, listing: seq<DirEntry>): (o: Outcome)
    ensures o.NoDocuments? <==> LoadedDocuments(listing) == []
    ensures o.WroteDocumentsOnly? ==> o.documents == AllEntries(LoadedDocuments(listing))
    ensures o.Wrote? ==> o.artifacts.documents == AllEntries(LoadedDocuments(listing))
  {
    var docs := LoadedDocuments(listing);
    if docs == [] then NoDocuments(NoDocumentsMessage)
    else
      var entries := AllEntries(docs);
      match Generated(cfg, backends, Texts(entries))
      case Failure(NoSecondAxis) => WroteDocumentsOnly(entries, NoSecondAxis)
      case Failure(e) => Failed(e)
      case Success(r) =>
        Wrote(Artifacts(entries, r.model, r.vectors.width, r.vectors.rows), Summary(|entries|, |docs|))
  }

  /** main */
  method RunBuild(cfg: Config, backends: Backends, listing: seq<DirEntry>) returns (outcome: Outcome)
    requires DistinctNames(listing)
    ensures outcome == Build(cfg, backends, listing)
  {
    var rawDocs := ReadDocuments(listing);
    if rawDocs == [] {
      return NoDocuments(NoDocumentsMessage);
    }
    var entries := BuildEntries(rawDocs);
    var texts := Texts(entries);
    var generated := GenerateEmbeddings(cfg, backends, texts);
    match generated {
      case Failure(NoSecondAxis) => outcome := WroteDocumentsOnly(entries, NoSecondAxis);
      case Failure(e) => outcome := Failed(e);
      case Success(r) =>
        outcome := Wrote(Artifacts(entries, r.model, r.vectors.width, r.vectors.rows), Summary(|entries|, |rawDocs|));
    }
  }

  /** A loaded document has words, so it yields at least one chunk. */
  lemma {:induction false} LoadedDocumentChunks(d: Document)
    requires Words(d.text) != []
    ensures |DocEntries(d)| >= 1
  {
  }

  /** Documents that all have words give at least one entry each. */
  lemma {:induction false} EntriesAtLeastDocuments(docs: seq<Document>)
    requires forall d :: d in docs ==> Words(d.text) != []
    ensures |AllEntries(docs)| >= |docs|
  {
    if docs != [] {
      var init := docs[..|docs| - 1];
      assert forall d :: d in init ==> d in docs;
      EntriesAtLeastDocuments(init);
      LoadedDocumentChunks(docs[|docs| - 1]);
    }
  }

  /**
   * The build stops with NoDocuments exactly when no file is loaded; otherwise
   * there is at least one chunk per document, so the embedding step never sees
   * an empty input. A failed embedding step ends the build with its error and
   * nothing written, except when the rows lack a second axis: documents.json
   * is written first and only then does the run fail. A successful step
   * writes the entry list with its summary, and the model, dimension and
   * rows the embedding step returned.
   */
  lemma {:induction false} BuildOutcome(cfg: Config, backends: Backends, listing: seq<DirEntry>)
    requires DistinctNames(listing)
    ensures Build(cfg, backends, listing).NoDocuments? <==> LoadedDocuments(listing) == []
    ensures LoadedDocuments(listing) != [] ==> |AllEntries(LoadedDocuments(listing))| >= |LoadedDocuments(listing)| >= 1
    ensures LoadedDocuments(listing) != [] ==> SelectBackend(cfg, Texts(AllEntries(LoadedDocuments(listing)))) != NoBackend
    ensures Build(cfg, backends, listing).Wrote? ==>
      var docs := LoadedDocuments(listing);
      Build(cfg, backends, listing).artifacts.documents == AllEntries(docs)
      && Build(cfg, backends, listing).summary == Summary(|AllEntries(docs)|, |docs|)
    ensures var docs := LoadedDocuments(listing);
      var g := Generated(cfg, backends, Texts(AllEntries(docs)));
      docs != [] ==>
        (g.Failure? && g.error != NoSecondAxis ==> Build(cfg, backends, listing) == Failed(g.error))
        && (g == Failure(NoSecondAxis) ==>
              Build(cfg, backends, listing) == WroteDocumentsOnly(AllEntries(docs), NoSecondAxis))
        && (g.Success? ==>
              Build(cfg, backends, listing).Wrote?
              && Build(cfg, backends, listing).artifacts.model == g.value.model
              && Build(cfg, backends, listing).artifacts.dimension == g.value.vectors.width
              && Build(cfg, backends, listing).artifacts.embeddings == g.value.vectors.rows)
  {
    var docs := LoadedDocuments(listing);
    LoadedDocumentsProperties(listing);
    if docs != [] {
      EntriesAtLeastDocuments(docs);
    }
  }

  /**
   * With RAG_FAKE_EMBEDDINGS=1 a build over a listing with a text file always
   * writes: one 64-wide row per chunk, labelled debug-fake-embeddings.
   */
  lemma {:induction false} FakeBuildWrites(cfg: Config, backends: Backends, listing: seq<DirEntry>)
    requires DistinctNames(listing) && FakeEnabled(cfg) && LoadedDocuments(listing) != []
    ensures Build(cfg, backends, listing).Wrote?
    ensures var a := Build(cfg, backends, listing).artifacts;
      a.model == FakeModelName && a.dimension == FakeDimension && |a.embeddings| == |a.documents|
      && forall i :: 0 <= i < |a.documents| ==> a.embeddings[i] == FakeRow(backends.fakeComponent, a.documents[i].text)
  {
    BuildOutcome(cfg, backends, listing);
  }

  /**
   * An OpenAI endpoint that answers every batch with no data leaves
   * documents.json written and vectors.json not: np.array([]) has no second
   * axis, which main discovers only after the first write.
   */
  lemma {:induction false} EmptyRepliesWriteDocumentsOnly(cfg: Config, backends: Backends, listing: seq<DirEntry>)
    requires DistinctNames(listing) && LoadedDocuments(listing) != []
    requires !FakeEnabled(cfg) && HasAPIKey(cfg)
    requires forall batch: seq<string> :: backends.remote(OpenAIModel(cfg), batch) == Success([])
    ensures Build(cfg, backends, listing) == WroteDocumentsOnly(AllEntries(LoadedDocuments(listing)), NoSecondAxis)
  {
    var texts := Texts(AllEntries(LoadedDocuments(listing)));
    BuildOutcome(cfg, backends, listing);
    EmptyRepliesNoRows(backends.remote, OpenAIModel(cfg), Batches(texts));
    NoSecondAxisOnlyFromEmptyReplies(cfg, backends, texts);
  }
}
