/**
 * generate_embeddings of build_embeddings.py and its three backends. The
 * backend chosen is the first of: no texts (no backend at all), the fake
 * flag set to exactly "1", a non-empty OpenAI key, and the local model.
 * The backends themselves are parameters: the hash-seeded generator behind
 * the fake vectors, the remote per-batch embedding call and the local model.
 */
module Embeddings {
  import opened Wrappers
  import opened Text
  import opened Numeric

  const LocalModelName: string := "sentence-transformers/all-MiniLM-L6-v2"
  const DefaultOpenAIModel: string := "text-embedding-3-small"
  const FakeDimension: nat := 64
  const FakeEnvFlag: string := "RAG_FAKE_EMBEDDINGS"
  const FakeModelName: string := "debug-fake-embeddings"
  const BatchSize: nat := 20

  /**
   * The environment: OPENAI_EMBEDDING_MODEL is read once at import time,
   * RAG_FAKE_EMBEDDINGS and OPENAI_API_KEY on every call. None is "unset".
   */
  datatype Config = Config(embeddingModel: Option<string>, fakeFlag: Option<string>, openAIKey: Option<string>)

  /** os.getenv("OPENAI_EMBEDDING_MODEL", default): a variable set to "" is used as "". */
  function OpenAIModel(cfg: Config): string {
    match cfg.embeddingModel
    case Some(m) => m
    case None => DefaultOpenAIModel
  }

  predicate FakeEnabled(cfg: Config) {
    cfg.fakeFlag == Some("1")
  }

  /** os.getenv("OPENAI_API_KEY") is truthy: set and non-empty. */
  predicate HasAPIKey(cfg: Config) {
    cfg.openAIKey.Some? && cfg.openAIKey.value != ""
  }

  /** A two-dimensional numpy array: its rows and the length of its second axis. */
  datatype Matrix = Matrix(rows: seq<Vector>, width: nat)

  predicate WellShaped(m: Matrix) {
    forall i :: 0 <= i < |m.rows| ==> |m.rows[i]| == m.width
  }

  /**
   * The backends: component j of the vector that the generator seeded from
   * the SHA-256 of a text yields; one remote embeddings call (model, input);
   * and loading plus running the local model, either of which may fail.
   */
  datatype Backends = Backends(
    fakeComponent: (string, nat) -> real,
    remote: (string, seq<string>) -> Result<seq<Vector>, string>,
    local: seq<string> -> Result<Matrix, string>)

  datatype Error =
    | RemoteError(cause: string)
      /** numpy 1.24 and later refuse ragged rows in np.array, inside embed_with_openai. */
    | RaggedRows
      /**
       * No rows at all: np.array([]) is one-dimensional, so generate_embeddings
       * returns normally and embeddings.shape[1] fails later, in main.
       */
    | NoSecondAxis
    | LocalModelUnavailable(message: string, cause: string)

  datatype Backend = NoBackend | FakeBackend | OpenAIBackend | LocalBackend

  /** The model label and the vectors generate_embeddings returns. */
  datatype Embedded = Embedded(model: string, vectors: Matrix)

  const LocalFailureMessage: string :=
    "Failed to load the local embedding model. Ensure huggingface downloads are available or set "
    + FakeEnvFlag + "=1 for deterministic test embeddings."

  // ---------------------------------------------------------------- fake

  /** rng.random(FAKE_DIMENSION) for the generator seeded from the text. */
  function FakeRow(gen: (string, nat) -> real, text: string): (v: Vector)
    ensures |v| == FakeDimension
  {
    seq(FakeDimension, j requires 0 <= j < FakeDimension => gen(text, j))
  }

  /** The vectors of embed_with_fake_vectors: one row per text, in input order, 64 wide. */
  function FakeMatrix(gen: (string, nat) -> real, texts: seq<string>): Matrix {
    Matrix(seq(|texts|, i requires 0 <= i < |texts| => FakeRow(gen, texts[i])), FakeDimension)
  }

  /** embed_with_fake_vectors: append one seeded row per text; no text gives a 0 x 64 array. */
  method EmbedWithFakeVectors(gen: (string, nat) -> real, texts: seq<string>) returns (m: Matrix)
    ensures m == FakeMatrix(gen, texts)
    ensures |m.rows| == |texts| && m.width == FakeDimension && WellShaped(m)
    ensures forall i :: 0 <= i < |texts| ==> m.rows[i] == FakeRow(gen, texts[i])
  {
    var vectors: seq<Vector> := [];
    for i := 0 to |texts|
      invariant |vectors| == i
      invariant forall k :: 0 <= k < i ==> vectors[k] == FakeRow(gen, texts[k])
    {
      vectors := vectors + [FakeRow(gen, texts[i])];
    }
    m := Matrix(vectors, FakeDimension);
  }

  /** A fake row depends on its text only: equal texts anywhere, in any call, get equal rows. */
  lemma {:induction false} FakeRowsByText(gen: (string, nat) -> real, a: seq<string>, b: seq<string>, i: nat, j: nat)
    requires i < |a| && j < |b| && a[i] == b[j]
    ensures FakeMatrix(gen, a).rows[i] == FakeMatrix(gen, b).rows[j]
  {
  }

  // ---------------------------------------------------------------- OpenAI

  /** The number of batches of 20 for n texts: ceil(n / 20). */
  function NumBatches(n: nat): nat {
    (n + BatchSize - 1) / BatchSize
  }

  /** texts[20b : 20b + 20] */
  function Batch(texts: seq<string>, b: nat): seq<string>
    requires BatchSize * b < |texts|
  {
    texts[BatchSize * b..Min(|texts|, BatchSize * b + BatchSize)]
  }

  lemma {:induction false} BatchStartsInRange(n: nat, b: nat)
    requires b < NumBatches(n)
    ensures BatchSize * b < n
  {
  }

  /** The inputs of the remote calls, in order. */
  function Batches(texts: seq<string>): seq<seq<string>> {
    seq(NumBatches(|texts|), b requires 0 <= b < NumBatches(|texts|) =>
      BatchStartsInRange(|texts|, b); Batch(texts, b))
  }

  function Concat<T>(parts: seq<seq<T>>): seq<T> {
    if parts == [] then [] else Concat(parts[..|parts| - 1]) + parts[|parts| - 1]
  }

  /** The batched rows: each call's rows appended in call order; the first failing call ends it. */
  function RemoteRows(remote: (string, seq<string>) -> Result<seq<Vector>, string>, model: string, batches: seq<seq<string>>): (r: Result<seq<Vector>, Error>)
    ensures r.Failure? ==> r.error.RemoteError?
    ensures r.Success? <==> forall i :: 0 <= i < |batches| ==> remote(model, batches[i]).Success?
  {
    if batches == [] then Success([])
    else
      match RemoteRows(remote, model, batches[..|batches| - 1])
      case Failure(e) => Failure(e)
      case Success(rows) =>
        match remote(model, batches[|batches| - 1])
        case Failure(cause) => Failure(RemoteError(cause))
        case Success(more) => Success(rows + more)
  }

  /**
   * np.array(rows) read as a matrix: it has a second axis only with at least
   * one row, and all rows of one length.
   */
  function ToMatrix(rows: seq<Vector>): (r: Result<Matrix, Error>)
    ensures r.Success? <==> rows != [] && forall i :: 0 <= i < |rows| ==> |rows[i]| == |rows[0]|
    ensures r.Success? ==> r.value.rows == rows && WellShaped(r.value)
    ensures r == Failure(NoSecondAxis) <==> rows == []
    ensures r.Failure? ==> r.error in {NoSecondAxis, RaggedRows}
  {
    if rows == [] then Failure(NoSecondAxis)
    else if forall i :: 0 <= i < |rows| ==> |rows[i]| == |rows[0]| then Success(Matrix(rows, |rows[0]|))
    else Failure(RaggedRows)
  }

  /** What embed_with_openai returns for the texts. */
  function OpenAIEmbeddings(remote: (string, seq<string>) -> Result<seq<Vector>, string>, model: string, texts: seq<string>): (r: Result<Matrix, Error>)
    ensures r.Success? ==> RemoteRows(remote, model, Batches(texts)) == Success(r.value.rows) && WellShaped(r.value)
    ensures r.Failure? ==> r.error.RemoteError? || r.error in {NoSecondAxis, RaggedRows}
  {
    match RemoteRows(remote, model, Batches(texts))
    case Failure(e) => Failure(e)
    case Success(rows) => ToMatrix(rows)
  }

  /** embed_with_openai: one call per batch of 20, extending the rows; also returns the batches sent. */
  method EmbedWithOpenAI(remote: (string, seq<string>) -> Result<seq<Vector>, string>, model: string, texts: seq<string>)
    returns (result: Result<Matrix, Error>, sent: seq<seq<string>>)
    ensures result == OpenAIEmbeddings(remote, model, texts)
    ensures sent <= Batches(texts)
    ensures result.Success? ==> sent == Batches(texts)
  {
    var batched: seq<Vector> := [];
    sent := [];
    var i := 0;
    while i < |texts|
      invariant i == BatchSize * |sent|
      invariant i < |texts| ==> |sent| < NumBatches(|texts|)
      invariant i >= |texts| ==> |sent| == NumBatches(|texts|)
      invariant sent == Batches(texts)[..|sent|]
      invariant RemoteRows(remote, model, sent) == Success(batched)
      decreases |texts| - i
    {
      var chunk := texts[i..Min(|texts|, i + BatchSize)];
      assert chunk == Batches(texts)[|sent|];
      assert (sent + [chunk])[..|sent|] == sent;
      match remote(model, chunk) {
        case Failure(cause) =>
          sent := sent + [chunk];
          assert sent == Batches(texts)[..|sent|];
          result := Failure(RemoteError(cause));
          assert RemoteRows(remote, model, sent) == Failure(RemoteError(cause));
          RemoteRowsFailureSticks(remote, model, Batches(texts), |sent|);
          return;
        case Success(rows) =>
          sent := sent + [chunk];
          batched := batched + rows;
      }
      i := i + BatchSize;
    }
    assert sent == Batches(texts);
    result := ToMatrix(batched);
  }

  /** Once a prefix of the calls has failed, the whole run fails with that error. */
  lemma {:induction false} RemoteRowsFailureSticks(remote: (string, seq<string>) -> Result<seq<Vector>, string>, model: string, batches: seq<seq<string>>, k: nat)
    requires k <= |batches| && RemoteRows(remote, model, batches[..k]).Failure?
    ensures RemoteRows(remote, model, batches) == RemoteRows(remote, model, batches[..k])
    decreases |batches| - k
  {
    if k < |batches| {
      assert batches[..k + 1][..k] == batches[..k];
      RemoteRowsFailureSticks(remote, model, batches, k + 1);
    } else {
      assert batches[..k] == batches;
    }
  }

  /** The batches cut the texts into consecutive runs of 1 to 20 that concatenate back to them. */
  lemma {:induction false} BatchesPartition(texts: seq<string>)
    ensures |Batches(texts)| == NumBatches(|texts|)
    ensures forall b :: 0 <= b < |Batches(texts)| ==> 1 <= |Batches(texts)[b]| <= BatchSize
    ensures Concat(Batches(texts)) == texts
  {
    var bs := Batches(texts);
    ConcatBatchesPrefix(texts, |bs|);
    assert bs[..|bs|] == bs;
    assert Min(|texts|, BatchSize * |bs|) == |texts|;
    assert texts[..|texts|] == texts;
    forall b | 0 <= b < |bs|
      ensures 1 <= |bs[b]| <= BatchSize
    {
      BatchStartsInRange(|texts|, b);
    }
  }

  lemma {:induction false} ConcatBatchesPrefix(texts: seq<string>, k: nat)
    requires k <= NumBatches(|texts|)
    ensures Concat(Batches(texts)[..k]) == texts[..Min(|texts|, BatchSize * k)]
  {
    var bs := Batches(texts);
    if k > 0 {
      assert bs[..k][..k - 1] == bs[..k - 1];
      ConcatBatchesPrefix(texts, k - 1);
      BatchStartsInRange(|texts|, k - 1);
      assert texts[..BatchSize * (k - 1)] + Batch(texts, k - 1) == texts[..Min(|texts|, BatchSize * k)];
    }
  }

  /** The rows a service that embeds each input on its own returns, one per input, in order. */
  function EmbedEach(embed: string -> Vector, inputs: seq<string>): (rows: seq<Vector>)
    ensures |rows| == |inputs| && forall i :: 0 <= i < |inputs| ==> rows[i] == embed(inputs[i])
  {
    seq(|inputs|, i requires 0 <= i < |inputs| => embed(inputs[i]))
  }

  /** When every call embeds input by input, the run's rows are those of the concatenated inputs. */
  lemma {:induction false} RemoteRowsPointwise(remote: (string, seq<string>) -> Result<seq<Vector>, string>, model: string,
                                               batches: seq<seq<string>>, embed: string -> Vector)
    requires forall b :: 0 <= b < |batches| ==> remote(model, batches[b]) == Success(EmbedEach(embed, batches[b]))
    ensures RemoteRows(remote, model, batches) == Success(EmbedEach(embed, Concat(batches)))
  {
    if batches != [] {
      var init := batches[..|batches| - 1];
      assert forall b :: 0 <= b < |init| ==> init[b] == batches[b];
      RemoteRowsPointwise(remote, model, init, embed);
      var a, last := Concat(init), batches[|batches| - 1];
      assert Concat(batches) == a + last;
      assert EmbedEach(embed, a) + EmbedEach(embed, last) == EmbedEach(embed, a + last);
    }
  }

  /**
   * Batching is invisible when the service embeds each input on its own:
   * the rows are the texts' embeddings in input order, one per text.
   */
  lemma {:induction false} OpenAIInInputOrder(remote: (string, seq<string>) -> Result<seq<Vector>, string>, model: string,
                                              texts: seq<string>, embed: string -> Vector)
    requires forall batch: seq<string> :: remote(model, batch) == Success(EmbedEach(embed, batch))
    ensures RemoteRows(remote, model, Batches(texts)) == Success(EmbedEach(embed, texts))
  {
    BatchesPartition(texts);
    RemoteRowsPointwise(remote, model, Batches(texts), embed);
  }

  // ---------------------------------------------------------------- selection

  /** The backend generate_embeddings uses: the first condition that holds, in this order. */
  function SelectBackend(cfg: Config, texts: seq<string>): (b: Backend)
    ensures b == NoBackend <==> texts == []
    ensures b == FakeBackend <==> texts != [] && FakeEnabled(cfg)
    ensures b == OpenAIBackend <==> texts != [] && !FakeEnabled(cfg) && HasAPIKey(cfg)
    ensures b == LocalBackend <==> texts != [] && !FakeEnabled(cfg) && !HasAPIKey(cfg)
  {
    if texts == [] then NoBackend
    else if FakeEnabled(cfg) then FakeBackend
    else if HasAPIKey(cfg) then OpenAIBackend
    else LocalBackend
  }

  /** The label each backend reports. */
  function BackendLabel(b: Backend, cfg: Config): string {
    match b
    case NoBackend => LocalModelName
    case FakeBackend => FakeModelName
    case OpenAIBackend => OpenAIModel(cfg)
    case LocalBackend => LocalModelName
  }

  /** What generate_embeddings returns, or the error it raises. */
  function Generated(cfg: Config, backends: Backends, texts: seq<string>): (r: Result<Embedded, Error>)
    ensures texts == [] ==> r == Success(Embedded(LocalModelName, Matrix([], FakeDimension)))
    ensures r.Success? ==> r.value.model == BackendLabel(SelectBackend(cfg, texts), cfg)
    ensures SelectBackend(cfg, texts) == FakeBackend ==>
      r.Success? && |r.value.vectors.rows| == |texts| && r.value.vectors.width == FakeDimension
      && WellShaped(r.value.vectors)
      && forall i :: 0 <= i < |texts| ==> r.value.vectors.rows[i] == FakeRow(backends.fakeComponent, texts[i])
    ensures SelectBackend(cfg, texts) == OpenAIBackend ==>
      (r.Success? <==> OpenAIEmbeddings(backends.remote, OpenAIModel(cfg), texts).Success?)
      && (r.Success? ==> r.value.vectors == OpenAIEmbeddings(backends.remote, OpenAIModel(cfg), texts).value)
      && (r.Failure? ==> r.error == OpenAIEmbeddings(backends.remote, OpenAIModel(cfg), texts).error)
    ensures SelectBackend(cfg, texts) == LocalBackend ==>
      (r.Success? <==> backends.local(texts).Success?)
      && (r.Success? ==> r.value.vectors == backends.local(texts).value)
      && (r.Failure? ==> r.error == LocalModelUnavailable(LocalFailureMessage, backends.local(texts).error))
    ensures r.Failure? ==> SelectBackend(cfg, texts) in {OpenAIBackend, LocalBackend}
  {
    match SelectBackend(cfg, texts)
    case NoBackend => Success(Embedded(LocalModelName, Matrix([], FakeDimension)))
    case FakeBackend => Success(Embedded(FakeModelName, FakeMatrix(backends.fakeComponent, texts)))
    case OpenAIBackend =>
      (match OpenAIEmbeddings(backends.remote, OpenAIModel(cfg), texts)
       case Failure(e) => Failure(e)
       case Success(m) => Success(Embedded(OpenAIModel(cfg), m)))
    case LocalBackend =>
      (match backends.local(texts)
       case Failure(cause) => Failure(LocalModelUnavailable(LocalFailureMessage, cause))
       case Success(m) => Success(Embedded(LocalModelName, m)))
  }

  /** generate_embeddings: pick the backend and run it. */
  method GenerateEmbeddings(cfg: Config, backends: Backends, texts: seq<string>) returns (r: Result<Embedded, Error>)
    ensures r == Generated(cfg, backends, texts)
  {
    if texts == [] {
      return Success(Embedded(LocalModelName, Matrix([], FakeDimension)));
    }
    if cfg.fakeFlag == Some("1") {
      var m := EmbedWithFakeVectors(backends.fakeComponent, texts);
      return Success(Embedded(FakeModelName, m));
    }
    if cfg.openAIKey.Some? && cfg.openAIKey.value != "" {
      var res, _ := EmbedWithOpenAI(backends.remote, OpenAIModel(cfg), texts);
      match res {
        case Failure(e) => return Failure(e);
        case Success(m) => return Success(Embedded(OpenAIModel(cfg), m));
      }
    }
    var local := backends.local(texts);
    match local {
      case Failure(cause) => r := Failure(LocalModelUnavailable(LocalFailureMessage, cause));
      case Success(m) => r := Success(Embedded(LocalModelName, m));
    }
  }

  /** No text: the same empty result whatever the environment and whatever the backends would do. */
  lemma {:induction false} EmptyInputCallsNoBackend(c1: Config, c2: Config, b1: Backends, b2: Backends)
    ensures Generated(c1, b1, []) == Generated(c2, b2, [])
  {
  }

  /** With the fake flag the result does not depend on the key, the model name or the other backends. */
  lemma {:induction false} FakeIgnoresOtherBackends(c1: Config, c2: Config, b1: Backends, b2: Backends, texts: seq<string>)
    requires texts != [] && FakeEnabled(c1) && FakeEnabled(c2) && b1.fakeComponent == b2.fakeComponent
    ensures Generated(c1, b1, texts) == Generated(c2, b2, texts)
  {
  }

  /** The local-model failure message names the deterministic fallback RAG_FAKE_EMBEDDINGS=1. */
  lemma {:induction false} LocalFailureNamesFallback()
    ensures Contains(LocalFailureMessage, FakeEnvFlag + "=1")
  {
    var head := "Failed to load the local embedding model. Ensure huggingface downloads are available or set ";
    var tail := " for deterministic test embeddings.";
    var flag := FakeEnvFlag + "=1";
    assert LocalFailureMessage == head + flag + tail;
    assert LocalFailureMessage[|head|..|head| + |flag|] == flag;
    ContainsAt(LocalFailureMessage, flag, |head|);
  }

  /**
   * The local path never returns vectors it did not get: a failing local
   * model ends the call with the error that names RAG_FAKE_EMBEDDINGS=1,
   * and a succeeding one returns exactly its own matrix under its own name.
   */
  lemma {:induction false} LocalPathOutcome(cfg: Config, backends: Backends, texts: seq<string>)
    requires texts != [] && !FakeEnabled(cfg) && !HasAPIKey(cfg)
    ensures backends.local(texts).Failure? ==>
      Generated(cfg, backends, texts).Failure?
      && Contains(Generated(cfg, backends, texts).error.message, FakeEnvFlag + "=1")
    ensures backends.local(texts).Success? ==>
      Generated(cfg, backends, texts) == Success(Embedded(LocalModelName, backends.local(texts).value))
  {
    LocalFailureNamesFallback();
  }

  /** Calls that all answer with no data collect no rows. */
  lemma {:induction false} EmptyRepliesNoRows(remote: (string, seq<string>) -> Result<seq<Vector>, string>, model: string,
                                              batches: seq<seq<string>>)
    requires forall batch: seq<string> :: remote(model, batch) == Success([])
    ensures RemoteRows(remote, model, batches) == Success([])
  {
    if batches != [] {
      EmptyRepliesNoRows(remote, model, batches[..|batches| - 1]);
      assert remote(model, batches[|batches| - 1]) == Success([]);
      var none: seq<Vector> := [];
      assert none + none == none;
    }
  }

  /**
   * The only way generate_embeddings ends without a second axis: the OpenAI
   * path, with calls that all succeeded and returned no rows between them.
   */
  lemma {:induction false} NoSecondAxisOnlyFromEmptyReplies(cfg: Config, backends: Backends, texts: seq<string>)
    ensures Generated(cfg, backends, texts) == Failure(NoSecondAxis) <==>
      SelectBackend(cfg, texts) == OpenAIBackend
      && RemoteRows(backends.remote, OpenAIModel(cfg), Batches(texts)) == Success([])
  {
    var rows := RemoteRows(backends.remote, OpenAIModel(cfg), Batches(texts));
    if SelectBackend(cfg, texts) == OpenAIBackend {
      if rows.Success? {
        assert OpenAIEmbeddings(backends.remote, OpenAIModel(cfg), texts) == ToMatrix(rows.value);
      } else {
        assert OpenAIEmbeddings(backends.remote, OpenAIModel(cfg), texts) == Failure(rows.error);
      }
    }
  }
}
