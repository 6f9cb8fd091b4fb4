/** The ingestion script: refuse to run without its four settings, read and
    split the PDF, refuse an empty split, drop empty metadata values, number
    the chunks `doc-0 … doc-(n-1)` and hand them to the vector store. The
    loader/splitter is a parameter. */
module Ingest {
  import opened Wrappers
  import opened Text
  import opened Errors
  import opened Config
  import opened Metadata

  /** A split chunk: its text and the metadata the loader attached. */
  datatype Doc = Doc(content: string, metadata: Meta)

  /** `PyPDFLoader(path).load()` followed by `split_documents`: the chunks, or
      what reading the file raised. */
  type Splitter = string -> Result<seq<Doc>, Failure>

  /** The settings the script checks when it is loaded, in checking order. */
  const Required: seq<string> := ["OPENAI_API_KEY", "DATABASE_URL", "PGVECTOR_COLLECTION", "PDF_PATH"]

  datatype Settings = Settings(pdfPath: string, collection: string, connection: string, embeddingModel: string)

  /** What `store.add_documents(documents=enriched, ids=ids)` receives, with
      the store it goes to. */
  datatype StoreRequest = StoreRequest(docs: seq<Doc>, ids: seq<string>, settings: Settings)

  /** The module-level check, then the settings `ingest_pdf` reads; the
      embedding model comes from `OPENAI_MODEL`. */
  function LoadSettings(env: Env): (r: Result<Settings, Failure>)
    ensures r.Success? <==> && IsSet(env, "OPENAI_API_KEY") && IsSet(env, "DATABASE_URL")
                            && IsSet(env, "PGVECTOR_COLLECTION") && IsSet(env, "PDF_PATH")
    ensures r.Success? ==> r.value.pdfPath == env["PDF_PATH"] && r.value.collection == env["PGVECTOR_COLLECTION"]
  {
    match CheckRequired(env, Required)
    case Failure(e) => Failure(e)
    case Success(_) =>
      assert IsSet(env, Required[1]) && IsSet(env, Required[2]) && IsSet(env, Required[3]);
      Success(Settings(env["PDF_PATH"], env["PGVECTOR_COLLECTION"], env["DATABASE_URL"],
                       GetEnv(env, "OPENAI_MODEL", DefaultEmbeddingModel)))
  }

  /** The error names the first unset setting in the order API key, database
      URL, collection, PDF path. */
  lemma LoadSettingsReportsFirstUnset(env: Env, i: nat)
    requires i < |Required|
    requires forall j :: 0 <= j < i ==> IsSet(env, Required[j])
    requires !IsSet(env, Required[i])
    ensures LoadSettings(env) == Failure(MissingSetting(Required[i]))
  {
    CheckRequiredNamesFirstUnset(env, Required, i);
  }

  /** The embedding model is `OPENAI_MODEL` whenever that is present, even
      when it is empty, and the default only when it is absent. */
  lemma LoadSettingsEmbeddingModel(env: Env)
    requires LoadSettings(env).Success?
    ensures "OPENAI_MODEL" !in env ==> LoadSettings(env).value.embeddingModel == "text-embedding-3-small"
    ensures "OPENAI_MODEL" in env ==> LoadSettings(env).value.embeddingModel == env["OPENAI_MODEL"]
  {
  }

  /** `v in ("", None)`: the values the metadata filter drops. */
  predicate Dropped(v: Value) {
    v == Str("") || v == Null
  }

  /** `{k: v for k, v in d.metadata.items() if v not in ("", None)}`. */
  function CleanMetadata(meta: Meta): (r: Meta)
    ensures forall k :: k in r ==> k in meta && r[k] == meta[k]
  {
    map k | k in meta && !Dropped(meta[k]) :: meta[k]
  }

  /** The entries the filter removed. */
  function DroppedEntries(meta: Meta): Meta {
    map k | k in meta && Dropped(meta[k]) :: meta[k]
  }

  /** The filter splits the metadata in two: what it keeps and what it drops
      together give back the original, the two share no name, everything
      dropped is `""` or `None` and nothing kept is. */
  lemma CleanMetadataPartition(meta: Meta)
    ensures CleanMetadata(meta) + DroppedEntries(meta) == meta
    ensures CleanMetadata(meta).Keys !! DroppedEntries(meta).Keys
    ensures forall k :: k in DroppedEntries(meta) ==> Dropped(DroppedEntries(meta)[k])
    ensures forall k :: k in CleanMetadata(meta) ==> !Dropped(CleanMetadata(meta)[k])
  {
    var u := CleanMetadata(meta) + DroppedEntries(meta);
    assert u.Keys == meta.Keys;
    assert forall k :: k in u ==> u[k] == meta[k];
  }

  /** Falsy values other than `""` and `None` survive the filter: a page 0
      or a `False` flag is kept. */
  lemma CleanMetadataKeepsFalsyValues(meta: Meta, k: string)
    requires k in meta && (meta[k] == Int(0) || meta[k] == Bool(false))
    ensures k in CleanMetadata(meta) && CleanMetadata(meta)[k] == meta[k]
  {
  }

  /** Filtering twice is filtering once. */
  lemma CleanMetadataIdempotent(meta: Meta)
    ensures CleanMetadata(CleanMetadata(meta)) == CleanMetadata(meta)
  {
  }

  /** The `enriched` list: same chunks, same order, cleaned metadata. */
  function Enrich(splits: seq<Doc>): seq<Doc>
  {
    seq(|splits|, i requires 0 <= i < |splits| => Doc(splits[i].content, CleanMetadata(splits[i].metadata)))
  }

  /** `f"doc-{i}"`. */
  function DocId(i: nat): string {
    "doc-" + NatToString(i)
  }

  /** `[f"doc-{i}" for i in range(n)]`. */
  function Ids(n: nat): seq<string>
  {
    seq(n, i requires 0 <= i < n => DocId(i))
  }

  /** Different positions get different ids. */
  lemma DocIdInjective(i: nat, j: nat)
    requires DocId(i) == DocId(j)
    ensures i == j
  {
    assert DocId(i)[4..] == NatToString(i);
    assert DocId(j)[4..] == NatToString(j);
    NatToStringInjective(i, j);
  }

  /** The ids are pairwise distinct, so no chunk of the request overwrites another. */
  lemma IdsDistinct(n: nat)
    ensures forall i, j :: 0 <= i < j < n ==> Ids(n)[i] != Ids(n)[j]
  {
    forall i, j | 0 <= i < j < n
      ensures Ids(n)[i] != Ids(n)[j]
    {
      if Ids(n)[i] == Ids(n)[j] {
        DocIdInjective(i, j);
      }
    }
  }

  /** `ingest_pdf` (preceded by the check done when the script is loaded). */
  function IngestPdf(env: Env, split: Splitter): (r: Result<StoreRequest, Failure>)
    ensures r.Success? ==> |r.value.docs| == |r.value.ids| > 0
    ensures r.Success? ==> forall i :: 0 <= i < |r.value.ids| ==> r.value.ids[i] == DocId(i)
  {
    match LoadSettings(env)
    case Failure(e) => Failure(e)
    case Success(settings) =>
      match split(settings.pdfPath)
      case Failure(e) => Failure(e)
      case Success(splits) =>
        if |splits| == 0 then Failure(NoSplits)
        else
          var enriched := Enrich(splits);
          Success(StoreRequest(enriched, Ids(|enriched|), settings))
  }

  /** A missing setting stops the script before the PDF is read. */
  lemma IngestChecksSettingsFirst(env: Env, s1: Splitter, s2: Splitter)
    requires LoadSettings(env).Failure?
    ensures IngestPdf(env, s1) == IngestPdf(env, s2) == Failure(LoadSettings(env).error)
  {
  }

  /** An empty split is an error and nothing reaches the store; otherwise the
      request handed to the store carries every chunk once, in order, with its
      text unchanged, its metadata filtered and its own distinct id. */
  lemma IngestOutcome(env: Env, split: Splitter)
    requires LoadSettings(env).Success?
    requires split(LoadSettings(env).value.pdfPath).Success?
    ensures |split(LoadSettings(env).value.pdfPath).value| == 0 <==> IngestPdf(env, split) == Failure(NoSplits)
    ensures |split(LoadSettings(env).value.pdfPath).value| > 0 ==>
      var splits := split(LoadSettings(env).value.pdfPath).value;
      var r := IngestPdf(env, split);
      && r.Success?
      && |r.value.docs| == |splits|
      && (forall i :: 0 <= i < |splits| ==>
            r.value.docs[i] == Doc(splits[i].content, CleanMetadata(splits[i].metadata)))
      && (forall i, j :: 0 <= i < j < |splits| ==> r.value.ids[i] != r.value.ids[j])
  {
    var splits := split(LoadSettings(env).value.pdfPath).value;
    IdsDistinct(|splits|);
  }
}
