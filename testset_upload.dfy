/** The two reshaping loops of the test-set upload scripts: copying each loaded
    document's `source` metadata into a `filename` key, in place, and turning the
    generated test records into the three parallel lists (`inputs`, `outputs`,
    `metadatas`) that a bulk example upload takes. */
module TestsetUpload {
  import opened Wrappers
  import opened Loader

  // ---------------------------------------------------------------------------
  // Copying `source` into `filename`
  // ---------------------------------------------------------------------------

  const SourceKey: string := "source"
  const FilenameKey: string := "filename"

  /** `document.metadata["filename"] = document.metadata["source"]` for one document. */
  function WithFilename(d: Document): (r: Document)
    requires SourceKey in d.metadata
    ensures r.pageContent == d.pageContent
    ensures FilenameKey in r.metadata && r.metadata[FilenameKey] == d.metadata[SourceKey]
  {
    d.(metadata := d.metadata[FilenameKey := d.metadata[SourceKey]])
  }

  /** The copy adds `filename` holding the `source` value and changes nothing else. */
  lemma WithFilenameEffect(d: Document)
    requires SourceKey in d.metadata
    ensures WithFilename(d).pageContent == d.pageContent
    ensures WithFilename(d).metadata.Keys == d.metadata.Keys + {FilenameKey}
    ensures WithFilename(d).metadata[FilenameKey] == WithFilename(d).metadata[SourceKey] == d.metadata[SourceKey]
    ensures forall key :: key in d.metadata && key != FilenameKey ==> WithFilename(d).metadata[key] == d.metadata[key]
  {
  }

  /** Doing the copy twice is the same as doing it once. */
  lemma WithFilenameIdempotent(d: Document)
    requires SourceKey in d.metadata
    ensures WithFilename(WithFilename(d)) == WithFilename(d)
  {
    var once := WithFilename(d);
    assert once.metadata[SourceKey] == d.metadata[SourceKey];
    assert WithFilename(once).metadata == once.metadata;
  }

  /** The index of the first document without a `source` key, or the length if
      every document has one. */
  function FirstMissingSource(docs: seq<Document>): (n: nat)
    ensures n <= |docs|
    ensures forall i :: 0 <= i < n ==> SourceKey in docs[i].metadata
    ensures n < |docs| ==> SourceKey !in docs[n].metadata
  {
    if |docs| == 0 || SourceKey !in docs[0].metadata then 0 else 1 + FirstMissingSource(docs[1..])
  }

  /** `WithFilename` applied to each document. */
  function WithFilenames(docs: seq<Document>): (r: seq<Document>)
    requires forall i :: 0 <= i < |docs| ==> SourceKey in docs[i].metadata
    ensures |r| == |docs|
    ensures forall i :: 0 <= i < |docs| ==> r[i] == WithFilename(docs[i])
  {
    seq(|docs|, i requires 0 <= i < |docs| => WithFilename(docs[i]))
  }

  /** `for document in documents: ...` over the loaded list. The documents are
      updated in place; the first one without `source` raises KeyError, leaving
      the earlier ones updated and the rest untouched. */
  method CopySourceToFilename(documents: array<Document>) returns (r: Result<()>)
    modifies documents
    ensures var n := FirstMissingSource(old(documents[..]));
            documents[..] == WithFilenames(old(documents[..])[..n]) + old(documents[..])[n..]
    ensures r.Ok? <==> FirstMissingSource(old(documents[..])) == documents.Length
    ensures r.Err? ==> r.error == KeyError
  {
    ghost var original := documents[..];
    ghost var n := FirstMissingSource(original);
    FirstMissingSourceIsFirst(original);
    var i := 0;
    while i < documents.Length
      invariant 0 <= i <= n
      invariant forall j :: 0 <= j < i ==> documents[j] == WithFilename(original[j])
      invariant forall j :: i <= j < documents.Length ==> documents[j] == original[j]
    {
      if SourceKey !in documents[i].metadata {
        r := Err(KeyError);
        break;
      }
      documents[i] := WithFilename(documents[i]);
      i := i + 1;
    }
    if i == documents.Length {
      r := Ok(());
    }
    assert documents[..] == WithFilenames(original[..n]) + original[n..];
  }

  /** No document before a missing `source` is skipped over by `FirstMissingSource`. */
  lemma {:induction false} FirstMissingSourceIsFirst(docs: seq<Document>)
    ensures forall i :: 0 <= i < |docs| && SourceKey !in docs[i].metadata ==> FirstMissingSource(docs) <= i
    decreases |docs|
  {
    if |docs| > 0 && SourceKey in docs[0].metadata {
      FirstMissingSourceIsFirst(docs[1..]);
      forall i | 0 <= i < |docs| && SourceKey !in docs[i].metadata ensures FirstMissingSource(docs) <= i {
        assert docs[1..][i - 1] == docs[i];
      }
    }
  }

  /** When every document has a `source`, afterwards every document has
      `filename == source`, no other key changed, and the count is the same. */
  lemma CopyComplete(docs: seq<Document>)
    requires forall i :: 0 <= i < |docs| ==> SourceKey in docs[i].metadata
    ensures FirstMissingSource(docs) == |docs|
    ensures var out := WithFilenames(docs);
            |out| == |docs|
            && forall i :: 0 <= i < |docs| ==>
                 out[i].pageContent == docs[i].pageContent
                 && out[i].metadata[FilenameKey] == out[i].metadata[SourceKey]
                 && (forall key :: key in docs[i].metadata && key != FilenameKey ==> out[i].metadata[key] == docs[i].metadata[key])
  {
    FirstMissingSourceIsFirst(docs);
  }

  // ---------------------------------------------------------------------------
  // Records to examples
  // ---------------------------------------------------------------------------

  /** A generated test record. */
  datatype TestsetRecord = TestsetRecord(
    question: string,
    contexts: seq<string>,
    groundTruth: string,
    metadata: seq<map<string, string>>,
    evolutionType: string)

  /** A value in an example dict: a string or a list of strings. */
  datatype Value = Str(s: string) | StrList(items: seq<string>)

  /** `{"question": record.question}`. */
  function InputOf(rec: TestsetRecord): (r: map<string, Value>)
    ensures r.Keys == {"question"} && r["question"] == Str(rec.question)
  {
    map["question" := Str(rec.question)]
  }

  /** `{"contexts": record.contexts, "ground_truth": record.ground_truth}`. */
  function OutputOf(rec: TestsetRecord): (r: map<string, Value>)
    ensures r.Keys == {"contexts", "ground_truth"}
    ensures r["contexts"] == StrList(rec.contexts) && r["ground_truth"] == Str(rec.groundTruth)
  {
    map["contexts" := StrList(rec.contexts), "ground_truth" := Str(rec.groundTruth)]
  }

  /** The record's first metadata entry exists and has a source. */
  predicate HasSource(rec: TestsetRecord) {
    |rec.metadata| > 0 && SourceKey in rec.metadata[0]
  }

  /** `{"source": record.metadata[0]["source"], "evolution_type": ...}`: an empty
      metadata list raises IndexError, a first entry without `source` KeyError. */
  function MetadataOf(rec: TestsetRecord): (r: Result<map<string, Value>>)
    ensures r.Ok? <==> HasSource(rec)
  {
    if |rec.metadata| == 0 then Err(IndexError)
    else if SourceKey !in rec.metadata[0] then Err(KeyError)
    else Ok(map["source" := Str(rec.metadata[0][SourceKey]), "evolution_type" := Str(rec.evolutionType)])
  }

  /** The input holds only the question, the output only the contexts and the
      ground truth, and the metadata only the first entry's source and the
      evolution type; the metadata fails exactly as indexing does in Python. */
  lemma ExampleShape(rec: TestsetRecord)
    ensures InputOf(rec).Keys == {"question"} && InputOf(rec)["question"] == Str(rec.question)
    ensures OutputOf(rec).Keys == {"contexts", "ground_truth"}
    ensures OutputOf(rec)["contexts"] == StrList(rec.contexts) && OutputOf(rec)["ground_truth"] == Str(rec.groundTruth)
    ensures |rec.metadata| == 0 ==> MetadataOf(rec) == Err(IndexError)
    ensures |rec.metadata| > 0 && SourceKey !in rec.metadata[0] ==> MetadataOf(rec) == Err(KeyError)
    ensures MetadataOf(rec).Ok? ==>
              MetadataOf(rec).value.Keys == {"source", "evolution_type"}
              && MetadataOf(rec).value["source"] == Str(rec.metadata[0][SourceKey])
              && MetadataOf(rec).value["evolution_type"] == Str(rec.evolutionType)
  {
  }

  /** Appending record `i`'s input and output keeps both lists in step with the
      records. */
  lemma AppendExample(records: seq<TestsetRecord>, i: nat,
                      inputs: seq<map<string, Value>>, outputs: seq<map<string, Value>>)
    requires i < |records| && |inputs| == i && |outputs| == i
    requires forall j :: 0 <= j < i ==> inputs[j] == InputOf(records[j]) && outputs[j] == OutputOf(records[j])
    ensures forall j :: 0 <= j < i + 1 ==>
              (inputs + [InputOf(records[i])])[j] == InputOf(records[j])
              && (outputs + [OutputOf(records[i])])[j] == OutputOf(records[j])
  {
  }

  /** The number of leading records whose metadata can be built. */
  function Buildable(records: seq<TestsetRecord>): (n: nat)
    ensures n <= |records|
    ensures forall i :: 0 <= i < n ==> HasSource(records[i])
    ensures n < |records| ==> !HasSource(records[n])
  {
    if |records| == 0 || !HasSource(records[0]) then 0 else 1 + Buildable(records[1..])
  }

  lemma {:induction false} BuildableIsFirst(records: seq<TestsetRecord>)
    ensures forall i :: 0 <= i < |records| && !HasSource(records[i]) ==> Buildable(records) <= i
    decreases |records|
  {
    if |records| > 0 && HasSource(records[0]) {
      BuildableIsFirst(records[1..]);
      forall i | 0 <= i < |records| && !HasSource(records[i]) ensures Buildable(records) <= i {
        assert records[1..][i - 1] == records[i];
      }
    }
  }

  /** The reshaping loop. Each iteration appends to `inputs`, then to `outputs`,
      then builds the metadata; when that raises, the failing record's input and
      output are already appended but its metadata is not. */
  method BuildExamples(records: seq<TestsetRecord>)
    returns (inputs: seq<map<string, Value>>, outputs: seq<map<string, Value>>,
             metadatas: seq<map<string, Value>>, r: Result<()>)
    ensures var n := Buildable(records);
            var appended := if n < |records| then n + 1 else n;
            |inputs| == appended && |outputs| == appended && |metadatas| == n
            && (forall i :: 0 <= i < appended ==> inputs[i] == InputOf(records[i]) && outputs[i] == OutputOf(records[i]))
            && (forall i :: 0 <= i < n ==> Ok(metadatas[i]) == MetadataOf(records[i]))
            && (r.Ok? <==> n == |records|)
            && (r.Err? ==> r.error == MetadataOf(records[n]).error)
  {
    BuildableIsFirst(records);
    inputs, outputs, metadatas := [], [], [];
    var i := 0;
    while i < |records|
      invariant 0 <= i <= Buildable(records)
      invariant |inputs| == i && |outputs| == i && |metadatas| == i
      invariant forall j :: 0 <= j < i ==> inputs[j] == InputOf(records[j]) && outputs[j] == OutputOf(records[j])
      invariant forall j :: 0 <= j < i ==> Ok(metadatas[j]) == MetadataOf(records[j])
    {
      var rec := records[i];
      AppendExample(records, i, inputs, outputs);
      inputs := inputs + [InputOf(rec)];
      outputs := outputs + [OutputOf(rec)];
      var m := MetadataOf(rec);
      if m.Err? {
        return inputs, outputs, metadatas, Err(m.error);
      }
      metadatas := metadatas + [m.value];
      i := i + 1;
    }
    r := Ok(());
  }

  /** What an uploaded example keeps of its record. */
  datatype RecordView = RecordView(question: string, contexts: seq<string>, groundTruth: string,
                                   source: string, evolutionType: string)

  function ViewOf(rec: TestsetRecord): RecordView
    requires |rec.metadata| > 0 && SourceKey in rec.metadata[0]
  {
    RecordView(rec.question, rec.contexts, rec.groundTruth, rec.metadata[0][SourceKey], rec.evolutionType)
  }

  /** Read an example's three dicts back, if they have the expected shape. */
  function ReadExample(input: map<string, Value>, output: map<string, Value>, meta: map<string, Value>): Option<RecordView> {
    if "question" in input && input["question"].Str?
       && "contexts" in output && output["contexts"].StrList?
       && "ground_truth" in output && output["ground_truth"].Str?
       && "source" in meta && meta["source"].Str?
       && "evolution_type" in meta && meta["evolution_type"].Str?
    then Some(RecordView(input["question"].s, output["contexts"].items, output["ground_truth"].s,
                         meta["source"].s, meta["evolution_type"].s))
    else None
  }

  /** Every example built from a complete record reads back as that record: no
      field is lost or swapped on the way to the upload. */
  lemma ExampleRoundTrip(rec: TestsetRecord)
    requires |rec.metadata| > 0 && SourceKey in rec.metadata[0]
    ensures MetadataOf(rec).Ok?
    ensures ReadExample(InputOf(rec), OutputOf(rec), MetadataOf(rec).value) == Some(ViewOf(rec))
  {
  }

  /** With well-formed records no iteration raises, so `BuildExamples` returns Ok
      with one entry per record in each of the three lists. */
  lemma AllRecordsUploaded(records: seq<TestsetRecord>)
    requires forall i :: 0 <= i < |records| ==> |records[i].metadata| > 0 && SourceKey in records[i].metadata[0]
    ensures Buildable(records) == |records|
  {
    BuildableIsFirst(records);
  }
}
