/**
  The extraction pipeline (bank2tax/core/pipeline.py): for each PDF path in
  order, convert it to markdown, optionally record `<stem>.md`, ask the extractor
  for JSON, validate it into a document, and accumulate the documents and the
  flat list of their accounts. The first exception ends the run; there is no
  skip, no retry and no partial result.
 */
module Pipeline {
  import opened Wrappers
  import opened Schema
  import Paths
  import Extractor

  // ---------------------------------------------------------------------------
  // Accounts of a list of documents
  // ---------------------------------------------------------------------------

  /** The number of accounts over all documents. */
  function AccountCount(docs: seq<ExtractedDocument>): nat
  {
    if docs == [] then 0 else AccountCount(docs[..|docs| - 1]) + |docs[|docs| - 1].accounts|
  }

  /** The accounts of all documents, document by document, each in its own order. */
  function Flatten(docs: seq<ExtractedDocument>): (accounts: seq<ExtractedAccount>)
    ensures |accounts| == AccountCount(docs)
  {
    if docs == [] then [] else Flatten(docs[..|docs| - 1]) + docs[|docs| - 1].accounts
  }

  /** Flattening distributes over concatenation of the document list. */
  lemma {:induction false} FlattenAppend(a: seq<ExtractedDocument>, b: seq<ExtractedDocument>)
    ensures Flatten(a + b) == Flatten(a) + Flatten(b)
    decreases |b|
  {
    if b == [] {
      assert a + b == a;
    } else {
      var b', last := b[..|b| - 1], b[|b| - 1];
      assert (a + b)[..|a + b| - 1] == a + b';
      FlattenAppend(a, b');
      calc {
        Flatten(a + b);
        Flatten(a + b') + last.accounts;
        (Flatten(a) + Flatten(b')) + last.accounts;
        Flatten(a) + (Flatten(b') + last.accounts);
        Flatten(a) + Flatten(b);
      }
    }
  }

  /** Account `j` of document `i` sits in the flat list right after the accounts
      of documents `0..i-1`. */
  lemma {:induction false} FlattenAt(docs: seq<ExtractedDocument>, i: nat, j: nat)
    requires i < |docs| && j < |docs[i].accounts|
    ensures AccountCount(docs[..i]) + j < AccountCount(docs)
    ensures Flatten(docs)[AccountCount(docs[..i]) + j] == docs[i].accounts[j]
  {
    assert docs == docs[..i] + [docs[i]] + docs[i + 1..];
    FlattenAppend(docs[..i] + [docs[i]], docs[i + 1..]);
    FlattenAppend(docs[..i], [docs[i]]);
    assert Flatten([docs[i]]) == docs[i].accounts by {
      assert [docs[i]][..0] == [];
    }
    assert Flatten(docs) == Flatten(docs[..i]) + docs[i].accounts + Flatten(docs[i + 1..]);
  }

  /** A document without accounts contributes nothing to the flat list. */
  lemma EmptyDocumentContributesNothing(a: seq<ExtractedDocument>, d: ExtractedDocument, b: seq<ExtractedDocument>)
    requires d.accounts == []
    ensures Flatten(a + [d] + b) == Flatten(a + b)
  {
    FlattenAppend(a + [d], b);
    FlattenAppend(a, b);
  }

  // ---------------------------------------------------------------------------
  // PipelineResult and its table rows
  // ---------------------------------------------------------------------------

  /** One table row: a running id, the document's file name and the account's fields. */
  datatype Row = Row(
    rowId: nat,
    sourceFile: string,
    institution: Option<string>,
    currency: Option<string>,
    endingBalance: Option<Float>,
    accountNumber: Option<string>)

  function MakeRow(rowId: nat, sourceFile: string, a: ExtractedAccount): Row
  {
    Row(rowId, sourceFile, a.institution, a.currency, a.endingBalance, a.accountNumber)
  }

  /** The row shows exactly the four fields of the account. */
  predicate ShowsAccount(row: Row, a: ExtractedAccount)
  {
    row.institution == a.institution && row.currency == a.currency &&
    row.endingBalance == a.endingBalance && row.accountNumber == a.accountNumber
  }

  /** The rows of one document whose accounts are preceded by `offset` others:
      one row per account, in order, numbered from `offset + 1`. */
  function DocumentRows(offset: nat, d: ExtractedDocument): (rows: seq<Row>)
    ensures |rows| == |d.accounts|
    ensures forall j :: 0 <= j < |rows| ==> rows[j] == MakeRow(offset + j + 1, d.sourceFile, d.accounts[j])
  {
    seq(|d.accounts|, j requires 0 <= j < |d.accounts| => MakeRow(offset + j + 1, d.sourceFile, d.accounts[j]))
  }

  /** The table of a list of documents: their rows, document by document. */
  function TableRows(docs: seq<ExtractedDocument>): (rows: seq<Row>)
    ensures |rows| == AccountCount(docs)
  {
    if docs == [] then []
    else
      var prefix := docs[..|docs| - 1];
      TableRows(prefix) + DocumentRows(AccountCount(prefix), docs[|docs| - 1])
  }

  /** Row `k` is numbered `k + 1` and shows flat account `k`. */
  lemma {:induction false} TableRowsShowFlatten(docs: seq<ExtractedDocument>)
    ensures forall k :: 0 <= k < |TableRows(docs)| ==>
      TableRows(docs)[k].rowId == k + 1 && ShowsAccount(TableRows(docs)[k], Flatten(docs)[k])
  {
    if docs != [] {
      var prefix := docs[..|docs| - 1];
      TableRowsShowFlatten(prefix);
      var last := docs[|docs| - 1];
      var rows := TableRows(docs);
      forall k | 0 <= k < |rows|
        ensures rows[k].rowId == k + 1 && ShowsAccount(rows[k], Flatten(docs)[k])
      {
        var n := AccountCount(prefix);
        if k < n {
          assert rows[k] == TableRows(prefix)[k];
          assert Flatten(docs)[k] == Flatten(prefix)[k];
        } else {
          assert rows[k] == DocumentRows(n, last)[k - n];
          assert Flatten(docs)[k] == last.accounts[k - n];
        }
      }
    }
  }

  /** Account `j` of document `i` is shown by the row right after the rows of the
      documents before `i`, with that document's `source_file`. */
  lemma {:induction false} TableRowsOfDocument(docs: seq<ExtractedDocument>, i: nat, j: nat)
    requires i < |docs| && j < |docs[i].accounts|
    ensures AccountCount(docs[..i]) + j < |TableRows(docs)|
    ensures TableRows(docs)[AccountCount(docs[..i]) + j] ==
      MakeRow(AccountCount(docs[..i]) + j + 1, docs[i].sourceFile, docs[i].accounts[j])
  {
    var prefix := docs[..|docs| - 1];
    var k := AccountCount(docs[..i]) + j;
    if i < |docs| - 1 {
      assert prefix[..i] == docs[..i];
      TableRowsOfDocument(prefix, i, j);
      assert TableRows(docs)[k] == TableRows(prefix)[k];
    } else {
      assert prefix == docs[..i];
      assert TableRows(docs)[k] == DocumentRows(AccountCount(prefix), docs[i])[j];
    }
  }

  /** The outcome of a successful run. */
  datatype PipelineResult = PipelineResult(documents: seq<ExtractedDocument>, accounts: seq<ExtractedAccount>) {

    /** One row per account, document by document; ids run 1, 2, 3, ... */
    method ToTableRows() returns (rows: seq<Row>)
      ensures rows == TableRows(documents)
    {
      rows := [];
      var rowId := 0;
      for i := 0 to |documents|
        invariant rows == TableRows(documents[..i])
        invariant rowId == AccountCount(documents[..i])
      {
        var doc := documents[i];
        ghost var offset := rowId;
        for j := 0 to |doc.accounts|
          invariant rowId == offset + j
          invariant rows == TableRows(documents[..i]) + DocumentRows(offset, doc)[..j]
        {
          rowId := rowId + 1;
          rows := rows + [MakeRow(rowId, doc.sourceFile, doc.accounts[j])];
          assert DocumentRows(offset, doc)[..j + 1] == DocumentRows(offset, doc)[..j] + [DocumentRows(offset, doc)[j]];
        }
        assert documents[..i + 1][..i] == documents[..i];
        assert DocumentRows(offset, doc)[..|doc.accounts|] == DocumentRows(offset, doc);
      }
      assert documents[..|documents|] == documents;
    }
  }

  // ---------------------------------------------------------------------------
  // The output directory and the markdown it records
  // ---------------------------------------------------------------------------

  /** One `write_text` call: a file name in the output directory and its content. */
  datatype MdFile = MdFile(name: string, content: string)

  /** The files the log leaves behind: a later write to a name replaces an earlier one. */
  function DirectoryFiles(log: seq<MdFile>): map<string, string>
  {
    if log == [] then map[]
    else DirectoryFiles(log[..|log| - 1])[log[|log| - 1].name := log[|log| - 1].content]
  }

  /** A write that no later write to the same name follows is what the file holds. */
  lemma {:induction false} LastWriteWins(log: seq<MdFile>, k: nat)
    requires k < |log|
    requires forall j :: k < j < |log| ==> log[j].name != log[k].name
    ensures log[k].name in DirectoryFiles(log) && DirectoryFiles(log)[log[k].name] == log[k].content
  {
    if k < |log| - 1 {
      var log' := log[..|log| - 1];
      LastWriteWins(log', k);
    }
  }

  /** The output directory, seen through the writes made into it; a file is
      named relative to the directory. */
  class OutputDir {
    var written: seq<MdFile>

    constructor ()
      ensures written == []
    {
      written := [];
    }

    /** `(output_dir / name).write_text(content)`. */
    method WriteText(name: string, content: string)
      modifies this
      ensures written == old(written) + [MdFile(name, content)]
      ensures DirectoryFiles(written) == DirectoryFiles(old(written))[name := content]
    {
      written := written + [MdFile(name, content)];
      assert written[..|written| - 1] == old(written);
    }
  }

  // ---------------------------------------------------------------------------
  // run_pipeline
  // ---------------------------------------------------------------------------

  /** The calls the pipeline makes into other libraries: PDF conversion and
      strict parsing of the model's text into a document. Either may raise. */
  datatype Externals = Externals(
    pdfToMarkdown: string -> Result<string>,
    modelValidateJson: string -> Result<ExtractedDocument>)

  /** The markdown file recorded for a PDF: `<stem>.md`. */
  function MdFileName(path: string): string
  {
    Paths.Stem(path) + ".md"
  }

  /** What one turn of the loop yields for one path: its document, or the first
      exception among conversion, the request and validation. The run is stated
      for any `extract`; `run_pipeline` passes the agent's `Extract`. */
  function PathResult(path: string, extract: (string, string) -> Result<string>, ext: Externals): Result<ExtractedDocument>
  {
    match ext.pdfToMarkdown(path)
    case Failure(e) => Failure(e)
    case Success(markdown) =>
      match extract(markdown, Paths.Name(path))
      case Failure(e) => Failure(e)
      case Success(raw) => ext.modelValidateJson(raw)
  }

  /** What one turn of the loop writes: `<stem>.md` once the PDF is converted,
      and only when `save_md == 1`. */
  function PathWrites(path: string, ext: Externals, saveMd: int): seq<MdFile>
  {
    match ext.pdfToMarkdown(path)
    case Failure(_) => []
    case Success(markdown) => if saveMd == 1 then [MdFile(MdFileName(path), markdown)] else []
  }

  /** The result of the run over `paths`, stated on the prefix processed so far:
      a failed prefix is the result; otherwise the last path's document is
      appended and its accounts added, or its exception is the result. */
  function RunResult(paths: seq<string>, extract: (string, string) -> Result<string>, ext: Externals): Result<PipelineResult>
    decreases |paths|
  {
    if paths == [] then Success(PipelineResult([], []))
    else
      var before := RunResult(paths[..|paths| - 1], extract, ext);
      if before.Failure? then before
      else
        match PathResult(paths[|paths| - 1], extract, ext)
        case Failure(e) => Failure(e)
        case Success(doc) => Success(PipelineResult(before.value.documents + [doc], before.value.accounts + doc.accounts))
  }

  /** The markdown writes of the run over `paths`: a path is reached only when
      every path before it went through. */
  function RunWrites(paths: seq<string>, extract: (string, string) -> Result<string>, ext: Externals, saveMd: int): seq<MdFile>
    decreases |paths|
  {
    if paths == [] then []
    else
      var prefix := paths[..|paths| - 1];
      if RunResult(prefix, extract, ext).Failure? then RunWrites(prefix, extract, ext, saveMd)
      else RunWrites(prefix, extract, ext, saveMd) + PathWrites(paths[|paths| - 1], ext, saveMd)
  }

  /** Nothing is recorded unless `save_md == 1`; a successful run has one
      document per path, and its accounts are those of its documents, in order. */
  lemma {:induction false} RunShape(paths: seq<string>, extract: (string, string) -> Result<string>, ext: Externals, saveMd: int)
    ensures saveMd != 1 ==> RunWrites(paths, extract, ext, saveMd) == []
    ensures RunResult(paths, extract, ext).Success? ==>
      var r := RunResult(paths, extract, ext).value;
      |r.documents| == |paths| && r.accounts == Flatten(r.documents)
    decreases |paths|
  {
    if paths != [] {
      var prefix := paths[..|paths| - 1];
      RunShape(prefix, extract, ext, saveMd);
      var r := RunResult(paths, extract, ext);
      if r.Success? {
        var docs := r.value.documents;
        assert docs[..|docs| - 1] == RunResult(prefix, extract, ext).value.documents;
      }
    }
  }

  /** One more path after a prefix that went through: its exception ends the
      run, or its document is appended and its accounts added; its writes are
      appended either way. */
  lemma RunExtend(paths: seq<string>, i: nat, extract: (string, string) -> Result<string>, ext: Externals, saveMd: int)
    requires i < |paths|
    requires RunResult(paths[..i], extract, ext).Success?
    ensures var before := RunResult(paths[..i], extract, ext).value;
      RunResult(paths[..i + 1], extract, ext) ==
        match PathResult(paths[i], extract, ext)
        case Failure(e) => Failure(e)
        case Success(doc) => Success(PipelineResult(before.documents + [doc], before.accounts + doc.accounts))
    ensures RunWrites(paths[..i + 1], extract, ext, saveMd) ==
      RunWrites(paths[..i], extract, ext, saveMd) + PathWrites(paths[i], ext, saveMd)
  {
    assert paths[..i + 1][..i] == paths[..i];
  }

  /** Once a prefix of the paths has failed, the run is that failure: nothing
      later is converted, sent or written. */
  lemma {:induction false} RunFailureSticks(paths: seq<string>, i: nat, extract: (string, string) -> Result<string>, ext: Externals, saveMd: int)
    requires i <= |paths|
    requires RunResult(paths[..i], extract, ext).Failure?
    ensures RunResult(paths, extract, ext) == RunResult(paths[..i], extract, ext)
    ensures RunWrites(paths, extract, ext, saveMd) == RunWrites(paths[..i], extract, ext, saveMd)
    decreases |paths| - i
  {
    if i < |paths| {
      var prefix := paths[..|paths| - 1];
      assert prefix[..i] == paths[..i];
      RunFailureSticks(prefix, i, extract, ext, saveMd);
    } else {
      assert paths[..i] == paths;
    }
  }

  /** A path that fails after a prefix that went through ends the run with its
      exception, keeping the writes made so far. */
  lemma RunFailsAt(paths: seq<string>, i: nat, extract: (string, string) -> Result<string>, ext: Externals, saveMd: int)
    requires i < |paths|
    requires RunResult(paths[..i], extract, ext).Success?
    requires PathResult(paths[i], extract, ext).Failure?
    ensures RunResult(paths, extract, ext) == Failure(PathResult(paths[i], extract, ext).error)
    ensures RunWrites(paths, extract, ext, saveMd) ==
      RunWrites(paths[..i], extract, ext, saveMd) + PathWrites(paths[i], ext, saveMd)
  {
    RunExtend(paths, i, extract, ext, saveMd);
    RunFailureSticks(paths, i + 1, extract, ext, saveMd);
  }

  /** The body of the loop of `run_pipeline`, on one path; `extract` is the
      agent's `Extract`. */
  method ProcessPath(path: string, extract: (string, string) -> Result<string>, ext: Externals, outputDir: OutputDir, saveMd: int)
    returns (doc: Result<ExtractedDocument>)
    modifies outputDir
    ensures doc == PathResult(path, extract, ext)
    ensures outputDir.written == old(outputDir.written) + PathWrites(path, ext, saveMd)
  {
    var markdown := ext.pdfToMarkdown(path);
    if markdown.Failure? {
      return Failure(markdown.error);
    }
    if saveMd == 1 {
      outputDir.WriteText(MdFileName(path), markdown.value);
    }
    var raw := extract(markdown.value, Paths.Name(path));
    if raw.Failure? {
      return Failure(raw.error);
    }
    doc := ext.modelValidateJson(raw.value);
  }

  /** `run_pipeline`: the loop over the paths with the agent's `Extract`. */
  method RunPipeline(
    pdfPaths: seq<string>,
    extractor: Extractor.ExtractorAgent,
    ext: Externals,
    outputDir: OutputDir,
    saveMd: int)
    returns (r: Result<PipelineResult>)
    modifies outputDir
    ensures r == RunResult(pdfPaths, extractor.Extract, ext)
    ensures outputDir.written == old(outputDir.written) + RunWrites(pdfPaths, extractor.Extract, ext, saveMd)
  {
    r := RunLoop(pdfPaths, extractor.Extract, ext, outputDir, saveMd);
  }

  /** The loop of `run_pipeline`, checked against `RunResult` and `RunWrites`.
      The markdown writes are appended to what the directory already recorded. */
  method RunLoop(
    pdfPaths: seq<string>,
    extract: (string, string) -> Result<string>,
    ext: Externals,
    outputDir: OutputDir,
    saveMd: int)
    returns (r: Result<PipelineResult>)
    modifies outputDir
    ensures r == RunResult(pdfPaths, extract, ext)
    ensures outputDir.written == old(outputDir.written) + RunWrites(pdfPaths, extract, ext, saveMd)
  {
    var documents: seq<ExtractedDocument> := [];
    var accounts: seq<ExtractedAccount> := [];
    ghost var before := outputDir.written;
    for i := 0 to |pdfPaths|
      invariant RunResult(pdfPaths[..i], extract, ext) == Success(PipelineResult(documents, accounts))
      invariant outputDir.written == before + RunWrites(pdfPaths[..i], extract, ext, saveMd)
    {
      var doc := ProcessPath(pdfPaths[i], extract, ext, outputDir, saveMd);
      if doc.Failure? {
        RunFailsAt(pdfPaths, i, extract, ext, saveMd);
        return Failure(doc.error);
      }
      RunExtend(pdfPaths, i, extract, ext, saveMd);
      documents := documents + [doc.value];
      accounts := accounts + doc.value.accounts;
    }
    assert pdfPaths[..|pdfPaths|] == pdfPaths;
    return Success(PipelineResult(documents, accounts));
  }

  // ---------------------------------------------------------------------------
  // Properties of a run
  // ---------------------------------------------------------------------------

  /** No paths: no documents, no accounts, nothing written. */
  lemma EmptyRun(extract: (string, string) -> Result<string>, ext: Externals, saveMd: int)
    ensures RunResult([], extract, ext) == Success(PipelineResult([], []))
    ensures RunWrites([], extract, ext, saveMd) == []
  {
  }

  /** A run succeeds exactly when every path goes through on its own, and then
      document `k` is the one obtained from path `k`. */
  lemma {:induction false} RunSucceedsIff(paths: seq<string>, extract: (string, string) -> Result<string>, ext: Externals)
    ensures RunResult(paths, extract, ext).Success? <==>
      forall k :: 0 <= k < |paths| ==> PathResult(paths[k], extract, ext).Success?
    ensures RunResult(paths, extract, ext).Success? ==>
      var docs := RunResult(paths, extract, ext).value.documents;
      |docs| == |paths| &&
      forall k :: 0 <= k < |paths| ==> PathResult(paths[k], extract, ext) == Success(docs[k])
    decreases |paths|
  {
    if paths != [] {
      var n := |paths| - 1;
      var prefix := paths[..n];
      RunSucceedsIff(prefix, extract, ext);
      var before := RunResult(prefix, extract, ext);
      if before.Failure? {
        var k :| 0 <= k < |prefix| && PathResult(prefix[k], extract, ext).Failure?;
        assert paths[k] == prefix[k];
      } else if PathResult(paths[n], extract, ext).Success? {
        var docs := RunResult(paths, extract, ext).value.documents;
        assert docs == before.value.documents + [PathResult(paths[n], extract, ext).value];
        forall k | 0 <= k < |paths|
          ensures PathResult(paths[k], extract, ext) == Success(docs[k])
        {
          if k < n {
            assert paths[k] == prefix[k];
          }
        }
      }
    }
  }

  /** The run fails with the exception of the first path that does not go
      through, after the writes of the paths before it and of that path itself. */
  lemma RunFailsAtFirstFailure(paths: seq<string>, k: nat, extract: (string, string) -> Result<string>, ext: Externals, saveMd: int)
    requires k < |paths|
    requires forall j :: 0 <= j < k ==> PathResult(paths[j], extract, ext).Success?
    requires PathResult(paths[k], extract, ext).Failure?
    ensures RunResult(paths, extract, ext) == Failure(PathResult(paths[k], extract, ext).error)
    ensures RunWrites(paths, extract, ext, saveMd) ==
      RunWrites(paths[..k], extract, ext, saveMd) + PathWrites(paths[k], ext, saveMd)
  {
    RunSucceedsIff(paths[..k], extract, ext);
    RunFailsAt(paths, k, extract, ext, saveMd);
  }

  /** The markdown file `w` was written for `path`, which gave `doc`: it is
      named `<stem>.md` and holds the PDF's markdown. */
  predicate RecordedFor(path: string, w: MdFile, doc: ExtractedDocument, extract: (string, string) -> Result<string>, ext: Externals)
  {
    w.name == MdFileName(path) &&
    ext.pdfToMarkdown(path) == Success(w.content) &&
    PathResult(path, extract, ext) == Success(doc)
  }

  /** One path that goes through, with `save_md == 1`, writes one file, recorded
      for it; the markdown it holds is the text the extract was given, with the
      file's base name, and whose answer validated into the document. */
  lemma PathRecordsMarkdown(path: string, extract: (string, string) -> Result<string>, ext: Externals)
    requires PathResult(path, extract, ext).Success?
    ensures |PathWrites(path, ext, 1)| == 1
    ensures RecordedFor(path, PathWrites(path, ext, 1)[0], PathResult(path, extract, ext).value, extract, ext)
    ensures var markdown := PathWrites(path, ext, 1)[0].content;
      var raw := extract(markdown, Paths.Name(path));
      raw.Success? && ext.modelValidateJson(raw.value) == PathResult(path, extract, ext)
  {
  }

  /** Record `k` was written for path `k`, which gave document `k`, for every `k`. */
  predicate AllRecorded(paths: seq<string>, written: seq<MdFile>, docs: seq<ExtractedDocument>,
    extract: (string, string) -> Result<string>, ext: Externals)
  {
    |written| == |docs| == |paths| &&
    forall k :: 0 <= k < |paths| ==> RecordedFor(paths[k], written[k], docs[k], extract, ext)
  }

  /** With `save_md == 1`, a successful run writes one markdown file per path,
      in order, and each holds exactly the markdown given to the extract. */
  lemma {:induction false} RunRecordsMarkdown(paths: seq<string>, extract: (string, string) -> Result<string>, ext: Externals)
    requires RunResult(paths, extract, ext).Success?
    ensures AllRecorded(paths, RunWrites(paths, extract, ext, 1), RunResult(paths, extract, ext).value.documents, extract, ext)
    decreases |paths|
  {
    if paths != [] {
      RunRecordsMarkdown(paths[..|paths| - 1], extract, ext);
      RecordsStep(paths, extract, ext);
    }
  }

  /** The step of `RunRecordsMarkdown`: the last path's record extends those of
      the paths before it. */
  lemma RecordsStep(paths: seq<string>, extract: (string, string) -> Result<string>, ext: Externals)
    requires paths != [] && RunResult(paths, extract, ext).Success?
    requires var prefix := paths[..|paths| - 1];
      AllRecorded(prefix, RunWrites(prefix, extract, ext, 1), RunResult(prefix, extract, ext).value.documents, extract, ext)
    ensures AllRecorded(paths, RunWrites(paths, extract, ext, 1), RunResult(paths, extract, ext).value.documents, extract, ext)
  {
    var n := |paths| - 1;
    var prefix := paths[..n];
    var written := RunWrites(prefix, extract, ext, 1);
    var docs := RunResult(prefix, extract, ext).value.documents;
    var doc := PathResult(paths[n], extract, ext).value;
    PathRecordsMarkdown(paths[n], extract, ext);
    var w := PathWrites(paths[n], ext, 1)[0];
    RecordsExtend(prefix, written, docs, paths[n], w, doc, extract, ext);
    assert prefix + [paths[n]] == paths;
  }

  /** Records that match their paths and documents keep matching when one more
      matching record is appended. */
  lemma RecordsExtend(
    paths: seq<string>, written: seq<MdFile>, docs: seq<ExtractedDocument>,
    path: string, w: MdFile, doc: ExtractedDocument,
    extract: (string, string) -> Result<string>, ext: Externals)
    requires AllRecorded(paths, written, docs, extract, ext)
    requires RecordedFor(path, w, doc, extract, ext)
    ensures AllRecorded(paths + [path], written + [w], docs + [doc], extract, ext)
  {
    forall k | 0 <= k <= |paths|
      ensures RecordedFor((paths + [path])[k], (written + [w])[k], (docs + [doc])[k], extract, ext)
    {
      if k < |paths| {
        assert (paths + [path])[k] == paths[k] && (written + [w])[k] == written[k] && (docs + [doc])[k] == docs[k];
      }
    }
  }

  /** When the PDFs' stems are distinct, each `<stem>.md` left in the directory
      after a successful run holds exactly the markdown of its PDF. */
  lemma RecordedFilesHoldMarkdown(paths: seq<string>, extract: (string, string) -> Result<string>, ext: Externals, k: nat)
    requires k < |paths|
    requires forall i, j :: 0 <= i < j < |paths| ==> MdFileName(paths[i]) != MdFileName(paths[j])
    requires RunResult(paths, extract, ext).Success?
    ensures var files := DirectoryFiles(RunWrites(paths, extract, ext, 1));
      MdFileName(paths[k]) in files &&
      ext.pdfToMarkdown(paths[k]) == Success(files[MdFileName(paths[k])])
  {
    RunRecordsMarkdown(paths, extract, ext);
    LastWriteWins(RunWrites(paths, extract, ext, 1), k);
  }

  /** The pipeline keeps whatever document the validator returns: nothing ties
      its `source_file` to the name of the PDF it came from. */
  lemma SourceFileNotChecked(path: string, extract: (string, string) -> Result<string>, ext: Externals, markdown: string, raw: string, doc: ExtractedDocument)
    requires ext.pdfToMarkdown(path) == Success(markdown)
    requires extract(markdown, Paths.Name(path)) == Success(raw)
    requires ext.modelValidateJson(raw) == Success(doc)
    ensures RunResult([path], extract, ext) == Success(PipelineResult([doc], doc.accounts))
  {
    assert [path][..0] == [];
    assert PathResult(path, extract, ext) == Success(doc);
    assert [] + [doc] == [doc] && [] + doc.accounts == doc.accounts;
  }

  /** When every request to the inference server fails (an HTTP 500, say), a run
      over converted PDFs ends with that exception and no result. */
  lemma TransportErrorAborts(paths: seq<string>, extractor: Extractor.ExtractorAgent, ext: Externals, e: Exception)
    requires paths != [] && ext.pdfToMarkdown(paths[0]).Success?
    requires forall ms, schema :: extractor.client.invoke(ms, schema) == Failure(e)
    ensures RunResult(paths, extractor.Extract, ext) == Failure(e)
  {
    assert PathResult(paths[0], extractor.Extract, ext) == Failure(e);
    RunFailsAtFirstFailure(paths, 0, extractor.Extract, ext, 0);
  }
}
