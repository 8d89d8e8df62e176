/**
 * ExtractionManager: runs the matching extractor over every supported file the scanner found,
 * counts the outcomes, and stops early once the cancel flag is set.
 *
 * The extractors' own work is an oracle `run` giving, for an extractor, a file and an output
 * directory, the result `extract` returns or the exception it raises. The other thread that
 * may call `cancel` is the parameter `cancelAt`: the number of files begun before it does.
 * The callbacks are recorded as a log of events.
 */
module ExtractionManagement {
  import opened Wrappers
  import opened Strings
  import opened Paths
  import opened Base
  import opened FileScanning
  import WordExtraction
  import PdfExtraction
  import PowerPointExtraction
  import ExcelExtraction

  /** The extractors the application registers, with what they were constructed with. */
  datatype Extractor =
    | Excel(xlsxAvailable: bool, xlsAvailable: bool)
    | Pdf(fitzAvailable: bool)
    | Word(docxAvailable: bool)
    | PowerPoint(pptxAvailable: bool, extractImages: bool)

  /** `extractor.can_extract(filepath)` */
  predicate CanExtract(e: Extractor, f: Path) {
    match e
    case Excel(xlsx, xls) => ExcelExtraction.CanExtract(xlsx, xls, f)
    case Pdf(fitz) => PdfExtraction.CanExtract(fitz, f)
    case Word(docx) => WordExtraction.CanExtract(docx, f)
    case PowerPoint(pptx, _) => PowerPointExtraction.CanExtract(pptx, f)
  }

  /** What `extractor.extract(filepath, output_dir)` does: returns a result or raises. */
  datatype Outcome = Returned(record: ResultRecord) | Raised(message: string)

  /** A call the manager makes: `file_callback`, `extractor.extract`, `progress_callback`. */
  datatype Event =
    | FileStarted(idx: nat, file: Path, total: nat)
    | ExtractorCalled(idx: nat, file: Path, outputDir: Path)
    | Progress(idx: nat, total: nat)

  /**
   * `_find_extractor`: the position of the first extractor, from `from` on, that can
   * extract the file, or None when there is none.
   */
  function FindFrom(extractors: seq<Extractor>, f: Path, from: nat): (r: Option<nat>)
    requires from <= |extractors|
    ensures r.Some? ==> from <= r.value < |extractors|
    decreases |extractors| - from, 1
  {
    if from == |extractors| then None else TryAt(extractors, f, from)
  }

  /** One turn of the loop: the extractor at `from` if it can extract the file, else a later one. */
  function TryAt(extractors: seq<Extractor>, f: Path, from: nat): (r: Option<nat>)
    requires from < |extractors|
    ensures r.Some? ==> from <= r.value < |extractors|
    decreases |extractors| - from, 0
  {
    if CanExtract(extractors[from], f) then Some(from) else FindFrom(extractors, f, from + 1)
  }

  /** The extractor found is the first one, from `from` on, that can extract the file. */
  lemma {:induction false} FindFromSpec(extractors: seq<Extractor>, f: Path, from: nat)
    requires from <= |extractors|
    ensures var r := FindFrom(extractors, f, from);
      && (r.Some? ==> CanExtract(extractors[r.value], f) && forall j :: from <= j < r.value ==> !CanExtract(extractors[j], f))
      && (r.None? <==> forall j :: from <= j < |extractors| ==> !CanExtract(extractors[j], f))
    decreases |extractors| - from
  {
    if from < |extractors| {
      assert FindFrom(extractors, f, from) == TryAt(extractors, f, from);
      if !CanExtract(extractors[from], f) {
        FindFromSpec(extractors, f, from + 1);
      }
    }
  }

  function FindExtractor(extractors: seq<Extractor>, f: Path): Option<nat> {
    FindFrom(extractors, f, 0)
  }

  /** The dictionary `extract_all` returns. */
  datatype Summary = Summary(
    totalProcessed: nat,
    successful: nat,
    failed: nat,
    warnings: nat,
    totalFilesExtracted: nat,
    cancelled: bool)

  /** What stays fixed during one `extract_all` call. */
  datatype Setup = Setup(
    scanner: FileScanner,
    extractors: seq<Extractor>,
    run: (Extractor, Path, Path) -> Outcome,
    outputBase: Path,
    files: seq<Path>,
    fileCallback: bool,
    progressCallback: bool)


  /** The loop's counters. */
  datatype Counters = Counters(successful: nat, failed: nat, warnings: nat, totalFilesExtracted: nat)

  /** The counters after a returned result. */
  function Record(c: Counters, res: ResultRecord): Counters {
    c.(successful := if res.success then c.successful + 1 else c.successful,
       failed := if res.success then c.failed else c.failed + 1,
       totalFilesExtracted := if res.success then c.totalFilesExtracted + |res.extractedFiles| else c.totalFilesExtracted,
       warnings := if res.warnings != [] then c.warnings + 1 else c.warnings)
  }

  /**
   * The counters after one pass of the loop, for the file at position `i`: a file with no
   * extractor, or whose extractor raised, counts as failed; a returned result is recorded.
   */
  function Step(s: Setup, c: Counters, i: nat): Counters
    requires i < |s.files|
  {
    var t := StepReturned(s, i);
    if t == [] then c.(failed := c.failed + 1) else Record(c, t[0])
  }

  /** The counters after the first `k` files, none of them cancelled. */
  function Run(s: Setup, k: nat): Counters
    requires k <= |s.files|
  {
    if k == 0 then Counters(0, 0, 0, 0) else Step(s, Run(s, k - 1), k - 1)
  }

  /**
   * How many files the loop begins: none when the flag is already set, `cancelAt` when the
   * other thread cancels before the flag is read for that file, all of them otherwise.
   */
  function Begun(n: nat, cancelled0: bool, cancelAt: Option<nat>): (r: nat)
    ensures r <= n
  {
    if cancelled0 then 0
    else if cancelAt.Some? && cancelAt.value < n then cancelAt.value
    else n
  }

  /** Whether the flag is set when the summary reads it. */
  predicate CancelledAtEnd(n: nat, cancelled0: bool, cancelAt: Option<nat>) {
    cancelled0 || (cancelAt.Some? && cancelAt.value <= n)
  }

  /** `current_file` after the first `k` files: the last one begun, or what it was before. */
  function CurrentAfter(s: Setup, current0: Option<Path>, k: nat): Option<Path>
    requires k <= |s.files|
  {
    if k == 0 then current0 else Some(s.files[k - 1])
  }

  /** The summary `extract_all` returns. */
  function SummaryOf(s: Setup, cancelled0: bool, cancelAt: Option<nat>): Summary {
    var c := Run(s, Begun(|s.files|, cancelled0, cancelAt));
    Summary(|s.files|, c.successful, c.failed, c.warnings, c.totalFilesExtracted, CancelledAtEnd(|s.files|, cancelled0, cancelAt))
  }

  // ---------------------------------------------------------------------------------------
  // What the loop computes, in terms of the outcomes

  /** The result `extract` returned for the file at position `i`, if it was called and returned. */
  function StepReturned(s: Setup, i: nat): (r: seq<ResultRecord>)
    requires i < |s.files|
    ensures |r| <= 1
  {
    var f := s.files[i];
    match FindExtractor(s.extractors, f)
    case None => []
    case Some(e) =>
      match s.run(s.extractors[e], f, s.scanner.CreateMirroredOutputPath(f, s.outputBase))
      case Raised(_) => []
      case Returned(res) => [res]
  }

  /** The calls the manager makes for the file at position `i`. */
  function StepEvents(s: Setup, i: nat): seq<Event>
    requires i < |s.files|
  {
    var f := s.files[i];
    var started := FileStarted(i + 1, f, |s.files|);
    var progress := Progress(i + 1, |s.files|);
    match FindExtractor(s.extractors, f)
    case None => if s.fileCallback then [started] else []
    case Some(e) =>
      var called := ExtractorCalled(i + 1, f, s.scanner.CreateMirroredOutputPath(f, s.outputBase));
      if s.fileCallback && s.progressCallback then [started, called, progress]
      else if s.fileCallback then [started, called]
      else if s.progressCallback then [called, progress]
      else [called]
  }

  /** The calls open with a `file_callback`, and an extractor call can only come second, for the same file. */
  ghost predicate OpensWithCallback(t: seq<Event>, total: nat) {
    && t != [] && t[0].FileStarted? && t[0].total == total
    && forall q :: 0 <= q < |t| && t[q].ExtractorCalled? ==> q == 1 && t[1].idx == t[0].idx && t[1].file == t[0].file
  }

  /** With a `file_callback`, a file's calls open with it and the extractor call comes second. */
  lemma StepEventsShape(s: Setup, i: nat)
    requires i < |s.files| && s.fileCallback
    ensures StepEvents(s, i) != [] && StepEvents(s, i)[0] == FileStarted(i + 1, s.files[i], |s.files|)
    ensures OpensWithCallback(StepEvents(s, i), |s.files|)
  {
  }

  /** The results `extract` returned for the first `k` files, in order. */
  function ReturnedResults(s: Setup, k: nat): (r: seq<ResultRecord>)
    requires k <= |s.files|
    ensures |r| <= k
  {
    if k == 0 then [] else ReturnedResults(s, k - 1) + StepReturned(s, k - 1)
  }

  /** The calls made for the first `k` files, file after file. */
  function CallLog(s: Setup, k: nat): seq<Event>
    requires k <= |s.files|
  {
    if k == 0 then [] else CallLog(s, k - 1) + StepEvents(s, k - 1)
  }

  function SuccessCount(rs: seq<ResultRecord>): nat {
    if rs == [] then 0 else SuccessCount(rs[..|rs| - 1]) + (if rs[|rs| - 1].success then 1 else 0)
  }

  /** Files extracted, summed over the successful results only. */
  function FilesOfSuccessful(rs: seq<ResultRecord>): nat {
    if rs == [] then 0
    else FilesOfSuccessful(rs[..|rs| - 1]) + (if rs[|rs| - 1].success then |rs[|rs| - 1].extractedFiles| else 0)
  }

  function WarnedCount(rs: seq<ResultRecord>): nat {
    if rs == [] then 0 else WarnedCount(rs[..|rs| - 1]) + (if rs[|rs| - 1].warnings != [] then 1 else 0)
  }

  lemma CountsAppend(rs: seq<ResultRecord>, t: seq<ResultRecord>)
    requires |t| <= 1
    ensures SuccessCount(rs + t) == SuccessCount(rs) + SuccessCount(t)
    ensures FilesOfSuccessful(rs + t) == FilesOfSuccessful(rs) + FilesOfSuccessful(t)
    ensures WarnedCount(rs + t) == WarnedCount(rs) + WarnedCount(t)
  {
    if t == [] {
      assert rs + t == rs;
    } else {
      assert (rs + t)[..|rs|] == rs;
      assert t[..0] == [];
    }
  }

  /** The counters from `c0` to `c` count the results `rs`. */
  predicate Tallied(c0: Counters, c: Counters, rs: seq<ResultRecord>) {
    && c.successful == c0.successful + SuccessCount(rs)
    && c.warnings == c0.warnings + WarnedCount(rs)
    && c.totalFilesExtracted == c0.totalFilesExtracted + FilesOfSuccessful(rs)
  }

  /**
   * One file is counted once, as successful or as failed, and moves the other counters by
   * its returned result, if any.
   */
  lemma StepSpec(s: Setup, c: Counters, i: nat)
    requires i < |s.files|
    ensures Step(s, c, i).successful + Step(s, c, i).failed == c.successful + c.failed + 1
    ensures Tallied(c, Step(s, c, i), StepReturned(s, i))
  {
    var f := s.files[i];
    match FindExtractor(s.extractors, f)
    case None =>
    case Some(e) =>
      match s.run(s.extractors[e], f, s.scanner.CreateMirroredOutputPath(f, s.outputBase))
      case Raised(_) =>
      case Returned(res) =>
        var t := [res];
        assert t[..0] == [];
  }

  lemma TalliedAppend(c0: Counters, c: Counters, c1: Counters, rs0: seq<ResultRecord>, t: seq<ResultRecord>)
    requires |t| <= 1 && Tallied(c0, c, rs0) && Tallied(c, c1, t)
    ensures Tallied(c0, c1, rs0 + t)
  {
    CountsAppend(rs0, t);
  }

  /**
   * After `k` files, every file begun is counted exactly once, as successful or as failed,
   * and `successful`, `warnings` and `total_files_extracted` count, among the returned
   * results, the successful ones, the ones with a warning, and the files of the successful
   * ones.
   */
  lemma {:induction false} RunTallies(s: Setup, k: nat)
    requires k <= |s.files|
    ensures Run(s, k).successful + Run(s, k).failed == k
    ensures Tallied(Counters(0, 0, 0, 0), Run(s, k), ReturnedResults(s, k))
  {
    if k > 0 {
      RunTallies(s, k - 1);
      var prev := Run(s, k - 1);
      assert Run(s, k) == Step(s, prev, k - 1);
      assert ReturnedResults(s, k) == ReturnedResults(s, k - 1) + StepReturned(s, k - 1);
      StepSpec(s, prev, k - 1);
      TalliedAppend(Counters(0, 0, 0, 0), Run(s, k - 1), Run(s, k), ReturnedResults(s, k - 1), StepReturned(s, k - 1));
    }
  }

  /**
   * A file no extractor accepts counts as failed, returns no result and is passed to no
   * extractor; it gets a `file_callback` but no `progress_callback`.
   */
  lemma NoExtractorFails(s: Setup, c: Counters, i: nat)
    requires i < |s.files| && FindExtractor(s.extractors, s.files[i]).None?
    ensures Step(s, c, i) == c.(failed := c.failed + 1)
    ensures StepReturned(s, i) == []
    ensures StepEvents(s, i) == if s.fileCallback then [FileStarted(i + 1, s.files[i], |s.files|)] else []
  {
  }

  /**
   * A file for which `_find_extractor` returns the extractor at position `e` is passed to
   * it, with its mirrored output directory, after its `file_callback` and before its
   * `progress_callback`; an exception counts as failed and records no result, a returned
   * result is recorded.
   */
  lemma ExtractorStep(s: Setup, c: Counters, i: nat, e: nat)
    requires i < |s.files| && FindExtractor(s.extractors, s.files[i]) == Some(e)
    ensures e < |s.extractors|
    ensures var f := s.files[i];
      var out := s.scanner.CreateMirroredOutputPath(f, s.outputBase);
      && StepEvents(s, i)
           == (if s.fileCallback then [FileStarted(i + 1, f, |s.files|)] else [])
           + [ExtractorCalled(i + 1, f, out)]
           + (if s.progressCallback then [Progress(i + 1, |s.files|)] else [])
      && (s.run(s.extractors[e], f, out).Raised? ==> Step(s, c, i) == c.(failed := c.failed + 1) && StepReturned(s, i) == [])
      && (s.run(s.extractors[e], f, out).Returned? ==>
            var res := s.run(s.extractors[e], f, out).record;
            StepReturned(s, i) == [res] && Step(s, c, i) == Record(c, res))
  {
  }

  /** Every event of the first `k` files names one of those files, by its 1-based index. */
  ghost predicate EventsWithin(s: Setup, evs: seq<Event>, k: nat) {
    forall ev :: ev in evs ==>
      && 1 <= ev.idx <= k
      && (ev.FileStarted? || ev.ExtractorCalled? ==> ev.idx <= |s.files| && ev.file == s.files[ev.idx - 1])
  }

  /**
   * No callback and no extractor call concerns a file after the first `k`: once the loop
   * stops, later files are never touched.
   */
  lemma {:induction false} CallLogWithin(s: Setup, k: nat)
    requires k <= |s.files|
    ensures EventsWithin(s, CallLog(s, k), k)
  {
    if k > 0 {
      assert CallLog(s, k) == CallLog(s, k - 1) + StepEvents(s, k - 1);
      CallLogWithin(s, k - 1);
      StepEventsNamed(s, k - 1);
      WithinAppend(s, CallLog(s, k - 1), StepEvents(s, k - 1), k);
    }
  }

  /** Every event names the file at position `k - 1` by its index `k`. */
  ghost predicate NamesFile(s: Setup, t: seq<Event>, k: nat) {
    forall ev :: ev in t ==> ev.idx == k && (ev.FileStarted? || ev.ExtractorCalled? ==> 1 <= k <= |s.files| && ev.file == s.files[k - 1])
  }

  /** Every call made for the file at position `i` names it by its index `i + 1`. */
  lemma StepEventsNamed(s: Setup, i: nat)
    requires i < |s.files|
    ensures NamesFile(s, StepEvents(s, i), i + 1)
  {
  }

  lemma WithinAppend(s: Setup, evs: seq<Event>, t: seq<Event>, k: nat)
    requires 1 <= k <= |s.files| && EventsWithin(s, evs, k - 1) && NamesFile(s, t, k)
    ensures EventsWithin(s, evs + t, k)
  {
  }

  /** Each extractor call comes right after the `file_callback` for the same file. */
  ghost predicate CallbackBeforeExtract(evs: seq<Event>, total: nat) {
    forall p :: 0 <= p < |evs| && evs[p].ExtractorCalled? ==>
      p > 0 && evs[p - 1] == FileStarted(evs[p].idx, evs[p].file, total)
  }

  /**
   * With a `file_callback`, each extractor call comes right after the `file_callback` for
   * the same file.
   */
  lemma {:induction false} FileCallbackBeforeExtract(s: Setup, k: nat)
    requires k <= |s.files| && s.fileCallback
    ensures CallbackBeforeExtract(CallLog(s, k), |s.files|)
  {
    if k > 0 {
      FileCallbackBeforeExtract(s, k - 1);
      StepEventsShape(s, k - 1);
      CallbackAppend(CallLog(s, k - 1), StepEvents(s, k - 1), |s.files|);
      assert CallLog(s, k) == CallLog(s, k - 1) + StepEvents(s, k - 1);
    }
  }

  lemma CallbackAppend(evs: seq<Event>, t: seq<Event>, total: nat)
    requires CallbackBeforeExtract(evs, total) && OpensWithCallback(t, total)
    ensures CallbackBeforeExtract(evs + t, total)
  {
    var all := evs + t;
    forall p | 0 <= p < |all| && all[p].ExtractorCalled?
      ensures p > 0 && all[p - 1] == FileStarted(all[p].idx, all[p].file, total)
    {
      if p < |evs| {
        assert all[p] == evs[p];
        assert all[p - 1] == evs[p - 1];
      } else {
        assert all[p] == t[p - |evs|];
        assert p - |evs| == 1;
        assert all[p - 1] == t[0];
      }
    }
  }

  /**
   * The summary: `total_processed` is the number of supported files even when the run was
   * cancelled; every file begun is successful or failed; `cancelled` is the flag's value
   * at the end, and the files begun are all of them exactly when it was not set in time.
   */
  lemma SummarySpec(s: Setup, cancelled0: bool, cancelAt: Option<nat>)
    ensures var sm := SummaryOf(s, cancelled0, cancelAt);
      var k := Begun(|s.files|, cancelled0, cancelAt);
      && sm.totalProcessed == |s.files|
      && sm.successful + sm.failed == k
      && sm.successful == SuccessCount(ReturnedResults(s, k))
      && sm.warnings == WarnedCount(ReturnedResults(s, k))
      && sm.totalFilesExtracted == FilesOfSuccessful(ReturnedResults(s, k))
      && (!sm.cancelled ==> k == |s.files|)
      && (cancelled0 ==> sm.cancelled && k == 0)
  {
    RunTallies(s, Begun(|s.files|, cancelled0, cancelAt));
  }

  /** The counters, the calls and the results after the first `k` files of the loop, from `results0`. */
  function Tally(s: Setup, k: nat, results0: seq<ResultRecord>): (Counters, seq<Event>, seq<ResultRecord>)
    requires k <= |s.files|
  {
    (Run(s, k), CallLog(s, k), results0 + ReturnedResults(s, k))
  }

  /** One more pass of the loop in `extract_all` extends every tally by that file's step. */
  lemma LoopStep(s: Setup, i: nat, c0: Counters, c: Counters, events0: seq<Event>, events: seq<Event>,
                 results0: seq<ResultRecord>, results1: seq<ResultRecord>, results: seq<ResultRecord>)
    requires i < |s.files| && (c0, events0, results1) == Tally(s, i, results0)
    requires c == Step(s, c0, i) && events == events0 + StepEvents(s, i) && results == results1 + StepReturned(s, i)
    ensures (c, events, results) == Tally(s, i + 1, results0)
  {
    AppendAssoc(results0, ReturnedResults(s, i), StepReturned(s, i));
  }

  // ---------------------------------------------------------------------------------------
  // The manager object

  class ExtractionManager {
    const scanner: FileScanner
    const extractors: seq<Extractor>
    var results: seq<ResultRecord>
    var currentFile: Option<Path>
    var cancelled: bool

    /** `ExtractionManager(scanner, extractors)` */
    constructor (scanner: FileScanner, extractors: seq<Extractor>)
      ensures this.scanner == scanner && this.extractors == extractors
      ensures results == [] && currentFile == None && !cancelled
    {
      this.scanner := scanner;
      this.extractors := extractors;
      results := [];
      currentFile := None;
      cancelled := false;
    }

    /** `cancel`: sets the flag; nothing clears it. */
    method Cancel()
      modifies this
      ensures cancelled
      ensures results == old(results) && currentFile == old(currentFile)
    {
      cancelled := true;
    }

    /**
     * The check at the top of each pass: the other thread calls `cancel` before the file at
     * position `cancelAt` is begun; then the flag is read.
     */
    method CancelCheck(cancelAt: Option<nat>, i: nat) returns (stop: bool)
      modifies this
      ensures cancelled == (old(cancelled) || cancelAt == Some(i)) && stop == cancelled
      ensures results == old(results) && currentFile == old(currentFile)
    {
      if cancelAt == Some(i) {
        Cancel();
      }
      stop := cancelled;
    }

    /** `_find_extractor` as a loop over the extractors. */
    method FindExtractorIndex(filepath: Path) returns (r: Option<nat>)
      ensures r == FindExtractor(extractors, filepath)
    {
      var j := 0;
      while j < |extractors|
        invariant 0 <= j <= |extractors|
        invariant FindExtractor(extractors, filepath) == FindFrom(extractors, filepath, j)
      {
        assert FindFrom(extractors, filepath, j) == TryAt(extractors, filepath, j);
        if CanExtract(extractors[j], filepath) {
          return Some(j);
        }
        j := j + 1;
      }
      return None;
    }

    /**
     * The `try` block of one pass: the extractor at position `e` extracts the file into
     * `outputDir`; a returned result is appended to `results` and counted, an exception
     * counts as failed.
     */
    method ExtractWith(s: Setup, i: nat, e: nat, outputDir: Path, c0: Counters) returns (c: Counters)
      requires s.extractors == extractors && i < |s.files| && FindExtractor(s.extractors, s.files[i]) == Some(e)
      requires outputDir == s.scanner.CreateMirroredOutputPath(s.files[i], s.outputBase)
      modifies this
      ensures c == Step(s, c0, i)
      ensures results == old(results) + StepReturned(s, i)
      ensures currentFile == old(currentFile) && cancelled == old(cancelled)
    {
      ExtractorStep(s, c0, i, e);
      var successful, failed, warnings, totalFilesExtracted := c0.successful, c0.failed, c0.warnings, c0.totalFilesExtracted;
      var outcome := s.run(extractors[e], s.files[i], outputDir);
      match outcome {
        case Returned(result) =>
          results := results + [result];
          if result.success {
            successful := successful + 1;
            totalFilesExtracted := totalFilesExtracted + |result.extractedFiles|;
          } else {
            failed := failed + 1;
          }
          if result.warnings != [] {
            warnings := warnings + 1;
          }
        case Raised(_) =>
          failed := failed + 1;
      }
      c := Counters(successful, failed, warnings, totalFilesExtracted);
    }

    /** One pass of the loop in `extract_all`, for the file at position `i`. */
    method ExtractOne(s: Setup, i: nat, c0: Counters, events0: seq<Event>) returns (c: Counters, events: seq<Event>)
      requires s.scanner == scanner && s.extractors == extractors && i < |s.files|
      modifies this
      ensures c == Step(s, c0, i)
      ensures results == old(results) + StepReturned(s, i)
      ensures events == events0 + StepEvents(s, i)
      ensures currentFile == Some(s.files[i]) && cancelled == old(cancelled)
    {
      events := events0;
      var total := |s.files|;
      var filepath := s.files[i];
      currentFile := Some(filepath);
      if s.fileCallback {
        events := events + [FileStarted(i + 1, filepath, total)];
      }
      ghost var started := if s.fileCallback then [FileStarted(i + 1, filepath, total)] else [];
      var extractor := FindExtractorIndex(filepath);
      if extractor.None? {
        c := c0.(failed := c0.failed + 1);
        NoExtractorFails(s, c0, i);
        return;
      }
      ExtractorStep(s, c0, i, extractor.value);
      var outputDir := scanner.CreateMirroredOutputPath(filepath, s.outputBase);
      events := events + [ExtractorCalled(i + 1, filepath, outputDir)];
      c := ExtractWith(s, i, extractor.value, outputDir, c0);
      if s.progressCallback {
        events := events + [Progress(i + 1, total)];
      }
      AppendAssoc4(events0, started, [ExtractorCalled(i + 1, filepath, outputDir)], if s.progressCallback then [Progress(i + 1, total)] else []);
    }

    /**
     * The loop of `extract_all`: the files in order, each after reading the cancel flag,
     * which the other thread sets before the file at position `cancelAt` is begun.
     */
    method ExtractFiles(s: Setup, cancelAt: Option<nat>) returns (c: Counters, events: seq<Event>, begun: nat)
      requires s.scanner == scanner && s.extractors == extractors
      modifies this
      ensures begun == Begun(|s.files|, old(cancelled), cancelAt)
      ensures (c, events, results) == Tally(s, begun, old(results))
      ensures currentFile == CurrentAfter(s, old(currentFile), begun)
      ensures cancelled == (old(cancelled) || (cancelAt.Some? && cancelAt.value < |s.files|))
    {
      ghost var results0 := results;
      ghost var current0 := currentFile;
      ghost var cancelled0 := cancelled;
      c := Counters(0, 0, 0, 0);
      events := [];
      var total := |s.files|;
      var i := 0;
      assert results0 + ReturnedResults(s, 0) == results0;
      while i < total
        invariant i <= total
        invariant cancelled == cancelled0 && (i > 0 ==> !cancelled0)
        invariant cancelAt.Some? ==> i <= cancelAt.value
        invariant (c, events, results) == Tally(s, i, results0)
        invariant currentFile == CurrentAfter(s, current0, i)
      {
        var stop := CancelCheck(cancelAt, i);
        if stop {
          break;
        }
        assert cancelAt.Some? ==> i + 1 <= cancelAt.value;
        ghost var c1, events1, results1 := c, events, results;
        c, events := ExtractOne(s, i, c, events);
        LoopStep(s, i, c1, c, events1, events, results0, results1, results);
        i := i + 1;
      }
      begun := i;
    }

    /**
     * `extract_all(output_base, progress_callback, file_callback)`. `outputBaseOk` says
     * whether creating the output base succeeds; when it does not, the exception leaves
     * the method before anything changes. The other thread may also cancel after the last
     * file, before the summary reads the flag (`cancelAt` equal to the number of files).
     */
    method ExtractAll(outputBase: Path, outputBaseOk: bool, run: (Extractor, Path, Path) -> Outcome,
                      cancelAt: Option<nat>, progressCallback: bool, fileCallback: bool)
      returns (r: Result<Summary>, events: seq<Event>)
      modifies this
      ensures var s := Setup(scanner, extractors, run, outputBase, scanner.supportedFiles, fileCallback, progressCallback);
        var k := Begun(|s.files|, old(cancelled), cancelAt);
        if !outputBaseOk then
          r.Err? && events == [] && results == old(results) && currentFile == old(currentFile) && cancelled == old(cancelled)
        else
          && r == Ok(SummaryOf(s, old(cancelled), cancelAt))
          && results == old(results) + ReturnedResults(s, k)
          && events == CallLog(s, k)
          && currentFile == CurrentAfter(s, old(currentFile), k)
          && cancelled == CancelledAtEnd(|s.files|, old(cancelled), cancelAt)
    {
      if !outputBaseOk {
        return Err("cannot create " + ToString(outputBase)), [];
      }
      var files := scanner.supportedFiles;
      var s := Setup(scanner, extractors, run, outputBase, files, fileCallback, progressCallback);
      var c, begun;
      c, events, begun := ExtractFiles(s, cancelAt);
      if cancelAt == Some(|files|) {
        Cancel();
      }
      r := Ok(Summary(|files|, c.successful, c.failed, c.warnings, c.totalFilesExtracted, cancelled));
    }
  }
}
