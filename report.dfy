/**
 * `ReportGenerator.generate_summary_report` (src/utils/report.py): the text report written to
 * `EXTRACTION_REPORT.txt` after a run. Every `f.write` call of the source ends with a newline,
 * so the file is modelled as the sequence of its lines, each written followed by "\n".
 * The timestamp and `_format_size` are inputs.
 */
module ReportGeneration {
  import opened Wrappers
  import opened Strings
  import opened Paths
  import opened Base
  import FileScanning
  import ExtractionManagement

  const ReportName := "EXTRACTION_REPORT.txt"

  /** `output_dir / "EXTRACTION_REPORT.txt"` */
  function ReportPath(outputDir: Path): (r: Path)
    ensures r.absolute == outputDir.absolute && r.parts == outputDir.parts + [ReportName]
    ensures Name(r) == ReportName
  {
    Child(outputDir, ReportName)
  }

  /** `c * 80` */
  function Rule(c: char): (r: string)
    ensures |r| == 80 && r[0] == c && r[79] == c
  {
    seq(80, _ => c)
  }

  /** The `scan_results` dictionary: a key may be missing. */
  datatype ScanDict = ScanDict(
    supportedCount: Option<nat>,
    totalSize: Option<nat>,
    fileTypes: Option<seq<(string, nat)>>)

  /** The `extraction_summary` dictionary: a key may be missing. */
  datatype SummaryDict = SummaryDict(
    totalProcessed: Option<nat>,
    successful: Option<nat>,
    failed: Option<nat>,
    warnings: Option<nat>,
    totalFilesExtracted: Option<nat>,
    cancelled: Option<bool>)

  /** The dictionary `scan` returns, with every key present. */
  function FromScan(s: FileScanning.ScanResults): ScanDict {
    ScanDict(Some(s.supportedCount), Some(s.totalSize), Some(s.fileTypes))
  }

  /** The dictionary `extract_all` returns, with every key present. */
  function FromSummary(s: ExtractionManagement.Summary): SummaryDict {
    SummaryDict(Some(s.totalProcessed), Some(s.successful), Some(s.failed), Some(s.warnings),
                Some(s.totalFilesExtracted), Some(s.cancelled))
  }

  /** `d.get(key, 0)` */
  function OrZero(v: Option<nat>): nat {
    if v.Some? then v.value else 0
  }

  /** `d.get('cancelled')` used as a condition: a missing key is falsy. */
  predicate Truthy(v: Option<bool>) {
    v == Some(true)
  }

  const Warn := '\U{26A0}'
  const Tick := '\U{2713}'
  const Cross := '\U{2717}'
  const CancelText := "EXTRACTION WAS CANCELLED BY USER"

  // ---------------------------------------------------------------------------------------
  // The lines of the report

  function HeaderLines(outputDir: Path, timestamp: string): seq<string> {
    [Rule('='), "DATA EXTRACTION REPORT", Rule('='), "Generated: " + timestamp,
     "Output Directory: " + ToString(outputDir), Rule('='), ""]
  }

  function FileTypeLine(ext: string, count: nat): string {
    ("  " + ext + ": " + NatToString(count)) + " files"
  }

  /** One line per `file_types` entry, in the mapping's order. */
  function FileTypeLines(types: seq<(string, nat)>): (r: seq<string>)
    ensures |r| == |types|
  {
    seq(|types|, i requires 0 <= i < |types| => FileTypeLine(types[i].0, types[i].1))
  }

  function ScanLines(scan: ScanDict, formatSize: nat -> string): seq<string> {
    ["SCAN SUMMARY", Rule('-'),
     "Files scanned: " + NatToString(OrZero(scan.supportedCount)),
     "Total size: " + formatSize(OrZero(scan.totalSize)),
     "", "File types found:"]
    + FileTypeLines(if scan.fileTypes.Some? then scan.fileTypes.value else [])
    + [""]
  }

  function SummaryLines(summary: SummaryDict): seq<string> {
    SummaryCounts(summary) + CancelBanner(summary) + [""]
  }

  function SummaryCounts(summary: SummaryDict): seq<string> {
    ["EXTRACTION SUMMARY", Rule('-'),
     "Files processed: " + NatToString(OrZero(summary.totalProcessed)),
     "Successful: " + NatToString(OrZero(summary.successful)),
     "Failed: " + NatToString(OrZero(summary.failed)),
     "Warnings: " + NatToString(OrZero(summary.warnings)),
     "Total files extracted: " + NatToString(OrZero(summary.totalFilesExtracted))]
  }

  /** The warning line of a cancelled run, after a blank line. */
  function CancelBanner(summary: SummaryDict): seq<string> {
    if Truthy(summary.cancelled) then ["", [Warn, ' '] + CancelText] else []
  }

  /** `str(value)` of a metadata value; a list of names prints as Python's list display. */
  function MetaText(v: MetaValue): string {
    match v
    case Count(n) => IntToString(n)
    case Names(names) => "[" + Quoted(names) + "]"
  }

  function Quoted(names: seq<string>): string {
    if names == [] then ""
    else if |names| == 1 then "'" + names[0] + "'"
    else "'" + names[0] + "', " + Quoted(names[1..])
  }

  function MetaLines(metadata: seq<(string, MetaValue)>): (r: seq<string>)
    ensures |r| == |metadata|
  {
    seq(|metadata|, i requires 0 <= i < |metadata| => MetaLine(metadata[i].0, metadata[i].1))
  }

  function MetaLine(key: string, value: MetaValue): string {
    "    " + key + ": " + MetaText(value)
  }

  function Bullets(items: seq<string>): (r: seq<string>)
    ensures |r| == |items|
  {
    seq(|items|, i requires 0 <= i < |items| => "    - " + items[i])
  }

  /** The lines of one successful result. */
  function SuccessEntry(r: ResultRecord): seq<string> {
    ["", [Tick, ' '] + Name(r.sourceFile), FilesLine(r)]
    + MetaSection(r.metadata)
    + BulletSection("  Warnings:", r.warnings)
  }

  function FilesLine(r: ResultRecord): string {
    "  Files extracted: " + NatToString(|r.extractedFiles|)
  }

  /** The metadata heading and its lines, or nothing when there is no metadata. */
  function MetaSection(metadata: seq<(string, MetaValue)>): seq<string> {
    if metadata != [] then ["  Metadata:"] + MetaLines(metadata) else []
  }

  /** A heading and its bullet list, or nothing when the list is empty. */
  function BulletSection(title: string, items: seq<string>): seq<string> {
    if items != [] then [title] + Bullets(items) else []
  }

  /** The lines of one failed result. */
  function FailEntry(r: ResultRecord): seq<string> {
    ["", [Cross, ' '] + Name(r.sourceFile)]
    + BulletSection("  Errors:", r.errors)
  }

  function SuccessEntries(rs: seq<ResultRecord>): seq<string> {
    if rs == [] then [] else SuccessEntries(rs[..|rs| - 1]) + SuccessEntry(rs[|rs| - 1])
  }

  function FailEntries(rs: seq<ResultRecord>): seq<string> {
    if rs == [] then [] else FailEntries(rs[..|rs| - 1]) + FailEntry(rs[|rs| - 1])
  }

  /** `[r for r in results if r.success]` */
  function Successful(rs: seq<ResultRecord>): seq<ResultRecord> {
    if rs == [] then []
    else Successful(rs[..|rs| - 1]) + (if rs[|rs| - 1].success then [rs[|rs| - 1]] else [])
  }

  /** `[r for r in results if not r.success]` */
  function Failed(rs: seq<ResultRecord>): seq<ResultRecord> {
    if rs == [] then []
    else Failed(rs[..|rs| - 1]) + (if rs[|rs| - 1].success then [] else [rs[|rs| - 1]])
  }

  function SuccessBlock(successful: seq<ResultRecord>): seq<string> {
    if successful == [] then
      []
    else
      ["SUCCESSFUL EXTRACTIONS (" + NatToString(|successful|) + ")", Rule('-')]
      + SuccessEntries(successful) + [""]
  }

  function FailBlock(failed: seq<ResultRecord>): seq<string> {
    if failed == [] then
      []
    else
      ["", "FAILED EXTRACTIONS (" + NatToString(|failed|) + ")", Rule('-')]
      + FailEntries(failed) + [""]
  }

  function DetailedLines(results: seq<ResultRecord>): seq<string> {
    if results == [] then []
    else ["DETAILED RESULTS", Rule('-'), ""] + SuccessBlock(Successful(results)) + FailBlock(Failed(results))
  }

  const FooterLines := [Rule('='), "END OF REPORT", Rule('=')]

  /** The whole report, line by line. */
  function ReportLines(outputDir: Path, scan: ScanDict, summary: SummaryDict, results: seq<ResultRecord>,
                       timestamp: string, formatSize: nat -> string): seq<string> {
    HeaderLines(outputDir, timestamp) + ScanLines(scan, formatSize) + SummaryLines(summary)
    + DetailedLines(results) + FooterLines
  }

  // ---------------------------------------------------------------------------------------
  // Reading the report back: marked lines and headings

  /** A line that opens with the symbol `c` and a space. */
  predicate MarkedBy(l: string, c: char) {
    |l| >= 2 && l[0] == c && l[1] == ' '
  }

  /** What follows the symbol on each line marked with `c`, in order. */
  function Marked(ls: seq<string>, c: char): seq<string> {
    if ls == [] then []
    else Marked(ls[..|ls| - 1], c) + (if MarkedBy(ls[|ls| - 1], c) then [ls[|ls| - 1][2..]] else [])
  }

  /** How many lines are exactly `t`. */
  function Occurs(ls: seq<string>, t: string): nat {
    if ls == [] then 0 else Occurs(ls[..|ls| - 1], t) + (if ls[|ls| - 1] == t then 1 else 0)
  }

  predicate Symbol(c: char) {
    c == Warn || c == Tick || c == Cross
  }

  /** The lines the report prints once per section or per result. */
  predicate Heading(t: string) {
    t == "DETAILED RESULTS" || t == "  Metadata:" || t == "  Warnings:" || t == "  Errors:"
  }

  /** A cheap witness that `l` is not `t`: they differ in length, first, third or last character. */
  predicate Apart(l: string, t: string) {
    || |l| != |t|
    || (|l| > 0 && l[0] != t[0])
    || (|l| > 2 && l[2] != t[2])
    || (|l| > 0 && l[|l| - 1] != t[|t| - 1])
  }

  /** No line opens with one of the three symbols. */
  ghost predicate NoMarks(ls: seq<string>) {
    forall i :: 0 <= i < |ls| ==> !MarkedBy(ls[i], Warn) && !MarkedBy(ls[i], Tick) && !MarkedBy(ls[i], Cross)
  }

  /** No line is one of the headings. */
  ghost predicate NoHeadings(ls: seq<string>) {
    forall i :: 0 <= i < |ls| ==>
      && Apart(ls[i], "DETAILED RESULTS") && Apart(ls[i], "  Metadata:")
      && Apart(ls[i], "  Warnings:") && Apart(ls[i], "  Errors:")
  }

  function NamesOf(rs: seq<ResultRecord>): seq<string> {
    if rs == [] then [] else NamesOf(rs[..|rs| - 1]) + [Name(rs[|rs| - 1].sourceFile)]
  }

  function MetaCount(rs: seq<ResultRecord>): nat {
    if rs == [] then 0 else MetaCount(rs[..|rs| - 1]) + (if rs[|rs| - 1].metadata != [] then 1 else 0)
  }

  function ErroredCount(rs: seq<ResultRecord>): nat {
    if rs == [] then 0 else ErroredCount(rs[..|rs| - 1]) + (if rs[|rs| - 1].errors != [] then 1 else 0)
  }

  lemma {:induction false} MarkedAppend(a: seq<string>, b: seq<string>, c: char)
    ensures Marked(a + b, c) == Marked(a, c) + Marked(b, c)
    decreases |b|
  {
    if b == [] {
      assert a + b == a;
    } else {
      assert (a + b)[..|a + b| - 1] == a + b[..|b| - 1];
      MarkedAppend(a, b[..|b| - 1], c);
    }
  }

  lemma {:induction false} OccursAppend(a: seq<string>, b: seq<string>, t: string)
    ensures Occurs(a + b, t) == Occurs(a, t) + Occurs(b, t)
    decreases |b|
  {
    if b == [] {
      assert a + b == a;
    } else {
      assert (a + b)[..|a + b| - 1] == a + b[..|b| - 1];
      OccursAppend(a, b[..|b| - 1], t);
    }
  }

  lemma {:induction false} NoMarksRead(ls: seq<string>, c: char)
    requires NoMarks(ls) && Symbol(c)
    ensures Marked(ls, c) == []
  {
    if ls != [] {
      NoMarksRead(ls[..|ls| - 1], c);
    }
  }

  lemma {:induction false} NoHeadingsRead(ls: seq<string>, t: string)
    requires NoHeadings(ls) && Heading(t)
    ensures Occurs(ls, t) == 0
  {
    if ls != [] {
      NoHeadingsRead(ls[..|ls| - 1], t);
    }
  }

  /** A heading line followed by lines that are not headings. */
  lemma Titled(h: string, body: seq<string>, t: string)
    requires NoHeadings(body) && Heading(t)
    ensures Occurs([h] + body, t) == (if h == t then 1 else 0)
  {
    OccursAppend([h], body, t);
    NoHeadingsRead(body, t);
    assert [h][..0] == [];
  }

  lemma RuleLine(c: char)
    requires c == '-' || c == '='
    ensures var rule := Rule(c); |rule| == 80 && rule[0] == c
  {
  }

  lemma PrefixAt(a: string, b: string, k: nat)
    requires k < |a|
    ensures (a + b)[k] == a[k]
  {
  }

  lemma LastOf(a: string, b: string)
    requires b != []
    ensures (a + b)[|a + b| - 1] == b[|b| - 1]
  {
  }

  lemma HeaderPlain(outputDir: Path, timestamp: string)
    ensures NoMarks(HeaderLines(outputDir, timestamp)) && NoHeadings(HeaderLines(outputDir, timestamp))
  {
  }

  lemma FileTypesPlain(types: seq<(string, nat)>)
    ensures NoMarks(FileTypeLines(types)) && NoHeadings(FileTypeLines(types))
  {
    var ls := FileTypeLines(types);
    forall i | 0 <= i < |ls|
      ensures Apart(ls[i], "DETAILED RESULTS") && Apart(ls[i], "  Metadata:")
      ensures Apart(ls[i], "  Warnings:") && Apart(ls[i], "  Errors:")
    {
      LastOf("  " + types[i].0 + ": " + NatToString(types[i].1), " files");
    }
  }

  lemma ScanPlain(scan: ScanDict, formatSize: nat -> string)
    ensures NoMarks(ScanLines(scan, formatSize)) && NoHeadings(ScanLines(scan, formatSize))
  {
    FileTypesPlain(if scan.fileTypes.Some? then scan.fileTypes.value else []);
  }

  lemma MetaLinesPlain(metadata: seq<(string, MetaValue)>)
    ensures NoMarks(MetaLines(metadata)) && NoHeadings(MetaLines(metadata))
  {
  }

  lemma BulletsPlain(items: seq<string>)
    ensures NoMarks(Bullets(items)) && NoHeadings(Bullets(items))
  {
  }

  /** Only the cancel banner is marked in the summary section, and it has no heading. */
  lemma SummaryRead(summary: SummaryDict, c: char, t: string)
    requires Symbol(c) && Heading(t)
    ensures Marked(SummaryLines(summary), c) == (if c == Warn && Truthy(summary.cancelled) then [CancelText] else [])
    ensures Occurs(SummaryLines(summary), t) == 0
  {
    var fixed, banner := SummaryCounts(summary), CancelBanner(summary);
    CountsPlain(summary);
    MarkedAppend(fixed + banner, [""], c);
    MarkedAppend(fixed, banner, c);
    NoMarksRead(fixed, c);
    OccursAppend(fixed + banner, [""], t);
    OccursAppend(fixed, banner, t);
    NoHeadingsRead(fixed, t);
    OneLine("", c, t);
    if banner != [] {
      EntryHead(Warn, CancelText, c, t);
    }
  }

  lemma CountsPlain(summary: SummaryDict)
    ensures NoMarks(SummaryCounts(summary)) && NoHeadings(SummaryCounts(summary))
  {
    RuleLine('-');
  }

  /** What one line contributes to each reading. */
  lemma OneLine(l: string, c: char, t: string)
    ensures Marked([l], c) == (if MarkedBy(l, c) then [l[2..]] else [])
    ensures Occurs([l], t) == (if l == t then 1 else 0)
  {
    assert [l][..0] == [];
  }

  /** The two lines that open an entry: a blank line, then the symbol and the file's name. */
  lemma EntryHead(sym: char, name: string, c: char, t: string)
    requires Symbol(sym) && Symbol(c) && Heading(t)
    ensures Marked(["", [sym, ' '] + name], c) == (if c == sym then [name] else [])
    ensures Occurs(["", [sym, ' '] + name], t) == 0
  {
    var l := [sym, ' '] + name;
    assert l[0] == sym && l[1] == ' ' && l[2..] == name;
    assert ["", l] == [""] + [l];
    MarkedAppend([""], [l], c);
    OccursAppend([""], [l], t);
    OneLine("", c, t);
    OneLine(l, c, t);
  }

  /** A successful result's entry: one ticked line with its name, and its sub-headings. */
  lemma SuccessEntryMarked(r: ResultRecord, c: char)
    requires Symbol(c)
    ensures Marked(SuccessEntry(r), c) == (if c == Tick then [Name(r.sourceFile)] else [])
  {
    var first := ["", [Tick, ' '] + Name(r.sourceFile), FilesLine(r)];
    var meta, warn := MetaSection(r.metadata), BulletSection("  Warnings:", r.warnings);
    MarkedAppend(first + meta, warn, c);
    MarkedAppend(first, meta, c);
    MetaSectionPlain(r.metadata);
    BulletSectionPlain("  Warnings:", r.warnings);
    NoMarksRead(meta, c);
    NoMarksRead(warn, c);
    EntryFirst(r, c, "  Errors:");
  }

  lemma SuccessEntryOccurs(r: ResultRecord, t: string)
    requires Heading(t)
    ensures Occurs(SuccessEntry(r), t) ==
      (if t == "  Metadata:" && r.metadata != [] then 1 else 0)
      + (if t == "  Warnings:" && r.warnings != [] then 1 else 0)
  {
    var first := ["", [Tick, ' '] + Name(r.sourceFile), FilesLine(r)];
    var meta, warn := MetaSection(r.metadata), BulletSection("  Warnings:", r.warnings);
    OccursAppend(first + meta, warn, t);
    OccursAppend(first, meta, t);
    EntryFirst(r, Tick, t);
    if r.metadata != [] {
      MetaLinesPlain(r.metadata);
      Titled("  Metadata:", MetaLines(r.metadata), t);
    }
    if r.warnings != [] {
      BulletsPlain(r.warnings);
      Titled("  Warnings:", Bullets(r.warnings), t);
    }
  }

  /** The first three lines of a successful entry: blank, ticked name, count of extracted files. */
  lemma EntryFirst(r: ResultRecord, c: char, t: string)
    requires Symbol(c) && Heading(t)
    ensures Marked(["", [Tick, ' '] + Name(r.sourceFile), FilesLine(r)], c) == (if c == Tick then [Name(r.sourceFile)] else [])
    ensures Occurs(["", [Tick, ' '] + Name(r.sourceFile), FilesLine(r)], t) == 0
  {
    var head := ["", [Tick, ' '] + Name(r.sourceFile)];
    var files := FilesLine(r);
    assert head + [files] == ["", [Tick, ' '] + Name(r.sourceFile), files];
    MarkedAppend(head, [files], c);
    OccursAppend(head, [files], t);
    EntryHead(Tick, Name(r.sourceFile), c, t);
    PrefixAt("  Files extracted: ", NatToString(|r.extractedFiles|), 2);
    OneLine(files, c, t);
  }

  /** The sections under an entry's first lines carry no symbol. */
  lemma MetaSectionPlain(metadata: seq<(string, MetaValue)>)
    ensures NoMarks(MetaSection(metadata))
  {
    if metadata != [] {
      MetaLinesPlain(metadata);
      TitledPlain("  Metadata:", MetaLines(metadata));
    }
  }

  lemma BulletSectionPlain(title: string, items: seq<string>)
    requires title != [] && title[0] < '\U{80}'
    ensures NoMarks(BulletSection(title, items))
  {
    if items != [] {
      BulletsPlain(items);
      TitledPlain(title, Bullets(items));
    }
  }

  /** A failed result's entry: one crossed line with its name, and its error heading. */
  lemma FailEntryRead(r: ResultRecord, c: char, t: string)
    requires Symbol(c) && Heading(t)
    ensures Marked(FailEntry(r), c) == (if c == Cross then [Name(r.sourceFile)] else [])
    ensures Occurs(FailEntry(r), t) == (if t == "  Errors:" && r.errors != [] then 1 else 0)
  {
    var head := ["", [Cross, ' '] + Name(r.sourceFile)];
    var errs := BulletSection("  Errors:", r.errors);
    BulletSectionPlain("  Errors:", r.errors);
    MarkedAppend(head, errs, c);
    NoMarksRead(errs, c);
    OccursAppend(head, errs, t);
    EntryHead(Cross, Name(r.sourceFile), c, t);
    if r.errors != [] {
      BulletsPlain(r.errors);
      Titled("  Errors:", Bullets(r.errors), t);
    }
  }

  lemma {:induction false} SuccessEntriesRead(rs: seq<ResultRecord>, c: char, t: string)
    requires Symbol(c) && Heading(t)
    ensures Marked(SuccessEntries(rs), c) == (if c == Tick then NamesOf(rs) else [])
    ensures Occurs(SuccessEntries(rs), t) ==
      (if t == "  Metadata:" then MetaCount(rs) else 0) + (if t == "  Warnings:" then ExtractionManagement.WarnedCount(rs) else 0)
  {
    if rs != [] {
      var last := rs[|rs| - 1];
      SuccessEntriesRead(rs[..|rs| - 1], c, t);
      MarkedAppend(SuccessEntries(rs[..|rs| - 1]), SuccessEntry(last), c);
      OccursAppend(SuccessEntries(rs[..|rs| - 1]), SuccessEntry(last), t);
      SuccessEntryMarked(last, c);
      SuccessEntryOccurs(last, t);
    }
  }

  lemma {:induction false} FailEntriesRead(rs: seq<ResultRecord>, c: char, t: string)
    requires Symbol(c) && Heading(t)
    ensures Marked(FailEntries(rs), c) == (if c == Cross then NamesOf(rs) else [])
    ensures Occurs(FailEntries(rs), t) == (if t == "  Errors:" then ErroredCount(rs) else 0)
  {
    if rs != [] {
      var last := rs[|rs| - 1];
      FailEntriesRead(rs[..|rs| - 1], c, t);
      MarkedAppend(FailEntries(rs[..|rs| - 1]), FailEntry(last), c);
      OccursAppend(FailEntries(rs[..|rs| - 1]), FailEntry(last), t);
      FailEntryRead(last, c, t);
    }
  }

  /** Lines with no symbol and no heading, put around a block, change neither reading. */
  lemma Framed(pre: seq<string>, mid: seq<string>, post: seq<string>, c: char, t: string)
    requires NoMarks(pre) && NoHeadings(pre) && NoMarks(post) && NoHeadings(post) && Symbol(c) && Heading(t)
    ensures Marked(pre + mid + post, c) == Marked(mid, c)
    ensures Occurs(pre + mid + post, t) == Occurs(mid, t)
  {
    MarkedAppend(pre + mid, post, c);
    MarkedAppend(pre, mid, c);
    OccursAppend(pre + mid, post, t);
    OccursAppend(pre, mid, t);
    NoMarksRead(pre, c);
    NoMarksRead(post, c);
    NoHeadingsRead(pre, t);
    NoHeadingsRead(post, t);
  }

  /** The group titles and their rules. */
  lemma TitlesPlain(n: nat)
    ensures var pre := ["", "FAILED EXTRACTIONS (" + NatToString(n) + ")", Rule('-')];
      NoMarks(pre) && NoHeadings(pre)
    ensures var pre := ["SUCCESSFUL EXTRACTIONS (" + NatToString(n) + ")", Rule('-')];
      NoMarks(pre) && NoHeadings(pre)
  {
    PrefixAt("FAILED EXTRACTIONS (", NatToString(n) + ")", 0);
    PrefixAt("SUCCESSFUL EXTRACTIONS (", NatToString(n) + ")", 0);
    RuleLine('-');
  }

  lemma SuccessBlockRead(rs: seq<ResultRecord>, c: char, t: string)
    requires Symbol(c) && Heading(t)
    ensures Marked(SuccessBlock(rs), c) == (if c == Tick then NamesOf(rs) else [])
    ensures Occurs(SuccessBlock(rs), t) ==
      (if t == "  Metadata:" then MetaCount(rs) else 0) + (if t == "  Warnings:" then ExtractionManagement.WarnedCount(rs) else 0)
  {
    SuccessEntriesRead(rs, c, t);
    if rs != [] {
      TitlesPlain(|rs|);
      Framed(["SUCCESSFUL EXTRACTIONS (" + NatToString(|rs|) + ")", Rule('-')], SuccessEntries(rs), [""], c, t);
    }
  }

  lemma FailBlockRead(rs: seq<ResultRecord>, c: char, t: string)
    requires Symbol(c) && Heading(t)
    ensures Marked(FailBlock(rs), c) == (if c == Cross then NamesOf(rs) else [])
    ensures Occurs(FailBlock(rs), t) == (if t == "  Errors:" then ErroredCount(rs) else 0)
  {
    FailEntriesRead(rs, c, t);
    if rs != [] {
      TitlesPlain(|rs|);
      Framed(["", "FAILED EXTRACTIONS (" + NatToString(|rs|) + ")", Rule('-')], FailEntries(rs), [""], c, t);
    }
  }

  /** The three lines that open the detailed results. */
  lemma DetailedHead(c: char, t: string)
    requires Symbol(c) && Heading(t)
    ensures Marked(["DETAILED RESULTS", Rule('-'), ""], c) == []
    ensures Occurs(["DETAILED RESULTS", Rule('-'), ""], t) == (if t == "DETAILED RESULTS" then 1 else 0)
  {
    var head := ["DETAILED RESULTS", Rule('-'), ""];
    var rule := Rule('-');
    assert |rule| == 80 && rule[0] == '-';
    assert NoHeadings([rule, ""]);
    assert head == ["DETAILED RESULTS"] + [rule, ""];
    Titled("DETAILED RESULTS", [rule, ""], t);
    PlainFirsts(head);
    NoMarksRead(head, c);
  }

  /** A line opening with an ASCII character, put before unmarked lines, keeps them unmarked. */
  lemma TitledPlain(l: string, ls: seq<string>)
    requires l != [] && l[0] < '\U{80}' && NoMarks(ls)
    ensures NoMarks([l] + ls)
  {
    forall i | 0 < i < |[l] + ls| ensures ([l] + ls)[i] == ls[i - 1] {
    }
  }

  lemma NoMarksAppend(a: seq<string>, b: seq<string>)
    requires NoMarks(a) && NoMarks(b)
    ensures NoMarks(a + b)
  {
    forall i | |a| <= i < |a + b| ensures (a + b)[i] == b[i - |a|] {
    }
  }

  /** Lines that are empty or open with an ASCII character carry no symbol. */
  lemma PlainFirsts(ls: seq<string>)
    requires forall i :: 0 <= i < |ls| ==> ls[i] == [] || ls[i][0] < '\U{80}'
    ensures NoMarks(ls)
  {
  }

  lemma DetailedMarked(results: seq<ResultRecord>, c: char)
    requires Symbol(c)
    ensures Marked(DetailedLines(results), c) ==
      if c == Tick then NamesOf(Successful(results))
      else if c == Cross then NamesOf(Failed(results))
      else []
  {
    var ok := Successful(results);
    var bad := Failed(results);
    if results == [] {
      assert ok == [] && bad == [];
    } else {
      var head := ["DETAILED RESULTS", Rule('-'), ""];
      assert DetailedLines(results) == head + (SuccessBlock(ok) + FailBlock(bad));
      SuccessBlockRead(ok, c, "  Errors:");
      FailBlockRead(bad, c, "  Errors:");
      MarkedAppend(head, SuccessBlock(ok) + FailBlock(bad), c);
      MarkedAppend(SuccessBlock(ok), FailBlock(bad), c);
      DetailedHead(c, "  Errors:");
    }
  }

  lemma DetailedOccurs(results: seq<ResultRecord>, t: string)
    requires Heading(t)
    ensures Occurs(DetailedLines(results), t) ==
      (if t == "DETAILED RESULTS" && results != [] then 1 else 0)
      + (if t == "  Metadata:" then MetaCount(Successful(results)) else 0)
      + (if t == "  Warnings:" then ExtractionManagement.WarnedCount(Successful(results)) else 0)
      + (if t == "  Errors:" then ErroredCount(Failed(results)) else 0)
  {
    var ok := Successful(results);
    var bad := Failed(results);
    if results == [] {
      assert ok == [] && bad == [];
    } else {
      var head := ["DETAILED RESULTS", Rule('-'), ""];
      assert DetailedLines(results) == head + (SuccessBlock(ok) + FailBlock(bad));
      SuccessBlockRead(ok, Tick, t);
      FailBlockRead(bad, Tick, t);
      OccursAppend(head, SuccessBlock(ok) + FailBlock(bad), t);
      OccursAppend(SuccessBlock(ok), FailBlock(bad), t);
      DetailedHead(Tick, t);
    }
  }

  lemma FooterPlain()
    ensures NoMarks(FooterLines) && NoHeadings(FooterLines)
  {
    var rule := Rule('=');
    assert |rule| == 80 && rule[0] == '=';
  }

  /** Header, scan section and footer open with no symbol. */
  lemma ReportMarked(outputDir: Path, scan: ScanDict, summary: SummaryDict, results: seq<ResultRecord>,
                     timestamp: string, formatSize: nat -> string, c: char)
    requires Symbol(c)
    ensures Marked(ReportLines(outputDir, scan, summary, results, timestamp, formatSize), c)
      == Marked(SummaryLines(summary), c) + Marked(DetailedLines(results), c)
  {
    var header := HeaderLines(outputDir, timestamp);
    var scanned := ScanLines(scan, formatSize);
    var tally := SummaryLines(summary);
    var detail := DetailedLines(results);
    HeaderPlain(outputDir, timestamp);
    ScanPlain(scan, formatSize);
    FooterPlain();
    assert Marked(header + scanned, c) == [] by {
      MarkedAppend(header, scanned, c);
      NoMarksRead(header, c);
      NoMarksRead(scanned, c);
    }
    assert Marked(header + scanned + tally, c) == Marked(tally, c) by {
      MarkedAppend(header + scanned, tally, c);
    }
    assert Marked(header + scanned + tally + detail, c) == Marked(tally, c) + Marked(detail, c) by {
      MarkedAppend(header + scanned + tally, detail, c);
    }
    MarkedAppend(header + scanned + tally + detail, FooterLines, c);
    NoMarksRead(FooterLines, c);
  }

  /** Header, scan section, summary section and footer hold no heading. */
  lemma ReportOccurs(outputDir: Path, scan: ScanDict, summary: SummaryDict, results: seq<ResultRecord>,
                     timestamp: string, formatSize: nat -> string, t: string)
    requires Heading(t)
    ensures Occurs(ReportLines(outputDir, scan, summary, results, timestamp, formatSize), t)
      == Occurs(DetailedLines(results), t)
  {
    var header := HeaderLines(outputDir, timestamp);
    var scanned := ScanLines(scan, formatSize);
    var tally := SummaryLines(summary);
    var detail := DetailedLines(results);
    HeaderPlain(outputDir, timestamp);
    ScanPlain(scan, formatSize);
    FooterPlain();
    SummaryRead(summary, Warn, t);
    OccursAppend(header + scanned + tally + detail, FooterLines, t);
    OccursAppend(header + scanned + tally, detail, t);
    OccursAppend(header + scanned, tally, t);
    OccursAppend(header, scanned, t);
    NoHeadingsRead(header, t);
    NoHeadingsRead(scanned, t);
    NoHeadingsRead(FooterLines, t);
  }

  /**
   * The lines opening with a symbol: the cancel banner exactly when the summary says the run
   * was cancelled, a tick and the file's name for each successful result and a cross and the
   * file's name for each failed one, in the order of `results`.
   */
  lemma ReportMarks(outputDir: Path, scan: ScanDict, summary: SummaryDict, results: seq<ResultRecord>,
                    timestamp: string, formatSize: nat -> string)
    ensures var ls := ReportLines(outputDir, scan, summary, results, timestamp, formatSize);
      && Marked(ls, Warn) == (if Truthy(summary.cancelled) then [CancelText] else [])
      && Marked(ls, Tick) == NamesOf(Successful(results))
      && Marked(ls, Cross) == NamesOf(Failed(results))
  {
    ReportMarked(outputDir, scan, summary, results, timestamp, formatSize, Warn);
    ReportMarked(outputDir, scan, summary, results, timestamp, formatSize, Tick);
    ReportMarked(outputDir, scan, summary, results, timestamp, formatSize, Cross);
    SummaryRead(summary, Warn, "  Errors:");
    SummaryRead(summary, Tick, "  Errors:");
    SummaryRead(summary, Cross, "  Errors:");
    DetailedMarked(results, Warn);
    DetailedMarked(results, Tick);
    DetailedMarked(results, Cross);
  }

  /**
   * DETAILED RESULTS is printed once when there are results and never otherwise; a result's
   * metadata and warnings headings appear only under successful results, its errors heading
   * only under failed ones, each once per result that has any.
   */
  lemma ReportHeadings(outputDir: Path, scan: ScanDict, summary: SummaryDict, results: seq<ResultRecord>,
                       timestamp: string, formatSize: nat -> string)
    ensures var ls := ReportLines(outputDir, scan, summary, results, timestamp, formatSize);
      && Occurs(ls, "DETAILED RESULTS") == (if results == [] then 0 else 1)
      && Occurs(ls, "  Metadata:") == MetaCount(Successful(results))
      && Occurs(ls, "  Warnings:") == ExtractionManagement.WarnedCount(Successful(results))
      && Occurs(ls, "  Errors:") == ErroredCount(Failed(results))
  {
    ReportOccurs(outputDir, scan, summary, results, timestamp, formatSize, "DETAILED RESULTS");
    ReportOccurs(outputDir, scan, summary, results, timestamp, formatSize, "  Metadata:");
    ReportOccurs(outputDir, scan, summary, results, timestamp, formatSize, "  Warnings:");
    ReportOccurs(outputDir, scan, summary, results, timestamp, formatSize, "  Errors:");
    DetailedOccurs(results, "DETAILED RESULTS");
    DetailedOccurs(results, "  Metadata:");
    DetailedOccurs(results, "  Warnings:");
    DetailedOccurs(results, "  Errors:");
  }

  // ---------------------------------------------------------------------------------------
  // The two groups

  /** Both groups keep the order of `results`: filtering a concatenation filters each part. */
  lemma {:induction false} GroupsAppend(a: seq<ResultRecord>, b: seq<ResultRecord>)
    ensures Successful(a + b) == Successful(a) + Successful(b)
    ensures Failed(a + b) == Failed(a) + Failed(b)
    decreases |b|
  {
    if b == [] {
      assert a + b == a;
    } else {
      assert (a + b)[..|a + b| - 1] == a + b[..|b| - 1];
      GroupsAppend(a, b[..|b| - 1]);
    }
  }

  /** Every result lands in exactly one group, the one its `success` flag names. */
  lemma {:induction false} Partition(rs: seq<ResultRecord>)
    ensures |Successful(rs)| + |Failed(rs)| == |rs|
    ensures multiset(Successful(rs)) + multiset(Failed(rs)) == multiset(rs)
    ensures forall r :: r in Successful(rs) ==> r.success
    ensures forall r :: r in Failed(rs) ==> !r.success
  {
    if rs != [] {
      var init := rs[..|rs| - 1];
      Partition(init);
      assert rs == init + [rs[|rs| - 1]];
    }
  }

  /** The successful group has as many results as the manager counts as successful. */
  lemma {:induction false} GroupCounts(rs: seq<ResultRecord>)
    ensures |Successful(rs)| == ExtractionManagement.SuccessCount(rs)
    ensures ExtractionManagement.WarnedCount(Successful(rs)) <= ExtractionManagement.WarnedCount(rs)
  {
    if rs != [] {
      var init := rs[..|rs| - 1];
      GroupCounts(init);
      ExtractionManagement.CountsAppend(Successful(init), if rs[|rs| - 1].success then [rs[|rs| - 1]] else []);
    }
  }

  /**
   * For a fresh manager, the successful group the report lists has as many results as the
   * summary's Successful count; the failed group and the results with warnings may be fewer
   * than the summary's counts, since files without an extractor or whose extraction raised are
   * counted as failed without leaving a result, and warnings are counted for failed results too.
   */
  lemma ReportAgreesWithSummary(s: ExtractionManagement.Setup, cancelled0: bool, cancelAt: Option<nat>)
    ensures var k := ExtractionManagement.Begun(|s.files|, cancelled0, cancelAt);
      var rs := ExtractionManagement.ReturnedResults(s, k);
      var sm := ExtractionManagement.SummaryOf(s, cancelled0, cancelAt);
      && |Successful(rs)| == sm.successful
      && |Failed(rs)| <= sm.failed
      && ExtractionManagement.WarnedCount(Successful(rs)) <= sm.warnings
  {
    var k := ExtractionManagement.Begun(|s.files|, cancelled0, cancelAt);
    var rs := ExtractionManagement.ReturnedResults(s, k);
    ExtractionManagement.SummarySpec(s, cancelled0, cancelAt);
    GroupCounts(rs);
    Partition(rs);
  }

  /** Every key of either dictionary that is missing prints as if it held 0 (or False). */
  lemma MissingKeysReadAsZero(scan: ScanDict, summary: SummaryDict, formatSize: nat -> string)
    ensures ScanLines(scan, formatSize) ==
      ScanLines(ScanDict(Some(OrZero(scan.supportedCount)), Some(OrZero(scan.totalSize)),
                         Some(if scan.fileTypes.Some? then scan.fileTypes.value else [])), formatSize)
    ensures SummaryLines(summary) ==
      SummaryLines(SummaryDict(Some(OrZero(summary.totalProcessed)), Some(OrZero(summary.successful)),
                               Some(OrZero(summary.failed)), Some(OrZero(summary.warnings)),
                               Some(OrZero(summary.totalFilesExtracted)), Some(Truthy(summary.cancelled))))
  {
  }

  // ---------------------------------------------------------------------------------------
  // The writer

  /** `for ext, count in scan_results.get('file_types', {}).items()` */
  method WriteFileTypes(lines0: seq<string>, types: seq<(string, nat)>) returns (lines: seq<string>)
    ensures lines == lines0 + FileTypeLines(types)
  {
    lines := lines0;
    var j := 0;
    while j < |types|
      invariant j <= |types|
      invariant lines == lines0 + FileTypeLines(types[..j])
    {
      lines := lines + [FileTypeLine(types[j].0, types[j].1)];
      FileTypesStep(lines0, types, j);
      j := j + 1;
    }
    assert types[..j] == types;
  }

  /** `for key, value in result.metadata.items()` */
  method WriteMetadata(lines0: seq<string>, metadata: seq<(string, MetaValue)>) returns (lines: seq<string>)
    ensures lines == lines0 + MetaLines(metadata)
  {
    lines := lines0;
    var j := 0;
    while j < |metadata|
      invariant j <= |metadata|
      invariant lines == lines0 + MetaLines(metadata[..j])
    {
      lines := lines + [MetaLine(metadata[j].0, metadata[j].1)];
      MetaLinesStep(lines0, metadata, j);
      j := j + 1;
    }
    assert metadata[..j] == metadata;
  }

  /** `for warning in result.warnings` and `for error in result.errors` */
  method WriteBullets(lines0: seq<string>, items: seq<string>) returns (lines: seq<string>)
    ensures lines == lines0 + Bullets(items)
  {
    lines := lines0;
    var j := 0;
    while j < |items|
      invariant j <= |items|
      invariant lines == lines0 + Bullets(items[..j])
    {
      lines := lines + ["    - " + items[j]];
      BulletsStep(lines0, items, j);
      j := j + 1;
    }
    assert items[..j] == items;
  }

  /** One more turn of each writing loop extends the lines by the next one. */
  lemma FileTypesStep(lines0: seq<string>, types: seq<(string, nat)>, j: nat)
    requires j < |types|
    ensures lines0 + FileTypeLines(types[..j]) + [FileTypeLine(types[j].0, types[j].1)]
      == lines0 + FileTypeLines(types[..j + 1])
  {
    assert FileTypeLines(types[..j + 1]) == FileTypeLines(types[..j]) + [FileTypeLine(types[j].0, types[j].1)];
  }

  lemma MetaLinesStep(lines0: seq<string>, metadata: seq<(string, MetaValue)>, j: nat)
    requires j < |metadata|
    ensures lines0 + MetaLines(metadata[..j]) + [MetaLine(metadata[j].0, metadata[j].1)]
      == lines0 + MetaLines(metadata[..j + 1])
  {
    assert MetaLines(metadata[..j + 1]) == MetaLines(metadata[..j]) + [MetaLine(metadata[j].0, metadata[j].1)];
  }

  lemma BulletsStep(lines0: seq<string>, items: seq<string>, j: nat)
    requires j < |items|
    ensures lines0 + Bullets(items[..j]) + ["    - " + items[j]] == lines0 + Bullets(items[..j + 1])
  {
    assert Bullets(items[..j + 1]) == Bullets(items[..j]) + ["    - " + items[j]];
  }

  lemma SuccessEntriesNext(lines0: seq<string>, rs: seq<ResultRecord>, k: nat)
    requires k < |rs|
    ensures lines0 + SuccessEntries(rs[..k]) + SuccessEntry(rs[k]) == lines0 + SuccessEntries(rs[..k + 1])
  {
    assert rs[..k + 1][..k] == rs[..k];
    assert SuccessEntries(rs[..k + 1]) == SuccessEntries(rs[..k]) + SuccessEntry(rs[k]);
  }

  lemma FailEntriesNext(lines0: seq<string>, rs: seq<ResultRecord>, k: nat)
    requires k < |rs|
    ensures lines0 + FailEntries(rs[..k]) + FailEntry(rs[k]) == lines0 + FailEntries(rs[..k + 1])
  {
    assert rs[..k + 1][..k] == rs[..k];
    assert FailEntries(rs[..k + 1]) == FailEntries(rs[..k]) + FailEntry(rs[k]);
  }

  /** The body of `for result in successful`. */
  method WriteSuccessEntry(lines0: seq<string>, result: ResultRecord) returns (lines: seq<string>)
    ensures lines == lines0 + SuccessEntry(result)
  {
    var first := ["", [Tick, ' '] + Name(result.sourceFile), "  Files extracted: " + NatToString(|result.extractedFiles|)];
    ghost var meta := MetaSection(result.metadata);
    ghost var warn := BulletSection("  Warnings:", result.warnings);
    lines := lines0 + first;
    if result.metadata != [] {
      ghost var before := lines;
      lines := lines + ["  Metadata:"];
      lines := WriteMetadata(lines, result.metadata);
      AppendAssoc(before, ["  Metadata:"], MetaLines(result.metadata));
    }
    assert lines == lines0 + first + meta;
    if result.warnings != [] {
      ghost var before := lines;
      lines := lines + ["  Warnings:"];
      lines := WriteBullets(lines, result.warnings);
      AppendAssoc(before, ["  Warnings:"], Bullets(result.warnings));
    }
    assert lines == lines0 + first + meta + warn;
    AppendAssoc4(lines0, first, meta, warn);
  }

  /** `for result in successful` */
  method WriteSuccessful(lines0: seq<string>, successful: seq<ResultRecord>) returns (lines: seq<string>)
    ensures lines == lines0 + SuccessEntries(successful)
  {
    lines := lines0;
    var k := 0;
    while k < |successful|
      invariant k <= |successful|
      invariant lines == lines0 + SuccessEntries(successful[..k])
    {
      lines := WriteSuccessEntry(lines, successful[k]);
      SuccessEntriesNext(lines0, successful, k);
      k := k + 1;
    }
    assert successful[..k] == successful;
  }

  /** The body of `for result in failed`. */
  method WriteFailEntry(lines0: seq<string>, result: ResultRecord) returns (lines: seq<string>)
    ensures lines == lines0 + FailEntry(result)
  {
    var first := ["", [Cross, ' '] + Name(result.sourceFile)];
    lines := lines0 + first;
    if result.errors != [] {
      lines := lines + ["  Errors:"];
      lines := WriteBullets(lines, result.errors);
      AppendAssoc4(lines0, first, ["  Errors:"], Bullets(result.errors));
    }
  }

  /** `for result in failed` */
  method WriteFailed(lines0: seq<string>, failed: seq<ResultRecord>) returns (lines: seq<string>)
    ensures lines == lines0 + FailEntries(failed)
  {
    lines := lines0;
    var k := 0;
    while k < |failed|
      invariant k <= |failed|
      invariant lines == lines0 + FailEntries(failed[..k])
    {
      lines := WriteFailEntry(lines, failed[k]);
      FailEntriesNext(lines0, failed, k);
      k := k + 1;
    }
    assert failed[..k] == failed;
  }

  /** The SUCCESSFUL EXTRACTIONS group, written only when it is not empty. */
  method WriteSuccessBlock(lines0: seq<string>, successful: seq<ResultRecord>) returns (lines: seq<string>)
    ensures lines == lines0 + SuccessBlock(successful)
  {
    lines := lines0;
    if successful != [] {
      var title := ["SUCCESSFUL EXTRACTIONS (" + NatToString(|successful|) + ")", Rule('-')];
      lines := lines + title;
      lines := WriteSuccessful(lines, successful);
      lines := lines + [""];
      AppendAssoc4(lines0, title, SuccessEntries(successful), [""]);
    }
  }

  /** The FAILED EXTRACTIONS group, written only when it is not empty. */
  method WriteFailBlock(lines0: seq<string>, failed: seq<ResultRecord>) returns (lines: seq<string>)
    ensures lines == lines0 + FailBlock(failed)
  {
    lines := lines0;
    if failed != [] {
      var title := ["", "FAILED EXTRACTIONS (" + NatToString(|failed|) + ")", Rule('-')];
      lines := lines + title;
      lines := WriteFailed(lines, failed);
      lines := lines + [""];
      AppendAssoc4(lines0, title, FailEntries(failed), [""]);
    }
  }

  /** The DETAILED RESULTS section, written only when there are results. */
  method WriteDetailed(lines0: seq<string>, results: seq<ResultRecord>) returns (lines: seq<string>)
    ensures lines == lines0 + DetailedLines(results)
  {
    lines := lines0;
    if results != [] {
      var title := ["DETAILED RESULTS", Rule('-'), ""];
      lines := lines + title;
      var successful := Successful(results);
      var failed := Failed(results);
      lines := WriteSuccessBlock(lines, successful);
      lines := WriteFailBlock(lines, failed);
      AppendAssoc4(lines0, title, SuccessBlock(successful), FailBlock(failed));
    }
  }

  /** The report's header: title, time stamp and output directory between rules. */
  method WriteHeader(outputDir: Path, timestamp: string) returns (lines: seq<string>)
    ensures lines == HeaderLines(outputDir, timestamp)
  {
    lines := [Rule('='), "DATA EXTRACTION REPORT", Rule('='), "Generated: " + timestamp,
              "Output Directory: " + ToString(outputDir), Rule('='), ""];
  }

  /** The scan section: counts, total size and one line per file type. */
  method WriteScan(lines0: seq<string>, scan: ScanDict, formatSize: nat -> string) returns (lines: seq<string>)
    ensures lines == lines0 + ScanLines(scan, formatSize)
  {
    var title := ["SCAN SUMMARY", Rule('-'),
                  "Files scanned: " + NatToString(OrZero(scan.supportedCount)),
                  "Total size: " + formatSize(OrZero(scan.totalSize)),
                  "", "File types found:"];
    var types := if scan.fileTypes.Some? then scan.fileTypes.value else [];
    lines := lines0 + title;
    lines := WriteFileTypes(lines, types);
    lines := lines + [""];
    AppendAssoc4(lines0, title, FileTypeLines(types), [""]);
  }

  /** The extraction summary: the counters, then the banner when the run was cancelled. */
  method WriteSummary(lines0: seq<string>, summary: SummaryDict) returns (lines: seq<string>)
    ensures lines == lines0 + SummaryLines(summary)
  {
    lines := lines0 + ["EXTRACTION SUMMARY", Rule('-'),
                       "Files processed: " + NatToString(OrZero(summary.totalProcessed)),
                       "Successful: " + NatToString(OrZero(summary.successful)),
                       "Failed: " + NatToString(OrZero(summary.failed)),
                       "Warnings: " + NatToString(OrZero(summary.warnings)),
                       "Total files extracted: " + NatToString(OrZero(summary.totalFilesExtracted))];
    if Truthy(summary.cancelled) {
      lines := lines + ["", [Warn, ' '] + CancelText];
    }
    lines := lines + [""];
    AppendAssoc4(lines0, SummaryCounts(summary), CancelBanner(summary), [""]);
  }

  /**
   * `generate_summary_report`: the report goes to `output_dir/EXTRACTION_REPORT.txt`; when the
   * file cannot be written the error is passed on and nothing is written.
   */
  method GenerateSummaryReport(outputDir: Path, scan: ScanDict, summary: SummaryDict, results: seq<ResultRecord>,
                               timestamp: string, formatSize: nat -> string, writable: bool)
    returns (r: Result<Path>, lines: seq<string>)
    ensures writable ==>
      r == Ok(ReportPath(outputDir)) && lines == ReportLines(outputDir, scan, summary, results, timestamp, formatSize)
    ensures !writable ==> r.Err? && lines == []
  {
    var reportPath := Child(outputDir, ReportName);
    if !writable {
      return Err("cannot write " + ToString(reportPath)), [];
    }
    lines := WriteHeader(outputDir, timestamp);
    lines := WriteScan(lines, scan, formatSize);
    lines := WriteSummary(lines, summary);
    lines := WriteDetailed(lines, results);
    lines := lines + FooterLines;
    r := Ok(reportPath);
  }
}
