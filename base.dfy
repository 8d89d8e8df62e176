/**
 * What every extractor shares: the ExtractionResult record it fills in, the interrupt flag and
 * sub-step callback of BaseExtractor, and the file-naming helpers `sanitize_filename` and
 * `get_unique_filename`.
 */
module Base {
  import opened Wrappers
  import opened Strings
  import opened Paths

  /** A value stored in a result's metadata dictionary: a count, or a list of names. */
  datatype MetaValue = Count(n: int) | Names(names: seq<string>)

  /** Insertion-ordered dictionary assignment `m[key] = value`. */
  function SetKey(m: seq<(string, MetaValue)>, key: string, value: MetaValue): seq<(string, MetaValue)> {
    if m == [] then [(key, value)]
    else if m[0].0 == key then [(key, value)] + m[1..]
    else [m[0]] + SetKey(m[1..], key, value)
  }

  /** The value stored under `key`, if any. */
  function Lookup(m: seq<(string, MetaValue)>, key: string): Option<MetaValue> {
    if m == [] then None
    else if m[0].0 == key then Some(m[0].1)
    else Lookup(m[1..], key)
  }

  /**
   * Assignment keeps the order of the keys already present and every other entry, replaces
   * the entry of a present key in place, and appends an absent key at the end.
   */
  lemma {:induction false} SetKeySpec(m: seq<(string, MetaValue)>, key: string, value: MetaValue)
    ensures var r := SetKey(m, key, value);
      && (|r| == |m| || |r| == |m| + 1)
      && (forall i :: 0 <= i < |m| ==> r[i].0 == m[i].0)
      && (forall i :: 0 <= i < |m| && m[i].0 != key ==> r[i] == m[i])
      && ((exists i :: 0 <= i < |m| && m[i].0 == key) <==> |r| == |m|)
      && (|r| == |m| + 1 ==> r[|m|] == (key, value))
  {
    if m != [] && m[0].0 != key {
      SetKeySpec(m[1..], key, value);
      var r := SetKey(m, key, value);
      var t := SetKey(m[1..], key, value);
      assert r == [m[0]] + t;
      if exists i :: 0 <= i < |m| && m[i].0 == key {
        var i :| 0 <= i < |m| && m[i].0 == key;
        assert m[1..][i - 1].0 == key;
      }
      if |r| == |m| {
        var j :| 0 <= j < |m| - 1 && m[1..][j].0 == key;
        assert m[j + 1].0 == key;
      }
    }
  }

  /** After `m[key] = value`, `m[key]` is `value` and every other key reads as before. */
  lemma {:induction false} SetKeyLookup(m: seq<(string, MetaValue)>, key: string, value: MetaValue, other: string)
    ensures Lookup(SetKey(m, key, value), key) == Some(value)
    ensures other != key ==> Lookup(SetKey(m, key, value), other) == Lookup(m, other)
  {
    if m != [] && m[0].0 != key {
      SetKeyLookup(m[1..], key, value, other);
    }
  }

  /** The state of an ExtractionResult, as a value. */
  datatype ResultRecord = ResultRecord(
    sourceFile: Path,
    success: bool,
    extractedFiles: seq<Path>,
    errors: seq<string>,
    warnings: seq<string>,
    metadata: seq<(string, MetaValue)>)
  {
    /** `add_file` */
    function WithFile(p: Path): ResultRecord {
      this.(extractedFiles := extractedFiles + [p])
    }

    /** `add_error`: the only operation that clears `success`. */
    function WithError(e: string): ResultRecord {
      this.(errors := errors + [e], success := false)
    }

    /** `add_warning` */
    function WithWarning(w: string): ResultRecord {
      this.(warnings := warnings + [w])
    }

    /** `metadata[key] = value` */
    function WithMeta(key: string, value: MetaValue): ResultRecord {
      this.(metadata := SetKey(metadata, key, value))
    }

    /** The extractors' `result.success = True`. */
    function Succeeded(): ResultRecord {
      this.(success := true)
    }

    /** Success is exactly the absence of errors. */
    predicate Consistent() {
      success <==> errors == []
    }
  }

  /** `ExtractionResult(source_file)`: successful, with every list empty. */
  function NewRecord(sourceFile: Path): (r: ResultRecord)
    ensures r.success && r.Consistent()
    ensures r.extractedFiles == [] && r.errors == [] && r.warnings == [] && r.metadata == []
  {
    ResultRecord(sourceFile, true, [], [], [], [])
  }

  /** Recording a file or a warning never changes `success`; recording an error always clears it. */
  lemma OnlyErrorsClearSuccess(r: ResultRecord, p: Path, s: string, k: string, v: MetaValue)
    ensures r.WithFile(p).success == r.success
    ensures r.WithWarning(s).success == r.success
    ensures r.WithMeta(k, v).success == r.success
    ensures !r.WithError(s).success
    ensures r.Consistent() ==> r.WithFile(p).Consistent() && r.WithWarning(s).Consistent()
    ensures r.Consistent() ==> r.WithMeta(k, v).Consistent() && r.WithError(s).Consistent()
  {
  }

  /** The result of one extraction, filled in step by step by an extractor. */
  class ExtractionResult {
    const sourceFile: Path
    var success: bool
    var extractedFiles: seq<Path>
    var errors: seq<string>
    var warnings: seq<string>
    var metadata: seq<(string, MetaValue)>

    function Snapshot(): (r: ResultRecord)
      reads this
      ensures r.sourceFile == sourceFile && r.success == success
      ensures r.extractedFiles == extractedFiles && r.errors == errors && r.warnings == warnings
    {
      ResultRecord(sourceFile, success, extractedFiles, errors, warnings, metadata)
    }

    constructor (sourceFile: Path, success: bool)
      ensures Snapshot() == NewRecord(sourceFile).(success := success)
    {
      this.sourceFile := sourceFile;
      this.success := success;
      extractedFiles := [];
      errors := [];
      warnings := [];
      metadata := [];
    }

    method AddFile(p: Path)
      modifies this
      ensures Snapshot() == old(Snapshot()).WithFile(p)
    {
      extractedFiles := extractedFiles + [p];
    }

    method AddError(e: string)
      modifies this
      ensures Snapshot() == old(Snapshot()).WithError(e)
    {
      errors := errors + [e];
      success := false;
    }

    method AddWarning(w: string)
      modifies this
      ensures Snapshot() == old(Snapshot()).WithWarning(w)
    {
      warnings := warnings + [w];
    }

    method SetMetadata(key: string, value: MetaValue)
      modifies this
      ensures Snapshot() == old(Snapshot()).WithMeta(key, value)
    {
      metadata := SetKey(metadata, key, value);
    }

    method MarkSuccess()
      modifies this
      ensures Snapshot() == old(Snapshot()).Succeeded()
    {
      success := true;
    }
  }

  /** What a call to `extract` does: return a result, or raise an exception with a message. */
  datatype Outcome = Returned(result: ResultRecord) | Raised(message: string)

  /** The message of ExtractionInterrupted. */
  const InterruptedMessage: string := "Extraction interrupted by user"

  /** The error every extractor records when an unexpected exception escapes its main body. */
  function FailedMessage(filepath: Path, e: string): string {
    "Failed to extract " + Name(filepath) + ": " + e
  }

  function OutputDirError(dir: Path): string {
    "Failed to create output directory: " + ToString(dir)
  }

  function ImagesDirWarning(dir: Path): string {
    "Failed to create images directory: " + ToString(dir)
  }

  /** The line of 80 '=' the text outputs use as section banner. */
  const Banner: string := Repeat('=', 80)

  /** The text file an extractor writes for a file whose sanitized name is `safe`. */
  function TextOutput(outputDir: Path, safe: string): Path {
    Child(outputDir, safe + ".txt")
  }

  /** The directory an extractor writes the images of that file into. */
  function ImagesDir(outputDir: Path, safe: string): Path {
    Child(outputDir, safe + "_images")
  }

  /**
   * The closing lines the extractors share: record the image count when there is one, then
   * mark success when some file was written and otherwise warn with `noData`.
   */
  function Conclude(rec: ResultRecord, count: nat, noData: string): (r: ResultRecord)
    ensures r.sourceFile == rec.sourceFile && r.errors == rec.errors && r.extractedFiles == rec.extractedFiles
    ensures rec.extractedFiles == [] ==> r.warnings == rec.warnings + [noData] && r.success == rec.success
    ensures rec.extractedFiles != [] ==> r.warnings == rec.warnings && r.success
  {
    var r := if count > 0 then rec.WithMeta("images_extracted", Count(count)) else rec;
    if |r.extractedFiles| > 0 then r.Succeeded() else r.WithWarning(noData)
  }

  /** The longest name `sanitize_filename` returns by default. */
  const DefaultMaxLength: int := 200

  /** One call on BaseExtractor's interrupt state. */
  datatype InterruptOp = Interrupt | ResetInterrupt | CheckInterrupted

  /** The interrupt flag after a sequence of calls, starting from a fresh extractor. */
  function FlagAfter(ops: seq<InterruptOp>): bool {
    if ops == [] then false
    else match ops[|ops| - 1]
      case Interrupt => true
      case ResetInterrupt => false
      case CheckInterrupted => FlagAfter(ops[..|ops| - 1])
  }

  /**
   * `check_interrupted` raises after `ops` exactly when `interrupt()` was called and
   * `reset_interrupt()` was not called after it.
   */
  lemma {:induction false} FlagAfterIff(ops: seq<InterruptOp>)
    ensures FlagAfter(ops) <==>
      exists i :: 0 <= i < |ops| && ops[i] == Interrupt &&
        forall j :: i < j < |ops| ==> ops[j] != ResetInterrupt
  {
    if ops != [] {
      var init := ops[..|ops| - 1];
      FlagAfterIff(init);
      var last := ops[|ops| - 1];
      if last == CheckInterrupted && FlagAfter(init) {
        var i :| 0 <= i < |init| && init[i] == Interrupt &&
          forall j :: i < j < |init| ==> init[j] != ResetInterrupt;
        assert ops[i] == Interrupt;
      }
      if last == CheckInterrupted && !FlagAfter(init) {
        forall i | 0 <= i < |ops| && ops[i] == Interrupt
          ensures exists j :: i < j < |ops| && ops[j] == ResetInterrupt
        {
          assert init[i] == Interrupt;
          var j :| i < j < |init| && init[j] == ResetInterrupt;
          assert ops[j] == ResetInterrupt;
        }
      }
      if last == Interrupt {
        assert ops[|ops| - 1] == Interrupt;
      }
    }
  }

  /** BaseExtractor's run-time state: the sub-step callback and the interrupt flag. */
  class ExtractorBase {
    /** Whether a sub-step callback is set. */
    var hasSubstepCallback: bool
    /** Messages delivered to the sub-step callback so far, in order. */
    var substeps: seq<string>
    var interrupted: bool
    /** Every call made on the interrupt state, for the specification. */
    ghost var ops: seq<InterruptOp>

    ghost predicate Valid()
      reads this`interrupted, this`ops
    {
      interrupted == FlagAfter(ops)
    }

    constructor ()
      ensures Valid() && !interrupted && !hasSubstepCallback && substeps == [] && ops == []
    {
      hasSubstepCallback := false;
      substeps := [];
      interrupted := false;
      ops := [];
    }

    /** `set_substep_callback`: `callbackSet` says whether a callback (rather than None) is passed. */
    method SetSubstepCallback(callbackSet: bool)
      modifies this`hasSubstepCallback
      ensures hasSubstepCallback == callbackSet
    {
      hasSubstepCallback := callbackSet;
    }

    /** `report_substep`: delivers the message exactly when a callback is set. */
    method ReportSubstep(message: string)
      modifies this`substeps
      ensures substeps == old(substeps) + (if hasSubstepCallback then [message] else [])
    {
      if hasSubstepCallback {
        substeps := substeps + [message];
      }
    }

    method Interrupt()
      requires Valid()
      modifies this`interrupted, this`ops
      ensures Valid() && interrupted && ops == old(ops) + [InterruptOp.Interrupt]
    {
      interrupted := true;
      ops := ops + [InterruptOp.Interrupt];
    }

    method ResetInterrupt()
      requires Valid()
      modifies this`interrupted, this`ops
      ensures Valid() && !interrupted && ops == old(ops) + [InterruptOp.ResetInterrupt]
    {
      interrupted := false;
      ops := ops + [InterruptOp.ResetInterrupt];
    }

    /** `check_interrupted`: `raised` stands for ExtractionInterrupted being raised. */
    method CheckInterrupted() returns (raised: bool)
      requires Valid()
      modifies this`ops
      ensures Valid() && ops == old(ops) + [InterruptOp.CheckInterrupted]
      ensures raised == interrupted
    {
      ops := ops + [InterruptOp.CheckInterrupted];
      raised := interrupted;
    }
  }

  // ---------------------------------------------------------------------------------------
  // sanitize_filename

  /** `s.replace(c, t)` for a single character `c`. */
  function ReplaceChar(s: string, c: char, t: string): (r: string)
    ensures c !in r || c in t
    ensures forall i :: 0 <= i < |r| ==> r[i] in s || r[i] in t
  {
    if s == [] then []
    else (if s[0] == c then t else [s[0]]) + ReplaceChar(s[1..], c, t)
  }

  /** The character replacements, in the order `sanitize_filename` applies them. */
  function ReplaceProblematic(name: string): string {
    var safe := ReplaceChar(ReplaceChar(ReplaceChar(name, ' ', "_"), '/', "_"), '\\', "_");
    var safe := ReplaceChar(ReplaceChar(ReplaceChar(safe, '(', ""), ')', ""), '-', "_");
    var safe := ReplaceChar(ReplaceChar(ReplaceChar(ReplaceChar(safe, '[', ""), ']', ""), '{', ""), '}', "");
    ReplaceChar(ReplaceChar(safe, '&', "and"), '#', "num")
  }

  predicate KeptChar(c: char) {
    IsAlnum(c) || c == '_'
  }

  /** `''.join(c for c in s if c.isalnum() or c == '_')` */
  function KeepSafe(s: string): (r: string)
    ensures forall i :: 0 <= i < |r| ==> KeptChar(r[i])
    ensures forall i :: 0 <= i < |s| && KeptChar(s[i]) ==> s[i] in r
  {
    if s == [] then []
    else (if KeptChar(s[0]) then [s[0]] else []) + KeepSafe(s[1..])
  }

  predicate HasDoubleUnderscore(s: string) {
    exists i :: 0 <= i < |s| - 1 && s[i] == '_' && s[i + 1] == '_'
  }

  lemma {:induction false} ContainsDoubleUnderscore(s: string)
    ensures Contains(s, "__") <==> HasDoubleUnderscore(s)
  {
    if s != [] {
      ContainsDoubleUnderscore(s[1..]);
      if HasDoubleUnderscore(s[1..]) {
        var i :| 0 <= i < |s[1..]| - 1 && s[1..][i] == '_' && s[1..][i + 1] == '_';
        assert s[i + 1] == '_' && s[i + 2] == '_';
      }
      if "__" <= s {
        assert s[0] == '_' && s[1] == '_';
      }
      if HasDoubleUnderscore(s) && !("__" <= s) {
        var i :| 0 <= i < |s| - 1 && s[i] == '_' && s[i + 1] == '_';
        assert i != 0;
        assert s[1..][i - 1] == '_' && s[1..][i] == '_';
      }
    }
  }

  /** `s.replace('__', '_')`: non-overlapping, left to right. */
  function CollapseOnce(s: string): (r: string)
    ensures |r| <= |s|
    ensures HasDoubleUnderscore(s) ==> |r| < |s|
    ensures forall i :: 0 <= i < |r| ==> r[i] in s
  {
    if |s| >= 2 && s[0] == '_' && s[1] == '_' then "_" + CollapseOnce(s[2..])
    else if s == [] then []
    else
      var rest := CollapseOnce(s[1..]);
      assert HasDoubleUnderscore(s) ==> HasDoubleUnderscore(s[1..]) by {
        if HasDoubleUnderscore(s) {
          var i :| 0 <= i < |s| - 1 && s[i] == '_' && s[i + 1] == '_';
          assert s[1..][i - 1] == '_' && s[1..][i] == '_';
        }
      }
      [s[0]] + rest
  }

  /** `while '__' in s: s = s.replace('__', '_')` */
  function Collapse(s: string): (r: string)
    ensures !HasDoubleUnderscore(r)
    ensures forall i :: 0 <= i < |r| ==> r[i] in s
    decreases |s|
  {
    if HasDoubleUnderscore(s) then Collapse(CollapseOnce(s)) else s
  }

  /** Python's `s[:n]`: a negative `n` counts from the end. */
  function SliceTo(s: string, n: int): (r: string)
    ensures |r| <= |s| && r == s[..|r|]
    ensures n >= 0 ==> |r| == if n < |s| then n else |s|
  {
    if n >= 0 then (if n < |s| then s[..n] else s)
    else if |s| + n > 0 then s[..|s| + n] else ""
  }

  /** What remains of the name once cleaned, before the 'unnamed' fallback and truncation. */
  function Cleaned(name: string): string {
    Lower(StripChar(Collapse(KeepSafe(ReplaceProblematic(Stem(NameOfString(name))))), '_'))
  }

  /** The value `sanitize_filename(name, max_length)` returns. */
  function Sanitize(name: string, maxLength: int): string {
    Finish(Cleaned(name), maxLength)
  }

  /** The 'unnamed' fallback for an empty name, then truncation to `maxLength`. */
  function Finish(safe: string, maxLength: int): string {
    var safe := if safe == "" then "unnamed" else safe;
    if |safe| > maxLength then SliceTo(safe, maxLength) else safe
  }

  /** A character that may appear in a sanitized name. */
  predicate SanitizedChar(c: char) {
    ('a' <= c <= 'z') || IsDigit(c) || c == '_'
  }

  lemma LowerKeepsSanitized(s: string)
    requires forall i :: 0 <= i < |s| ==> KeptChar(s[i])
    ensures forall i :: 0 <= i < |Lower(s)| ==> SanitizedChar(Lower(s)[i])
    ensures !HasDoubleUnderscore(s) ==> !HasDoubleUnderscore(Lower(s))
    ensures s != [] && s[0] != '_' ==> Lower(s)[0] != '_'
  {
    LowerSpec(s);
    var l := Lower(s);
    if HasDoubleUnderscore(l) {
      var i :| 0 <= i < |l| - 1 && l[i] == '_' && l[i + 1] == '_';
      assert s[i] == '_' && s[i + 1] == '_';
    }
  }

  /** A slice of a string without a pair of underscores has none either. */
  lemma SliceKeepsNoDouble(s: string, lo: nat, hi: nat)
    requires lo <= hi <= |s| && !HasDoubleUnderscore(s)
    ensures !HasDoubleUnderscore(s[lo..hi])
  {
    var t := s[lo..hi];
    forall i | 0 <= i < |t| - 1
      ensures !(t[i] == '_' && t[i + 1] == '_')
    {
      assert t[i] == s[lo + i] && t[i + 1] == s[lo + i + 1];
    }
  }

  /** Stripping a character from both ends cannot create a pair of underscores. */
  lemma StripKeepsNoDouble(s: string)
    requires !HasDoubleUnderscore(s)
    ensures !HasDoubleUnderscore(StripChar(s, '_'))
  {
    var l := LStripChar(s, '_');
    SliceKeepsNoDouble(s, |s| - |l|, |s|);
    var r := RStripChar(l, '_');
    SliceKeepsNoDouble(l, 0, |r|);
  }

  /** The cleaned name holds only lower-case letters, digits and single, inner underscores. */
  lemma CleanedIsSafe(name: string)
    ensures forall i :: 0 <= i < |Cleaned(name)| ==> SanitizedChar(Cleaned(name)[i])
    ensures !HasDoubleUnderscore(Cleaned(name))
    ensures Cleaned(name) == [] || Cleaned(name)[0] != '_'
  {
    var kept := KeepSafe(ReplaceProblematic(Stem(NameOfString(name))));
    var collapsed := Collapse(kept);
    assert forall i :: 0 <= i < |collapsed| ==> KeptChar(collapsed[i]) by {
      forall i | 0 <= i < |collapsed|
        ensures KeptChar(collapsed[i])
      {
        assert collapsed[i] in kept;
      }
    }
    var stripped := StripChar(collapsed, '_');
    assert forall i :: 0 <= i < |stripped| ==> KeptChar(stripped[i]) by {
      forall i | 0 <= i < |stripped|
        ensures KeptChar(stripped[i])
      {
        assert stripped[i] in collapsed;
      }
    }
    StripKeepsNoDouble(collapsed);
    LowerKeepsSanitized(stripped);
  }

  /** "unnamed" and every prefix of it is a sanitized name. */
  lemma UnnamedIsSafe(n: int)
    ensures var u := SliceTo("unnamed", n);
      (forall i :: 0 <= i < |u| ==> SanitizedChar(u[i])) && !HasDoubleUnderscore(u) && (u == [] || u[0] == 'u')
  {
    var u := SliceTo("unnamed", n);
    assert forall i :: 0 <= i < |u| ==> u[i] == "unnamed"[i];
  }

  /** The fallback and the truncation keep a cleaned name safe. */
  lemma FinishIsSafe(c: string, maxLength: int)
    requires forall i :: 0 <= i < |c| ==> SanitizedChar(c[i])
    requires !HasDoubleUnderscore(c) && (c == [] || c[0] != '_')
    ensures var r := Finish(c, maxLength);
      && (forall i :: 0 <= i < |r| ==> SanitizedChar(r[i]))
      && !HasDoubleUnderscore(r)
      && (r == [] || r[0] != '_')
      && (maxLength >= 1 ==> 1 <= |r| <= maxLength)
      && (c == "" ==> r == SliceTo("unnamed", maxLength))
  {
    UnnamedIsSafe(maxLength);
    var full := if c == "" then "unnamed" else c;
    if |full| > maxLength {
      var r := SliceTo(full, maxLength);
      SliceKeepsNoDouble(full, 0, |r|);
      assert forall i :: 0 <= i < |r| ==> r[i] == full[i];
    }
  }

  /**
   * Whatever the input, the sanitized name holds only lower-case letters, digits and single
   * underscores, never starts with one, fits in `maxLength` when that is positive, and is
   * (a prefix of) "unnamed" when nothing survives cleaning.
   */
  lemma SanitizeIsSafe(name: string, maxLength: int)
    ensures var r := Sanitize(name, maxLength);
      && (forall i :: 0 <= i < |r| ==> SanitizedChar(r[i]))
      && !HasDoubleUnderscore(r)
      && (r == [] || r[0] != '_')
      && (maxLength >= 1 ==> 1 <= |r| <= maxLength)
      && (Cleaned(name) == "" ==> r == SliceTo("unnamed", maxLength))
  {
    CleanedIsSafe(name);
    FinishIsSafe(Cleaned(name), maxLength);
  }

  /** `sanitize_filename`: rewrites the stem of `name` into a safe lower-case file name. */
  method SanitizeFilename(name: string, maxLength: int) returns (safe: string)
    ensures safe == Sanitize(name, maxLength)
    ensures forall i :: 0 <= i < |safe| ==> SanitizedChar(safe[i])
    ensures !HasDoubleUnderscore(safe)
    ensures safe == [] || safe[0] != '_'
    ensures maxLength >= 1 ==> 1 <= |safe| <= maxLength
  {
    var stem := Stem(NameOfString(name));
    safe := ReplaceProblematic(stem);
    safe := KeepSafe(safe);
    ghost var kept := safe;
    while Contains(safe, "__")
      invariant Collapse(safe) == Collapse(kept)
      decreases |safe|
    {
      ContainsDoubleUnderscore(safe);
      safe := CollapseOnce(safe);
    }
    ContainsDoubleUnderscore(safe);
    safe := Lower(StripChar(safe, '_'));
    if safe == "" {
      safe := "unnamed";
    }
    if |safe| > maxLength {
      safe := SliceTo(safe, maxLength);
    }
    SanitizeIsSafe(name, maxLength);
  }

  // ---------------------------------------------------------------------------------------
  // get_unique_filename

  /** The extension with a leading dot, as `get_unique_filename` normalises it. */
  function DottedExtension(extension: string): (r: string)
    ensures r != [] && r[0] == '.'
    ensures extension != [] && extension[0] == '.' ==> r == extension
  {
    if extension != [] && extension[0] == '.' then extension else "." + extension
  }

  /** `directory / f"{base_name}_{n}{extension}"` */
  function NumberedName(directory: Path, baseName: string, n: nat, extension: string): Path {
    Child(directory, baseName + "_" + NatToString(n) + DottedExtension(extension))
  }

  const MaxUniqueCounter: nat := 1000

  /**
   * `get_unique_filename`: `existing` holds the paths that exist when each is checked.
   * The plain name when it is free, otherwise the first free numbered name among 1..1000,
   * otherwise the ValueError "Too many files with similar names".
   */
  method GetUniqueFilename(directory: Path, baseName: string, extension: string, existing: set<Path>)
    returns (r: Result<Path>)
    ensures r.Ok? ==> r.value !in existing
    ensures Child(directory, baseName + DottedExtension(extension)) !in existing ==>
      r == Ok(Child(directory, baseName + DottedExtension(extension)))
    ensures Child(directory, baseName + DottedExtension(extension)) in existing ==>
      (r.Ok? <==> exists n :: 1 <= n <= MaxUniqueCounter && NumberedName(directory, baseName, n, extension) !in existing)
    ensures Child(directory, baseName + DottedExtension(extension)) in existing && r.Ok? ==>
      exists n :: 1 <= n <= MaxUniqueCounter && r.value == NumberedName(directory, baseName, n, extension) &&
        forall k :: 1 <= k < n ==> NumberedName(directory, baseName, k, extension) in existing
    ensures r.Err? ==> r.message == "Too many files with similar names: " + baseName
  {
    var ext := DottedExtension(extension);
    var filepath := Child(directory, baseName + ext);
    if filepath !in existing {
      return Ok(filepath);
    }
    var counter := 1;
    while true
      invariant 1 <= counter <= MaxUniqueCounter
      invariant forall k :: 1 <= k < counter ==> NumberedName(directory, baseName, k, extension) in existing
      decreases MaxUniqueCounter - counter
    {
      filepath := NumberedName(directory, baseName, counter, extension);
      if filepath !in existing {
        return Ok(filepath);
      }
      counter := counter + 1;
      if counter > MaxUniqueCounter {
        return Err("Too many files with similar names: " + baseName);
      }
    }
  }
}
