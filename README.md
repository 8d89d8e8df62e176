# DocPrep extraction core, modelled in Dafny

DocPrep is a desktop tool that walks a folder, finds the spreadsheets, PDFs, Word documents
and PowerPoint presentations in it, and writes what it can read from each one into a parallel
output tree: plain text, CSV files for sheets, and embedded images. This project models the
part of DocPrep that does that work, together with the small build scripts that compute icon
geometry and the installer background.

The modules follow the Python files:

| Dafny file | module | Python source | form |
|---|---|---|---|
| config.dfy | `Config` | src/config.py | functions and lemmas; one loop as a method |
| paths.dfy, strings.dfy | `Paths`, `Strings` | the parts of `pathlib` and `str` the code calls | functions and lemmas |
| wrappers.dfy | `Wrappers` | `Option` / `Result` | datatypes |
| file_scanner.dfy | `FileScanning` | `FileScanner` in src/utils/file_scanner.py | a class whose methods update its lists |
| extraction_manager.dfy | `ExtractionManagement` | `ExtractionManager` in src/utils/file_scanner.py | a class; the loop proved against specification functions |
| base.dfy | `Base` | src/extractors/base.py | classes `ExtractionResult` and `ExtractorBase`; `sanitize_filename` and `get_unique_filename` as loops |
| word.dfy, pdf.dfy, powerpoint.dfy, excel.dfy | `WordExtraction`, `PdfExtraction`, `PowerPointExtraction`, `ExcelExtraction` | src/extractors/*.py | one class per extractor; each `extract` proved against a specification function |
| report.dfy | `ReportGeneration` | src/utils/report.py | the report as a sequence of lines, written by loops |
| update_checker.dfy | `UpdateChecking` | src/utils/update_checker.py | functions and lemmas |
| app_icons.dfy | `AppIcons` | build_app_icons.py | functions, lemmas, one loop |
| prep_icon.dfy | `IconPrep` | prep_icon.py | in-place passes over a 2-D array |
| dmg_background.dfy | `DmgBackground` | build_scripts/generate_dmg_background.py | the placement loop as a method over a function |

How the outside world appears in the model:

- **File system.** A directory tree is a value (`FileScanning.Entry`), and `os.walk` is the function `WalkDirs`.
- **Documents.** Each document the libraries would open (python-docx, PyMuPDF, python-pptx, pandas and openpyxl) is a datatype. That datatype records the content and every point where the library or the file system can raise.
- **Extractor calls.** The extraction manager sees the extractors through an oracle `run`. The oracle says, for an extractor, a file and an output directory, whether `extract` returns a result or raises.
- **Cancelling.** The other thread that may call `cancel` is the parameter `cancelAt`: the number of files begun before the flag is set.
- **Callbacks.** Progress and file callbacks are recorded as a log of events.
- **Other inputs.** Timestamps, `_format_size`, random draws and the network are inputs too.

Where the code and its own design notes disagree, the model follows the code:

- `total_processed` is the number of supported files even when the run was cancelled, not the number of files begun (`ExtractionManagement.SummarySpec`).
- A file with no extractor, or whose extractor raised, counts as failed but leaves no result in `results`. So the report's failed group can be shorter than the summary's failed count (`ReportGeneration.ReportAgreesWithSummary`).
- `warnings` counts every returned result with a warning, failed ones included. The counts are not three disjoint buckets: every file begun is counted once as successful or failed, and the warning count is separate.
- A cancelled run is not a separate kind of ending. The summary carries a `cancelled` flag. That flag may also be set after the last file, with every file processed.

## Model

| member | source | states |
|---|---|---|
| Config.GetAllSupportedExtensions | src/config.py:69-74 | the flat list is `.xlsx, .xls, .pdf, .docx, .pptx`: the families' lists concatenated in the mapping's order |
| Config.AllSupportedExtensionsValue | src/config.py:14-19 | the mapping of formats to extensions flattens to exactly those five extensions |
| Config.SupportedByLastExtension | src/config.py:76-79 | for a name `stem.ext`, the file is supported exactly when `.` plus the lower-cased `ext` is one of the five, whatever the stem holds |
| Config.NoSuffixUnsupported | src/config.py:76-79 | a name without a suffix (no dot, or only a leading or trailing one) is never supported |
| Config.UpperCaseSupported | src/config.py:78 | `A.PDF` is supported: the suffix is lower-cased before the lookup |
| Config.LastSuffixSupported | src/config.py:78 | `a.txt.pdf` is supported: only the last suffix counts |
| Config.EarlierSuffixIgnored | src/config.py:78 | `a.pdf.txt` is not supported |
| Config.DefaultOutputFolder | src/config.py:26 | the default output folder name is the source path string followed by `_extracted` |
| Paths.Child | src/utils/file_scanner.py:58 | `root / filename` keeps the anchor and appends the name as one more component |
| Paths.JoinPath | src/utils/file_scanner.py:116 | `a / b` with an absolute `b` is `b`; otherwise the components of `b` follow those of `a` |
| Paths.Parent | src/utils/file_scanner.py:116 | the parent followed by the name gives the path back; the root and `.` are their own parents |
| Paths.RelativeTo | src/utils/file_scanner.py:97 | `relative_to` succeeds exactly when the anchors agree and the root's components are a prefix of the path's; the root followed by the result is the path |
| Paths.SuffixDot | src/config.py:78 | the suffix starts at the last dot, which is neither the first nor the last character |
| Paths.StemSuffix | src/extractors/base.py:113 | stem followed by suffix is the name |
| Paths.SuffixOfAppended | src/config.py:78 | the suffix of `stem.ext` (non-empty stem, dot-free `ext`) is `.ext` and its stem is `stem` |
| Paths.HiddenNameHasNoSuffix | src/config.py:78 | a name like `.pdf` has no suffix and is its own stem |
| Strings.LowerSpec | src/config.py:78 | lower-casing keeps the length and maps each character on its own |
| Strings.StripLeftSpec | src/utils/update_checker.py:40 | `lstrip` returns a suffix of the string not starting with whitespace, and drops only whitespace |
| Strings.StripRightSpec | src/utils/update_checker.py:40 | `rstrip` returns a prefix of the string not ending with whitespace, and drops only whitespace |
| Strings.StripEmptyIffBlank | src/extractors/word.py:80 | `s.strip()` is empty exactly when `s` holds only whitespace |
| Strings.ConcatBlank | src/extractors/word.py:154 | `''.join(parts)` is blank exactly when every part is |
| Strings.StripChar | src/extractors/base.py:129 | `s.strip('_')` is no longer than `s`, has no `_` at either end, and keeps only characters of `s` |
| Strings.LStripChar | src/utils/update_checker.py:40 | `s.lstrip('v')` is a suffix of `s` that does not start with `v` |
| Strings.Split | src/utils/update_checker.py:40 | `s.split('.')` is never empty |
| Strings.SplitPieces | src/utils/update_checker.py:40 | no piece of `s.split('.')` holds a `.` |
| Strings.SplitJoin | src/utils/update_checker.py:40 | joining the pieces of `s.split('.')` with `.` gives `s` back |
| Strings.Repeat | src/extractors/pdf.py:120 | `'=' * n` is `n` copies of the character |
| FileScanning.WalkDirs | src/utils/file_scanner.py:47-51 | `os.walk` yields the root directory first, with its file entries in order |
| FileScanning.AllFilesBelow | src/utils/file_scanner.py:47-58 | every file found in a subtree lies strictly below that subtree's directory |
| FileScanning.PrunedContributesNothing | src/utils/file_scanner.py:51 | a hidden, `__pycache__` or `node_modules` directory contributes no file, however deep |
| FileScanning.HereIsAllowed | src/utils/file_scanner.py:53-58 | the files visited directly in a directory are exactly its files whose name is not hidden |
| FileScanning.WalkIsAllowedFiles | src/utils/file_scanner.py:47-58 | the files the walk visits are exactly the files of the tree with no hidden or pruned directory on their way and no hidden name, in walk order |
| FileScanning.ClassificationPartitions | src/utils/file_scanner.py:61-68 | supported and unsupported lists partition the visited files: the lengths add up, the multisets add up, and a file is in the supported list exactly when it is supported |
| FileScanning.ClassifyOne | src/utils/file_scanner.py:61-68 | one visited file extends exactly one list by itself; only a supported file with a readable size adds to the total size |
| FileScanning.BumpCounts | src/utils/file_scanner.py:91 | `counts[ext] = counts.get(ext, 0) + 1` raises the count of `ext` by one, leaves every other count, and raises the sum by one |
| FileScanning.FileTypeCountsCorrect | src/utils/file_scanner.py:86-92 | the count for each extension is the number of supported files whose lower-cased suffix it is, and the counts sum to the number of supported files |
| FileScanning.FileScanner.constructor | src/utils/file_scanner.py:18-22 | a new scanner has the root and empty lists and size |
| FileScanning.FileScanner.Scan | src/utils/file_scanner.py:24-84 | a missing root or a root that is a file gives the two errors and changes nothing; otherwise the lists, the size and the progress calls are those of classifying the visited files, starting afresh, and the returned dictionary reports them with the file-type counts |
| FileScanning.VisitAllGathers | src/utils/file_scanner.py:53-72 | visiting one directory's files in order gathers exactly what classifying the files seen so far followed by its non-hidden files gives |
| FileScanning.WalkAllGathers | src/utils/file_scanner.py:47-72 | visiting every tuple of the walk from empty lists gathers exactly what classifying the visible files gives |
| FileScanning.FileScanner.ScanDirectory | src/utils/file_scanner.py:53-72 | the inner loop leaves the lists, size and progress calls as visiting the directory's files in order from the old ones gives |
| FileScanning.FileScanner.VisitFile | src/utils/file_scanner.py:54-72 | a hidden file is skipped; otherwise the file is appended to the list it belongs to, its size counted when supported and readable, and the progress callback called when set (the new state is `Visit` of the old one) |
| FileScanning.VisitGathers | src/utils/file_scanner.py:54-72 | visiting one entry after some files gathers what classifying those files and the entry's visible file gives |
| FileScanning.FileScanner.CountFileTypes | src/utils/file_scanner.py:86-92 | returns the counts of the supported files' extensions, in first-seen order |
| FileScanning.FileScanner.MirroredUnderRoot | src/utils/file_scanner.py:94-118 | a file below the root is mirrored to the output base followed by the directories between root and file; a file directly in the root maps to the output base |
| FileScanning.FileScanner.MirroredOutsideRoot | src/utils/file_scanner.py:94-99 | a file outside the root is its own relative path, so its output directory is `output_base / parent`, which is the file's own parent when the file path is absolute |
| ExtractionManagement.FindFrom | src/utils/file_scanner.py:216-221 | the extractor found is at a valid position |
| ExtractionManagement.FindFromSpec | src/utils/file_scanner.py:216-221 | the extractor found can extract the file and no earlier one can; nothing is found exactly when no extractor can |
| ExtractionManagement.Begun | src/utils/file_scanner.py:158-162 | the loop never begins more files than there are |
| ExtractionManagement.StepSpec | src/utils/file_scanner.py:170-197 | each file counts once, as successful or failed, and moves the warning and extracted-file counters by its returned result |
| ExtractionManagement.RunTallies | src/utils/file_scanner.py:151-201 | after `k` files, successful plus failed is `k`; successful, warnings and total files extracted count the successful returned results, the returned results with a warning, and the files of the successful ones |
| ExtractionManagement.NoExtractorFails | src/utils/file_scanner.py:171-176 | a file no extractor accepts counts as failed, leaves no result, reaches no extractor, and gets its file callback but no progress callback |
| ExtractionManagement.ExtractorStep | src/utils/file_scanner.py:178-201 | a file with an extractor is passed to it with its mirrored output directory, after its file callback and before its progress callback; an exception counts as failed with no result, a returned result is recorded and counted |
| ExtractionManagement.StepEventsShape | src/utils/file_scanner.py:166-183 | with a file callback, a file's calls open with `file_callback(filepath, idx, total)` and the extractor call comes second, for the same file |
| ExtractionManagement.StepEventsNamed | src/utils/file_scanner.py:158-201 | every call made for the file at position `i` names that file by its 1-based index `i + 1` |
| ExtractionManagement.CallLogWithin | src/utils/file_scanner.py:158-162 | no callback and no extractor call concerns a file after the ones begun |
| ExtractionManagement.FileCallbackBeforeExtract | src/utils/file_scanner.py:166-183 | with a file callback, every extractor call comes right after the file callback for the same file |
| ExtractionManagement.SummarySpec | src/utils/file_scanner.py:203-210 | `total_processed` is the number of supported files even when cancelled; successful plus failed is the number of files begun; `cancelled` is the flag at the end, and all files are begun exactly when it was not set in time |
| ExtractionManagement.ExtractionManager.constructor | src/utils/file_scanner.py:124-129 | a new manager has no results, no current file and is not cancelled |
| ExtractionManagement.ExtractionManager.Cancel | src/utils/file_scanner.py:223-226 | sets the flag and changes nothing else |
| ExtractionManagement.ExtractionManager.FindExtractorIndex | src/utils/file_scanner.py:216-221 | the loop returns the first extractor that can extract the file |
| ExtractionManagement.ExtractionManager.ExtractWith | src/utils/file_scanner.py:181-197 | the `try` block: a returned result is appended to `results` and counted, an exception counts as failed |
| ExtractionManagement.ExtractionManager.ExtractOne | src/utils/file_scanner.py:164-201 | one pass sets the current file, makes the step's calls in order, and updates counters and results as the step specifies |
| ExtractionManagement.ExtractionManager.ExtractFiles | src/utils/file_scanner.py:158-201 | the loop begins files until the flag is read set; counters, results, calls and current file are those of the files begun |
| ExtractionManagement.ExtractionManager.ExtractAll | src/utils/file_scanner.py:131-214 | when the output base cannot be created nothing changes; otherwise the summary, the results, the calls, the current file and the flag are those of the files begun |
| Base.SetKeySpec | src/extractors/base.py:28 | assigning a metadata key replaces its value in place, or appends the key when it is new; the other entries and their order stay |
| Base.SetKeyLookup | src/extractors/base.py:28 | after `m[key] = value`, `key` reads `value` and every other key reads as before |
| Base.NewRecord | src/extractors/base.py:22-28 | a new result is successful with no file, error, warning or metadata |
| Base.OnlyErrorsClearSuccess | src/extractors/base.py:30-41 | adding a file, a warning or metadata keeps `success`; adding an error clears it; "success exactly when no error" is preserved by each |
| Base.ExtractionResult.constructor | src/extractors/base.py:22-28 | a new result holds the source file and the given success and nothing else |
| Base.ExtractionResult.AddFile | src/extractors/base.py:30-32 | appends the file and changes nothing else |
| Base.ExtractionResult.AddError | src/extractors/base.py:34-37 | appends the error and clears `success` |
| Base.ExtractionResult.AddWarning | src/extractors/base.py:39-41 | appends the warning and changes nothing else |
| Base.ExtractionResult.SetMetadata | src/extractors/base.py:28 | assigns one metadata key and changes nothing else |
| Base.ExtractionResult.MarkSuccess | src/extractors/word.py:101-102 | sets `success` and changes nothing else |
| Base.FlagAfterIff | src/extractors/base.py:66-80 | `check_interrupted` raises exactly when `interrupt` was called and `reset_interrupt` was not called after it |
| Base.ExtractorBase.constructor | src/extractors/base.py:51-55 | no callback and not interrupted |
| Base.ExtractorBase.SetSubstepCallback | src/extractors/base.py:57-59 | records whether a callback is set |
| Base.ExtractorBase.ReportSubstep | src/extractors/base.py:61-64 | the message reaches the callback exactly when one is set |
| Base.ExtractorBase.Interrupt | src/extractors/base.py:66-68 | sets the flag |
| Base.ExtractorBase.ResetInterrupt | src/extractors/base.py:70-72 | clears the flag |
| Base.ExtractorBase.CheckInterrupted | src/extractors/base.py:74-80 | raises exactly when the flag is set |
| Base.ReplaceChar | src/extractors/base.py:116-119 | after `s.replace(c, t)` the character `c` is gone unless `t` holds it, and every character comes from `s` or `t` |
| Base.KeepSafe | src/extractors/base.py:122 | only alphanumerics and underscores remain, and every such character of the input is kept |
| Base.ContainsDoubleUnderscore | src/extractors/base.py:125 | `'__' in s` exactly when two adjacent underscores occur |
| Base.CollapseOnce | src/extractors/base.py:126 | one `replace('__', '_')` never lengthens the string and shortens it when a pair is present |
| Base.Collapse | src/extractors/base.py:125-126 | the loop ends with no pair of underscores and only characters of its input |
| Base.SliceTo | src/extractors/base.py:136-137 | `s[:n]` is a prefix of `s` of length `min(n, len(s))` for `n >= 0` |
| Base.CleanedIsSafe | src/extractors/base.py:113-129 | the cleaned name holds only lower-case letters, digits and single inner underscores, and does not start with `_` |
| Base.FinishIsSafe | src/extractors/base.py:131-137 | the `unnamed` fallback and the truncation keep a cleaned name safe and within `max_length` |
| Base.SanitizeIsSafe | src/extractors/base.py:101-139 | for every input the sanitized name is safe, has no `__`, does not start with `_`, is 1 to `max_length` long when `max_length >= 1`, and is (a prefix of) `unnamed` when nothing survives cleaning |
| Base.SanitizeFilename | src/extractors/base.py:101-139 | the method computes `Sanitize`, with the same guarantees |
| Base.DottedExtension | src/extractors/base.py:170-171 | the extension always starts with a dot, and one that already did is kept |
| Base.GetUniqueFilename | src/extractors/base.py:158-188 | returns a path that does not exist: the plain name when free, else the first free `base_n` for `n` from 1 to 1000, else the "Too many files" error exactly when all are taken |
| WordExtraction.ParagraphPartsSpec | src/extractors/word.py:124-133 | a paragraph contributes nothing exactly when its text is blank, and otherwise only non-blank parts |
| WordExtraction.ParagraphsPartsSpec | src/extractors/word.py:124-133 | the paragraphs contribute nothing exactly when all are blank |
| WordExtraction.TextBlankIff | src/extractors/word.py:80 | the text file is written exactly when some paragraph has visible text or the document has a table |
| WordExtraction.JoinEmpty | src/extractors/word.py:145 | `' | '.join(xs)` is empty exactly for no item or one empty item |
| WordExtraction.RowOmittedIff | src/extractors/word.py:144-147 | a table row is left out exactly when it has no cell, or one blank cell |
| WordExtraction.ImagesFoldCounts | src/extractors/word.py:161-209 | the image loop adds no error; with the directory in place it counts every readable image and records every written one; without it, it counts nothing and warns once per image |
| WordExtraction.ImageNameInjective | src/extractors/word.py:196 | different image numbers give different file names |
| WordExtraction.ImageFilesDistinct | src/extractors/word.py:195-203 | every image file recorded is named after a number handed out, and no two share a path |
| WordExtraction.ExtractConsistent | src/extractors/word.py:36-116 | a returned result names the file, is successful exactly when it holds no error, and holds at most one error |
| WordExtraction.InterruptIff | src/extractors/word.py:88-89 | the interrupt escapes exactly when the flag is set and the check is reached |
| WordExtraction.NoErrorVerdict | src/extractors/word.py:100-105 | a result without error is successful, and when nothing was extracted its last warning says so |
| WordExtraction.ImageFileDepth | src/extractors/word.py:68 | image files sit in `<safe>_images` directly under the output directory |
| WordExtraction.TextFileIff | src/extractors/word.py:76-86 | once open and not interrupted, a result without error lists the text file exactly when the document has visible text, and lists it first |
| WordExtraction.WordExtractor.constructor | src/extractors/word.py:19-30 | records whether python-docx is available; a fresh base |
| WordExtraction.WordExtractor.ExtractText | src/extractors/word.py:118-159 | returns the document's text and records the paragraph and table counts, or a warning and "" when reading fails |
| WordExtraction.WordExtractor.ParagraphsText | src/extractors/word.py:124-133 | the paragraph loop's parts |
| WordExtraction.WordExtractor.TablesText | src/extractors/word.py:141-149 | the table loop's parts |
| WordExtraction.WordExtractor.RowsText | src/extractors/word.py:144-147 | the row loop's parts |
| WordExtraction.WordExtractor.ExtractImages | src/extractors/word.py:161-214 | the image loop's count and record |
| WordExtraction.WordExtractor.Extract | src/extractors/word.py:36-116 | the outcome and sub-step messages of `extract` |
| WordExtraction.WordExtractor.TextStep | src/extractors/word.py:76-86 | writes the text file or warns; fails exactly when the write raises |
| WordExtraction.WordExtractor.ImagesStep | src/extractors/word.py:88-105 | interrupt check, image step and verdict |
| WordExtraction.WordExtractor.ExtractDocument | src/extractors/word.py:67-105 | the body of `extract` once the document is open |
| PdfExtraction.TextIff | src/extractors/pdf.py:77 | the text file is written exactly when the document has a page and reading the text did not raise |
| PdfExtraction.PagesPartsLength | src/extractors/pdf.py:116-132 | each page contributes five parts |
| PdfExtraction.PdfImageNameInjective | src/extractors/pdf.py:173 | the page and image numbers can be read back from an image name |
| PdfExtraction.DistinctPlaces | src/extractors/pdf.py:173-174 | images at different places never share a path |
| PdfExtraction.PageImagesFoldSpec | src/extractors/pdf.py:161-184 | per page, every extracted image is counted, every written one recorded under its place, and no two files alike |
| PdfExtraction.PagesFoldSticky | src/extractors/pdf.py:155-191 | once a page's image list raises, later pages change nothing |
| PdfExtraction.PagesFoldSpec | src/extractors/pdf.py:155-186 | over all pages, files are named by page and place, pairwise distinct, and when nothing raised the counts are every extracted and every written image |
| PdfExtraction.AbortKeepsFiles | src/extractors/pdf.py:188-191 | when a page's image list raises, `_extract_images` returns 0 and warns once, yet the earlier pages' files stay recorded |
| PdfExtraction.ImagesOfSpec | src/extractors/pdf.py:141-191 | the image step adds no error, keeps success, metadata and earlier files, and adds only image files |
| PdfExtraction.ExtractConsistent | src/extractors/pdf.py:36-107 | the result names the file, is successful exactly when it holds no error, and holds at most one error |
| PdfExtraction.PageCountKept | src/extractors/pdf.py:70 | once open and past the text step, `page_count` holds the number of pages at the end |
| PdfExtraction.NoErrorVerdict | src/extractors/pdf.py:96-100 | a result without error is successful, has the page count, and when nothing was extracted ends with the no-data warning |
| PdfExtraction.ImageFileDepth | src/extractors/pdf.py:65 | image files sit in `<safe>_images` directly under the output directory |
| PdfExtraction.ImageFileNotText | src/extractors/pdf.py:74 | no image file is the text file |
| PdfExtraction.TextFileIff | src/extractors/pdf.py:74-83 | once open, a result without error lists the text file exactly when the document has a page and readable text, and lists it first |
| PdfExtraction.PdfExtractor.constructor | src/extractors/pdf.py:19-30 | records whether PyMuPDF is available |
| PdfExtraction.PdfExtractor.ExtractText | src/extractors/pdf.py:109-139 | returns the page texts, or a warning and "" when reading fails |
| PdfExtraction.PdfExtractor.PageImages | src/extractors/pdf.py:161-184 | the image loop of one page |
| PdfExtraction.PdfExtractor.ExtractImages | src/extractors/pdf.py:141-191 | the image step's record and count |
| PdfExtraction.PdfExtractor.Extract | src/extractors/pdf.py:36-107 | the result of `extract` |
| PdfExtraction.PdfExtractor.ExtractDocument | src/extractors/pdf.py:64-100 | the body of `extract` once the document is open |
| PowerPointExtraction.TextIff | src/extractors/powerpoint.py:80 | the text file is written exactly when reading the text did not raise, even with no slides |
| PowerPointExtraction.ShapePartsSpec | src/extractors/powerpoint.py:129-130 | a shape contributes a line exactly when it has non-blank text, and that line is not blank |
| PowerPointExtraction.NotesPartsSpec | src/extractors/powerpoint.py:133-139 | notes are written exactly when they hold visible text, stripped, under the NOTES line |
| PowerPointExtraction.ShapesPartsSpec | src/extractors/powerpoint.py:128-130 | a slide's text holds one non-blank line per shape with text |
| PowerPointExtraction.DistinctPlaces | src/extractors/powerpoint.py:179-180 | pictures at different places never share a path |
| PowerPointExtraction.ShapesFoldSpec | src/extractors/powerpoint.py:159-198 | with the directory in place every readable picture is counted and every written one recorded under its place, no two alike; without it nothing is counted and each picture warns |
| PowerPointExtraction.SlidesFoldSpec | src/extractors/powerpoint.py:158-200 | over all slides the counts add up, every file is named after its slide and place, and no two share a path |
| PowerPointExtraction.ChartStepSpec | src/extractors/powerpoint.py:194-195 | a chart raises `charts_found` by one, starting from 0, and no other key changes |
| PowerPointExtraction.ShapesCharts | src/extractors/powerpoint.py:159-198 | over one slide, `charts_found` grows by its chart shapes and no other key changes |
| PowerPointExtraction.SlidesCharts | src/extractors/powerpoint.py:158-200 | over the presentation, `charts_found` grows by one per chart shape and no other key changes |
| PowerPointExtraction.Reached | src/extractors/powerpoint.py:157-158 | the image loop gets through exactly the slides before the first one whose shapes cannot be enumerated |
| PowerPointExtraction.ImagesOfSpec | src/extractors/powerpoint.py:150-205 | `_extract_images`, outer handler included, keeps the file name, success and errors, only appends files, and every file it adds is a picture of a slide, no two alike |
| PowerPointExtraction.ImagesOfComplete | src/extractors/powerpoint.py:158-200 | when every slide can be enumerated, `_extract_images` is the loop over all slides and returns its count |
| PowerPointExtraction.AbortKeepsFiles | src/extractors/powerpoint.py:201-204 | when enumerating a slide raises, `_extract_images` returns 0 and adds one `Image extraction error` warning, while the files and chart counts of the earlier slides stay |
| PowerPointExtraction.ExtractConsistent | src/extractors/powerpoint.py:37-111 | the result names the file, is successful exactly when it holds no error, and holds at most one error |
| PowerPointExtraction.TextFileFirst | src/extractors/powerpoint.py:76-104 | a presentation that opens and whose text is read and written yields a successful result with the text file first; without image extraction that file is all |
| PowerPointExtraction.ChartsFoundCount | src/extractors/powerpoint.py:73 | with image extraction on, `charts_found` is the number of chart shapes on the slides the image loop gets through when there is one and absent otherwise; `slide_count` is the number of slides |
| PowerPointExtraction.PowerPointExtractor.constructor | src/extractors/powerpoint.py:19-31 | records whether python-pptx is available and whether images are extracted |
| PowerPointExtraction.PowerPointExtractor.ExtractText | src/extractors/powerpoint.py:113-148 | returns the presentation's text, or a warning and "" when reading fails |
| PowerPointExtraction.PowerPointExtractor.SlidesText | src/extractors/powerpoint.py:122-141 | the slide loop's parts |
| PowerPointExtraction.PowerPointExtractor.SlideText | src/extractors/powerpoint.py:123-141 | banner, shapes and notes of one slide |
| PowerPointExtraction.PowerPointExtractor.ExtractImages | src/extractors/powerpoint.py:150-205 | the picture and chart loop over the slides reached, then, if a slide cannot be enumerated, the outer handler's warning and a count of 0 |
| PowerPointExtraction.PowerPointExtractor.SlideImages | src/extractors/powerpoint.py:159-198 | the shape loop of one slide |
| PowerPointExtraction.PowerPointExtractor.Extract | src/extractors/powerpoint.py:37-111 | the result of `extract` |
| PowerPointExtraction.PowerPointExtractor.ExtractDeck | src/extractors/powerpoint.py:67-104 | the body of `extract` once the presentation is open |
| ExcelExtraction.SheetStepSpec | src/extractors/excel.py:118-123 | one sheet adds no error and keeps success and metadata; an exported sheet appends its CSV, any other sheet one warning |
| ExcelExtraction.SheetsFoldSpec | src/extractors/excel.py:116-123 | the sheet loop adds no error, keeps success and metadata, adds one CSV per exported sheet after the earlier files and one warning per other sheet |
| ExcelExtraction.ExportedFilesInOrder | src/extractors/excel.py:161-166 | when every sheet is exported, the k-th new file is the CSV of the k-th sheet |
| ExcelExtraction.SameSanitizedNameSharesCsv | src/extractors/excel.py:161-162 | two sheets whose names sanitize alike share one CSV path, listed twice |
| ExcelExtraction.ExcelImageNameInjective | src/extractors/excel.py:212 | the image number can be read back from an image name |
| ExcelExtraction.NumberedApart | src/extractors/excel.py:211-213 | image files numbered in disjoint ranges differ |
| ExcelExtraction.ChartsFoldSpec | src/extractors/excel.py:195-205 | a sheet's charts raise the counter by their number and add no file |
| ExcelExtraction.ImagesFoldCounts | src/extractors/excel.py:208-226 | every image is counted, written or not; only written ones add a file |
| ExcelExtraction.ImagesFoldNames | src/extractors/excel.py:209-223 | a sheet's image files are numbered past the counter and pairwise distinct |
| ExcelExtraction.WorkbookFoldCounts | src/extractors/excel.py:191-226 | over the workbook the counters are its charts and its images, and only written images add files |
| ExcelExtraction.WorkbookFoldNames | src/extractors/excel.py:191-226 | written images carry distinct numbered names across the workbook |
| ExcelExtraction.WorkbookMetadata | src/extractors/excel.py:191-226 | the loops touch no metadata key but `charts_found` |
| ExcelExtraction.ChartsMetadata | src/extractors/excel.py:205 | the chart loop touches no other key |
| ExcelExtraction.ImagesCountedNotSaved | src/extractors/excel.py:232-233 | `images_extracted` counts every embedded image, also those not written |
| ExcelExtraction.ChartsFound | src/extractors/excel.py:228-230 | with a chart, `charts_found` is the workbook's chart count and a warning says so |
| ExcelExtraction.ImagesDistinct | src/extractors/excel.py:212-223 | written images land in the workbook directory under distinct names, none a sheet's CSV |
| ExcelExtraction.NumberedNotCsv | src/extractors/excel.py:162 | an image file is never a CSV file |
| ExcelExtraction.CsvIsNotImage | src/extractors/excel.py:162 | a CSV path and an image path never coincide |
| ExcelExtraction.ExtractConsistent | src/extractors/excel.py:62-145 | the result names the file, is successful exactly when it holds no error, and holds at most one error |
| Base.Conclude | src/extractors/excel.py:134-138 | when no file was written the no-data warning is appended and success kept; otherwise success is set; sources, errors and files stay |
| ExcelExtraction.ExtensionErrors | src/extractors/excel.py:82-96 | the error is decided by the extension before reading: a supported extension without its library, or any other extension, is refused |
| ExcelExtraction.OpenedVerdict | src/extractors/excel.py:109-138 | once read, the result is successful with the sheet count and names, ends with the no-data warning when no file was written, and for `.xls` lists the CSVs of the exported sheets |
| ExcelExtraction.ChartsOfKeeps | src/extractors/excel.py:125-132 | the chart step adds no error, keeps success and the earlier files, and touches only `charts_found` and `images_extracted` |
| ExcelExtraction.ExcelExtractor.constructor | src/extractors/excel.py:26-31 | records whether openpyxl and xlrd are available |
| ExcelExtraction.ExcelExtractor.ExtractSheet | src/extractors/excel.py:147-166 | one sheet: exported to CSV, or a warning |
| ExcelExtraction.ExcelExtractor.SheetImages | src/extractors/excel.py:208-226 | the image loop of one sheet |
| ExcelExtraction.ExcelExtractor.SheetCharts | src/extractors/excel.py:195-205 | the chart loop of one sheet |
| ExcelExtraction.ExcelExtractor.ExtractCharts | src/extractors/excel.py:170-237 | the chart and image step, with its handler |
| ExcelExtraction.ExcelExtractor.Extract | src/extractors/excel.py:62-145 | the result of `extract` |
| ExcelExtraction.ExcelExtractor.ExtractWorkbook | src/extractors/excel.py:109-138 | the body of `extract` once the workbook is read |
| ReportGeneration.ReportPath | src/utils/report.py:33 | the report is `EXTRACTION_REPORT.txt` directly in the output directory |
| ReportGeneration.Rule | src/utils/report.py:38 | a rule is 80 copies of its character |
| ReportGeneration.HeaderPlain | src/utils/report.py:38-43 | the header holds no marked line and no heading |
| ReportGeneration.ScanPlain | src/utils/report.py:46-53 | the scan section holds no marked line and no heading |
| ReportGeneration.MetaLinesPlain | src/utils/report.py:88-89 | metadata lines are neither marked nor headings |
| ReportGeneration.BulletsPlain | src/utils/report.py:93-94 | bullet lines are neither marked nor headings |
| ReportGeneration.SummaryRead | src/utils/report.py:56-67 | the only marked line of the summary is the cancel banner, present exactly when `cancelled` is truthy |
| ReportGeneration.SuccessEntryMarked | src/utils/report.py:83-94 | a successful entry has one ticked line, with the file's name |
| ReportGeneration.SuccessEntryOccurs | src/utils/report.py:86-94 | its Metadata and Warnings headings appear once each when it has any |
| ReportGeneration.FailEntryRead | src/utils/report.py:102-106 | a failed entry has one crossed line with the name, and the Errors heading once when it has errors |
| ReportGeneration.SuccessEntriesRead | src/utils/report.py:82-94 | the ticked lines are the names of the successful results, in order |
| ReportGeneration.FailEntriesRead | src/utils/report.py:101-106 | the crossed lines are the names of the failed results, in order |
| ReportGeneration.SuccessBlockRead | src/utils/report.py:79-95 | the successful group's marks and headings |
| ReportGeneration.FailBlockRead | src/utils/report.py:98-107 | the failed group's marks and headings |
| ReportGeneration.DetailedMarked | src/utils/report.py:70-107 | the detailed section's marks: ticks for successful results, crosses for failed ones |
| ReportGeneration.DetailedOccurs | src/utils/report.py:70-107 | the detailed section's headings |
| ReportGeneration.FooterPlain | src/utils/report.py:110-112 | the footer holds no marked line and no heading |
| ReportGeneration.ReportMarks | src/utils/report.py:36-112 | the report's marked lines: the cancel banner exactly when cancelled, a tick and the name per successful result, a cross and the name per failed one, in result order |
| ReportGeneration.ReportHeadings | src/utils/report.py:36-112 | DETAILED RESULTS appears once when there are results and never otherwise; Metadata and Warnings headings once per successful result that has any; Errors once per failed result that has any |
| ReportGeneration.GroupsAppend | src/utils/report.py:75-76 | both groups keep the order of the results |
| ReportGeneration.Partition | src/utils/report.py:75-76 | every result lands in exactly one group, the one its `success` names |
| ReportGeneration.GroupCounts | src/utils/report.py:75 | the successful group is as large as the manager's successful count over the same results |
| ReportGeneration.ReportAgreesWithSummary | src/utils/report.py:75-80 | for a run, the report's successful group matches the summary's successful count; the failed group and the warned results may be fewer than the summary says |
| ReportGeneration.MissingKeysReadAsZero | src/utils/report.py:48-64 | a missing dictionary key prints as 0 (or not cancelled) |
| ReportGeneration.WriteHeader | src/utils/report.py:38-43 | writes the header's lines, which hold no marked line and no heading |
| ReportGeneration.WriteScan | src/utils/report.py:46-53 | appends the scan section: counts, total size, one line per file type |
| ReportGeneration.WriteSummary | src/utils/report.py:56-67 | appends the summary counters and, exactly when `cancelled` is truthy, the banner |
| ReportGeneration.WriteFileTypes | src/utils/report.py:51-52 | writes one line per file type |
| ReportGeneration.WriteMetadata | src/utils/report.py:88-89 | writes one line per metadata key |
| ReportGeneration.WriteBullets | src/utils/report.py:93-94 | writes one bullet per item |
| ReportGeneration.WriteSuccessEntry | src/utils/report.py:83-94 | writes one successful entry |
| ReportGeneration.WriteSuccessful | src/utils/report.py:82-94 | writes every successful entry |
| ReportGeneration.WriteFailEntry | src/utils/report.py:102-106 | writes one failed entry |
| ReportGeneration.WriteFailed | src/utils/report.py:101-106 | writes every failed entry |
| ReportGeneration.WriteSuccessBlock | src/utils/report.py:79-95 | writes the successful group only when it is not empty |
| ReportGeneration.WriteFailBlock | src/utils/report.py:98-107 | writes the failed group only when it is not empty |
| ReportGeneration.WriteDetailed | src/utils/report.py:70-107 | writes the detailed section only when there are results |
| ReportGeneration.GenerateSummaryReport | src/utils/report.py:17-119 | a writable report gets exactly the report's lines and its path is returned; otherwise the error passes on and nothing is written |
| UpdateChecking.IntStripLeftSpec | src/utils/update_checker.py:41 | the whitespace `int()` skips on the left is dropped, and only that: what remains is a suffix not starting with it |
| UpdateChecking.IntStripRightSpec | src/utils/update_checker.py:41 | the same on the right: a prefix not ending with `int()` whitespace |
| UpdateChecking.ParseInt | src/utils/update_checker.py:41 | `int(p)` succeeds only on digits, signs, underscores and the whitespace `int()` ignores, which excludes the separators 0x1c-0x1f |
| UpdateChecking.SeparatorRejected | src/utils/update_checker.py:41 | `int()` raises on a piece holding one of 0x1c-0x1f, although `strip()` would remove them |
| UpdateChecking.SpacesAroundIgnored | src/utils/update_checker.py:41 | digits with `int()` whitespace around them parse to the digits' value |
| UpdateChecking.ParseNat | src/utils/update_checker.py:41 | `int(str(n)) == n` |
| UpdateChecking.ParseIntOfString | src/utils/update_checker.py:41 | `int(str(n)) == n` for negative `n` too |
| UpdateChecking.DigitsOnlyStrip | src/utils/update_checker.py:41 | `int()` reads a string of digits whole, with nothing to strip |
| UpdateChecking.Pieces | src/utils/update_checker.py:40 | the split never yields nothing |
| UpdateChecking.Leading | src/utils/update_checker.py:41 | `parts[:3]` keeps one to three pieces |
| UpdateChecking.ParseAll | src/utils/update_checker.py:41 | the tuple exists exactly when every piece is an integer, and then holds their values in order |
| UpdateChecking.ParseVersion | src/utils/update_checker.py:29-43 | the integers of the first three pieces, or `(0, 0, 0)` as soon as one is not an integer |
| UpdateChecking.LessIrreflexive | src/utils/update_checker.py:62 | tuple `<` is irreflexive |
| UpdateChecking.LessAsymmetric | src/utils/update_checker.py:62 | tuple `<` is asymmetric |
| UpdateChecking.LessTotal | src/utils/update_checker.py:62-66 | two different tuples are ordered one way or the other |
| UpdateChecking.LessTransitive | src/utils/update_checker.py:62 | tuple `<` is transitive |
| UpdateChecking.PrefixIsLess | src/utils/update_checker.py:62 | a tuple is below its proper extensions |
| UpdateChecking.CompareVersions | src/utils/update_checker.py:46-66 | -1, 0 or 1 exactly as the parsed tuples compare |
| UpdateChecking.CompareReflexive | src/utils/update_checker.py:46-66 | a version compares equal to itself |
| UpdateChecking.CompareAntisymmetric | src/utils/update_checker.py:46-66 | swapping the arguments negates the answer |
| UpdateChecking.CompareTransitive | src/utils/update_checker.py:46-66 | "older than" chains |
| UpdateChecking.CheckForUpdates | src/utils/update_checker.py:69-121 | no answer exactly when fetching failed; otherwise the manifest's fields, with `is_newer` exactly when the current version compares below the remote one |
| UpdateChecking.SplitDotted | src/utils/update_checker.py:40 | splitting dotted numbers gives back their strings |
| UpdateChecking.ParseDotted | src/utils/update_checker.py:29-43 | a version of one to three numbers parses to exactly those numbers |
| UpdateChecking.ExtraPiecesIgnored | src/utils/update_checker.py:41 | pieces beyond the third are ignored |
| UpdateChecking.DottedPieces | src/utils/update_checker.py:40 | nothing is stripped from a dotted number list |
| UpdateChecking.ForeignCharacterFails | src/utils/update_checker.py:41-43 | a piece with a character other than a digit, sign, underscore or `int()` whitespace is not an integer |
| UpdateChecking.PrereleaseIsZero | src/utils/update_checker.py:41-43 | a pre-release suffix on one of the first three pieces makes the whole version `(0, 0, 0)` |
| UpdateChecking.ShortVersionIsOlder | src/utils/update_checker.py:62 | `1.2` is older than `1.2.0` |
| UpdateChecking.DefaultVersion | src/utils/update_checker.py:94 | the default `0.0.0` reads as `(0, 0, 0)` |
| UpdateChecking.NothingBelowZero | src/utils/update_checker.py:62 | no three-number tuple is below `(0, 0, 0)` |
| UpdateChecking.MissingVersionIsNotNewer | src/utils/update_checker.py:94-99 | a manifest without a version is never newer than a three-number current version |
| AppIcons.LogoFits | build_app_icons.py:77 | the logo is three quarters of the icon, rounded down |
| AppIcons.LogoCentred | build_app_icons.py:89 | the logo is centred, margins equal or one apart, and inside the canvas |
| AppIcons.CornersApart | build_app_icons.py:47 | with a 22% radius the two corners of a side never meet, on the logo and on the icon |
| AppIcons.SortedDescending | build_app_icons.py:103 | `sorted(keys, reverse=True)` holds exactly the keys, in descending order |
| AppIcons.FromSmallest | build_app_icons.py:106-108 | the size found is large enough; nothing is found only when every size is smaller |
| AppIcons.BestSize | build_app_icons.py:98-111 | a key is picked exactly when there are sources, and it is one of them |
| AppIcons.GetBestSource | build_app_icons.py:98-111 | an empty source map is the `IndexError` |
| AppIcons.BestIsSmallestLargeEnough | build_app_icons.py:105-108 | when some source is large enough, the smallest such one is picked |
| AppIcons.FromSmallestIsLeast | build_app_icons.py:106-108 | on a descending list the scan from the end stops at the smallest large-enough size |
| AppIcons.BestFallsBackToLargest | build_app_icons.py:110-111 | when every source is too small, the largest is picked |
| AppIcons.Largest | build_app_icons.py:139 | `max` by byte size returns a largest file |
| AppIcons.LargestAt | build_app_icons.py:139 | `max` keeps the earliest of several largest files: every file is at most as large, every earlier one strictly smaller |
| AppIcons.FallbackKey | build_app_icons.py:142-150 | the fallback PNG is keyed by its larger side |
| AppIcons.LoadSources | build_app_icons.py:114-152 | the loop builds the source map |
| AppIcons.NamedSourcesSpec | build_app_icons.py:128-132 | a named file is loaded under its size exactly when it exists |
| AppIcons.LoadSpec | build_app_icons.py:114-152 | the named files, or else the largest PNG keyed by its larger side, or else nothing |
| AppIcons.Outputs | build_app_icons.py:155-211 | the ICO, two PNGs and the ten iconset files, in order |
| AppIcons.Build | build_app_icons.py:237-270 | refuses exactly when the directory is missing or holds no logo |
| AppIcons.DrawnFromBest | build_app_icons.py:155-211 | each output is drawn from the source picked for its size |
| AppIcons.BuildNeverUpscalesNeedlessly | build_app_icons.py:98-111 | every output comes from a logo at least its size when one exists |
| IconPrep.CropBox | prep_icon.py:8-18 | the crop box is a square of the shorter side, inside the image, centred to within one pixel |
| IconPrep.CropKeepsShortSide | prep_icon.py:8-18 | the whole shorter side is kept |
| IconPrep.BackgroundIffMeans | prep_icon.py:33-50 | the integer test agrees with the script's tests on the real-valued mean |
| IconPrep.BackgroundBounds | prep_icon.py:40-50 | white is background; nothing with mean 170 or less is |
| IconPrep.Transparent | prep_icon.py:55 | a background pixel loses its alpha, colour kept |
| IconPrep.MakeBackgroundTransparent | prep_icon.py:21-57 | every pixel becomes `Transparent` of itself |
| IconPrep.AnyClearSpec | prep_icon.py:79-101 | the neighbour loop finds a transparent or missing neighbour exactly when one exists among the offsets |
| IconPrep.AllNeighbours | prep_icon.py:79-82 | the offsets are exactly the eight neighbours |
| IconPrep.PassClears | prep_icon.py:67-105 | a pass clears a pixel exactly when it is opaque, next to transparency, and brighter than 180; colour never changes |
| IconPrep.PassesOnlyClear | prep_icon.py:67-107 | passes keep shape and colours, and no alpha grows |
| IconPrep.WindowSpec | prep_icon.py:86-97 | source and destination windows have equal extent inside the array |
| IconPrep.Shift | prep_icon.py:84-97 | `shifted_alpha` holds the neighbour's alpha, zero outside |
| IconPrep.MarkEdges | prep_icon.py:100-101 | marks opaque pixels with a transparent shifted neighbour |
| IconPrep.ClearLightEdges | prep_icon.py:104-105 | clears the light edge pixels |
| IconPrep.MarkOffset | prep_icon.py:79-101 | one offset round |
| IconPrep.MarkRound | prep_icon.py:79-101 | round `k` of the neighbour loop |
| IconPrep.FindEdges | prep_icon.py:73-101 | the edge mask of the pass's starting alphas |
| IconPrep.CleanupPass | prep_icon.py:68-105 | one iteration is `Pass` |
| IconPrep.CleanupEdges | prep_icon.py:60-109 | the array ends as `iterations` passes of its start |
| DmgBackground.OverlapsSpec | build_scripts/generate_dmg_background.py:69-80 | the overlap check finds an overlap exactly when the arrow zone or some placed bubble is too close |
| DmgBackground.Attempt | build_scripts/generate_dmg_background.py:85-112 | each attempt counts once |
| DmgBackground.AttemptKeepsGood | build_scripts/generate_dmg_background.py:85-112 | an attempt keeps every placed bubble in the image, out of the arrow zone and apart |
| DmgBackground.PlaceKeepsApart | build_scripts/generate_dmg_background.py:97-112 | a bubble too close to none may join |
| DmgBackground.LoopSpec | build_scripts/generate_dmg_background.py:82-112 | the loop ends with 18 bubbles or 500 attempts, keeping that invariant |
| DmgBackground.PlaceBubbles | build_scripts/generate_dmg_background.py:82-112 | the method computes the loop, within the limits, with bubbles well placed |
| DmgBackground.DrawArrow | build_scripts/generate_dmg_background.py:10-32 | shaft from start to the head's base, tip at the end, head corners `head_size // 2 + 2` above and below |
| DmgBackground.ArrowInsideZone | build_scripts/generate_dmg_background.py:65-116 | the arrow drawn lies inside the zone no bubble centre may take |
| DmgBackground.ArrowHeadSymmetric | build_scripts/generate_dmg_background.py:27-31 | the head is centred on the shaft |

## Left out

- **Logging and console output.** Logging, `print` output and the GUI are not modelled. The GUI lives in src/gui, and src/main.py is not part of this model.
- **The libraries.** The document libraries are not modelled as code: python-docx, PyMuPDF, python-pptx, pandas, openpyxl, xlrd and PIL. Their results and exceptions are fields of the document values.
- **Import failures.** The PowerPoint extractor's `from PIL import Image` inside `extract` is folded into opening the presentation. The Excel `_extract_charts` import of openpyxl is not modelled: it cannot fail once `xlsx_available` holds.
- **`ensure_output_dir`** is modelled by its answer, as a boolean input. Creating the output base in `extract_all` is the input `outputBaseOk`.
- **Threads.** The thread that calls `cancel` is the parameter `cancelAt`, not a concurrent thread. Extractors' `interrupt` is modelled only through the flag they read.
- **Extractors inside the manager.** The manager calls extractors through the oracle `run`. The extractor models are proved separately and are not plugged into the oracle.
- **Sheet-name collisions.** When two Excel sheets sanitize to the same name, the later CSV overwrites the earlier one on disk. The model proves the shared path (`ExcelExtraction.SameSanitizedNameSharesCsv`) but not the disk contents.
- **Report inputs.** `_format_size` and the timestamp are inputs of the report. Python's `repr` of metadata values is simplified to the value's digits or names. A report that cannot be written is modelled as nothing written.
- UpdateChecking.ParseInt: digits are ASCII `0`-`9` only, while Python's `int()` also reads other Unicode decimal digits (`int("٣")` is 3); the whitespace it ignores is `str.isspace` without the separators 0x1c-0x1f, which `int()` rejects; numerals longer than 4300 digits, which CPython 3.11 and later rejects with ValueError, parse here. Non-string manifest values are not modelled.
- UpdateChecking.ParseNat: holds in CPython 3.11 and later only for numbers of at most 4300 digits; beyond that both `str()` and `int()` raise ValueError, which the model does not bound.
- UpdateChecking.ParseIntOfString: holds in CPython 3.11 and later only for numbers of at most 4300 digits, for the same reason as ParseNat.
- UpdateChecking.SpacesAroundIgnored: holds in CPython 3.11 and later only for at most 4300 digits; longer numerals make `int()` raise ValueError.
- UpdateChecking.ParseDotted: holds in CPython 3.11 and later only for numbers of at most 4300 digits; a longer part makes `int()` raise ValueError and `parse_version` then returns (0, 0, 0).
- Strings.LowerSpec: `Lower` maps only `A`-`Z`; Python's `lower()` also lowers non-ASCII letters (`É` to `é`). Every supported extension is ASCII, so which files are supported is the same either way; sanitized names differ (see the `Base` lines below).
- Base.KeepSafe: `isalnum` is ASCII letters and digits only. Python's is Unicode-aware, so `KeepSafe("Résumé")` is `Rsum` here where Python keeps `Résumé`, and `KeepSafe("日本")` is empty where Python keeps it.
- Base.CleanedIsSafe: "only `a`-`z`, `0`-`9` and `_`" holds for the ASCII reading of `isalnum` and `lower`; in Python a cleaned name may also hold non-ASCII letters and digits.
- Base.SanitizeIsSafe: the safe-character claim holds for the ASCII reading only; the length, `__`, leading `_` and `unnamed` claims do not depend on it. `sanitize_filename("Résumé.docx")` is `rsum` here, `résumé` in Python.
- Base.SanitizeFilename: computes `Sanitize` with ASCII `isalnum`, so `日本.docx` gives `unnamed` here and `日本` in Python; two files with non-ASCII names can share an output folder only in the model.
- **Update-checker I/O and wrapper.** HTTP and JSON decoding are the input `fetched`. `get_update_info_dict` only renames the fields and is not modelled separately.
- **Icon image work.** Float truncation in the icon arithmetic is modelled as integer division, which agrees for the non-negative sizes used. Not modelled: PIL drawing, resampling, rounded-rectangle masks, ICO/ICNS encoding, `iconutil`, `convert("RGBA")`, and the pixel counts the scripts print.
- IconPrep.CleanupEdges: the shifted alpha arrays are fresh copies, as numpy's `zeros_like` makes them. The offsets are a flat list rather than the two nested loops.
- DmgBackground.PlaceBubbles: the random draws are an input sequence. Opacity is drawn only for placed bubbles, as in the script. `math.sqrt(d) < r` is compared as `d < r * r`, which agrees for non-negative `r`. Bubbles may overlap the arrow drawing, since only their centres are kept out of the zone.
