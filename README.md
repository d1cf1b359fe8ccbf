# faster-beamer `process_file`, modelled in Dafny

faster-beamer speeds up the preview of a LaTeX beamer presentation. Each frame
is compiled as a document of its own, on top of a precompiled format of the
preamble. Compiled frames are cached under the MD5 digest of their compile
string. One call of `process_file` works as follows:

1. It extracts the frames.
2. It isolates the preamble, the text before the first `\begin{document}`.
3. It precompiles the preamble into a format `<md5(preamble)>_<draft>.fmt`, unless that file already exists.
4. It builds one compile string per frame and hashes it.
5. It compares the frames with those of the previous call. The result is the index of the first changed frame.
6. It compiles every frame whose `<hash>.pdf` is not yet in the cache directory.
7. It produces the output in one of two ways:
   - it passes all frame pdfs, in order, to `pdfunite` together with the output path;
   - it links the output path to the pdf of the first changed frame.
8. It stores the frames for the next call.

The model has seven modules, one file each:

- `text.dfy` (`Text`): occurrence of a pattern at an index, line starts, and the two searches used:
  - `str::find`;
  - the search behind `^` in a multi-line regular expression.
- `frame_scan.dfy` (`FrameScan`): the textual frame extractor. It has two parts:
  - the successive matches of `(?ms)^\\begin\{frame\}.*?^\\end\{frame\}`, written out as a left-to-right scan;
  - the push loop that collects them, or copies the structural parser's frames when there are any.
- `compile_units.dfy` (`CompileUnits`): the preamble, the hexadecimal digest type, the format name, `Path::join`, the format and pdf paths, the compile string and its inverse, and the loop that builds the generated documents and the `pdfunite` arguments.
- `file_system.dfy` (`FileSystem`): a file system of regular files and symbolic links. It models `is_file` (which follows a link), `write`, `remove_file` and `symlink_file`, plus the linking of the output.
- `run_history.dfy` (`RunHistory`): the longest common prefix and the counting loop that computes the first changed frame.
- `artifact_cache.dfy` (`ArtifactCache`): the cache step as a specification function on the file system, with a compile oracle.
- `pipeline.dfy` (`Pipeline`): one whole call as a specification function `Run`, and the class `Session`. `Session` holds the process-wide frame history and the file system as fields. Its `ProcessFile` method performs the call step by step and is proved equal to `Run`.

The following become parameters:

- the text of the input file;
- the frames the tree-sitter parser finds;
- the input's parent directory;
- the cache directory;
- MD5, as a deterministic function onto 32 lower-case hex digits;
- the outcomes of the external programs (`Tools`).

A panic of `process_file` (`unwrap`, `expect`) is an `Aborted` report that carries the state reached at that point. A non-existent input file is the `InputMissing` report: the call returns at once and nothing changes.

Several behaviours one might expect are absent from the code, and the model follows the code on each:

- There is no default preamble: when `\begin{document}` is missing, the `unwrap` at src/process_file.rs:104 panics.
- An "everything unchanged" index is not mapped to 0: when no frame changed, preview mode links nothing.
- Frame numbers are not corrected.
- There is no stitch mode and no error-slide fallback.
- The exit statuses of `pdflatex` and `pdfunite` are ignored.

In preview mode the output is relinked as src/process_file.rs:218-221 does it: the old output is removed only when `is_file` holds, and the call panics when `symlink_file` fails. The relinking that was evidently intended is modelled beside it, under "## Findings".

## Model

| member | source | states |
|---|---|---|
| Text.FindFrom | src/process_file.rs:99 | a found index is at or after the start and `pat` occurs there |
| Text.FindFromFirst | src/process_file.rs:99 | there is no occurrence before the found index, and none at all when nothing is found |
| Text.FindLineStartFrom | src/process_file.rs:26-27 | a found index is at or after the start, begins a line, and `pat` occurs there |
| Text.FindLineStartFromFirst | src/process_file.rs:26-27 | there is no line-start occurrence before the found one, or none at all |
| FrameScan.Scan | src/process_file.rs:59-62 | the successive matches of `captures_iter`, each search resuming at the previous match's end; `ScanDelimited`, `ScanOrdered` and `ScanCovers` establish that they are blocks, in order, disjoint, and that none is missed |
| FrameScan.Matches | src/process_file.rs:26-27 | the scan of the whole document with the frame markers |
| FrameScan.FrameTexts | src/process_file.rs:59-62 | the text of each frame match; `FrameTextsAreFrames` and `FrameTextsComplete` establish what they are |
| FrameScan.SelectFrames | src/process_file.rs:51-63 | the structural frames when there are any, the scanned ones otherwise; `CollectFrames` is proved to compute it |
| FrameScan.Texts | src/process_file.rs:59-62 | one text per match |
| FrameScan.TextsAt | src/process_file.rs:60 | text `k` is the document's text over match `k`'s range |
| FrameScan.ScanTextsAdvance | src/process_file.rs:59-62 | one iteration of the match loop pushes the match's text, then resumes after its end marker, keeping pushed-plus-remaining texts the same |
| FrameScan.ScanTextsDone | src/process_file.rs:59-62 | when no further match exists, nothing remains to push |
| FrameScan.NextMatch | src/process_file.rs:26-27 | a match starts at or after the search position and fits both markers inside the document |
| FrameScan.NextMatchDelimited | src/process_file.rs:27 | the leftmost line-start open marker and the first line-start close marker after it delimit a block with no line-start close marker inside |
| FrameScan.ScanDelimited | src/process_file.rs:26-27 | every match lies within the document, starts with a line-start `\begin{frame}`, ends with a line-start `\end{frame}`, and holds no line-start `\end{frame}` before its last line (lazy `.*?`) |
| FrameScan.ScanOrdered | src/process_file.rs:59-62 | matches are in source order and never overlap |
| FrameScan.ScanCovers | src/process_file.rs:59-62 | every line-start open marker with a later line-start close marker lies inside some match, whose index it returns |
| FrameScan.DelimitedIsWellFormed | src/process_file.rs:27 | a delimited match's text on its own is a well-formed block |
| FrameScan.FrameMarkersDistinct | src/process_file.rs:27 | `\begin{frame}` holds no line feed, and no text starts with both frame markers |
| FrameScan.FrameTextsAreFrames | src/process_file.rs:26-27 | one frame per match; each is the exact text over its range; each is well formed; the ranges are ordered and disjoint |
| FrameScan.FrameTextsComplete | src/process_file.rs:59-62 | no frame whose markers both start a line is skipped |
| FrameScan.CollectFrames | src/process_file.rs:51-63 | the frames are the structural parser's when it found any, the textual scan's otherwise |
| FrameScan.CopyFrames | src/process_file.rs:53-57 | the push loop copies the structural frames unchanged, in order |
| FrameScan.ScanFrames | src/process_file.rs:58-62 | the push loop yields exactly the texts of the successive regex matches |
| CompileUnits.PreambleOf | src/process_file.rs:99-104 | a preamble is the prefix of the document that ends where `\begin{document}` occurs |
| CompileUnits.PreambleIsFirst | src/process_file.rs:99-104 | the preamble ends at the first `\begin{document}`: it holds none itself |
| CompileUnits.NoPreambleIff | src/process_file.rs:99-104 | there is no preamble (the `unwrap` panics) exactly when `\begin{document}` occurs nowhere |
| CompileUnits.DraftText | src/process_file.rs:112 | `{}` renders the flag as 4 or 5 characters (`true`/`false`) |
| CompileUnits.FormatName | src/process_file.rs:111-112 | the name is the 32-digit preamble digest, `_`, then the flag |
| CompileUnits.FormatNameInjective | src/process_file.rs:111-112 | different digests or flags give different format names |
| CompileUnits.Join | src/process_file.rs:148 | `Path::join` of a relative name, adding `/` only when the directory lacks one; `JoinInjective` shows it loses nothing |
| CompileUnits.FormatPath | src/process_file.rs:113-117 | `<name>.fmt` joined onto the input's directory |
| CompileUnits.PdfPath | src/process_file.rs:148 | `<hash>.pdf` joined onto the cache directory; `PdfPathInjective` shows distinct hashes get distinct paths |
| CompileUnits.JoinInjective | src/process_file.rs:148 | joining different names onto one directory gives different paths |
| CompileUnits.PdfPathInjective | src/process_file.rs:148 | different hashes are cached under different paths |
| CompileUnits.CompileHeader | src/process_file.rs:141-143 | the `%&<format>` line, the preamble and the opening of the document environment; `CompileStringRoundTrip` reads the frame back past it |
| CompileUnits.CompileString | src/process_file.rs:141-145 | the compile string starts with `%&` and the format name, and its length is header plus frame plus footer |
| CompileUnits.FrameOfCompileString | src/process_file.rs:141-145 | a frame read back out of a string rebuilds that string exactly |
| CompileUnits.CompileStringRoundTrip | src/process_file.rs:141-145 | reading the frame back out of its compile string gives the frame |
| CompileUnits.CompileStringInjective | src/process_file.rs:141-147 | under one format and preamble, different frames give different compile strings |
| CompileUnits.UnitsOf | src/process_file.rs:138-152 | exactly one generated document per frame |
| CompileUnits.UnitsOfAppend | src/process_file.rs:140-150 | appending a frame appends its compile string with that string's digest |
| CompileUnits.UnitsOfAt | src/process_file.rs:141-149 | document `i` is frame `i`'s compile string with its MD5 digest |
| CompileUnits.UnitsOfFrames | src/process_file.rs:140-149 | every generated document holds its own frame |
| CompileUnits.PdfPaths | src/process_file.rs:151 | one `pdfunite` input per document |
| CompileUnits.PdfPathsAt | src/process_file.rs:148-151 | input `i` is the cache path of document `i`'s hash |
| CompileUnits.PdfPathsAppend | src/process_file.rs:151 | appending a document appends its cache path |
| CompileUnits.BuildUnits | src/process_file.rs:138-152 | the frame loop yields the generated documents in frame order, and their cache paths as the `pdfunite` inputs |
| FileSystem.IsFile | src/process_file.rs:218 | `is_file` follows a link: a regular file, or a link to one; `LinkOutputAsWrittenFails` and `LinkOutputIsFile` rest on it |
| FileSystem.Resolve | src/process_file.rs:194 | a write through a link lands on the link's target; `Write` states the resulting map |
| FileSystem.Write | src/process_file.rs:194 | a write makes the resolved path a regular file and leaves every other entry alone |
| FileSystem.WriteKeepsFiles | src/process_file.rs:194 | after a write the written path is a file, and every earlier file still is one |
| FileSystem.Remove | src/process_file.rs:219 | removal drops exactly that entry |
| FileSystem.Symlink | src/process_file.rs:221 | creating a link fails exactly when the path exists |
| FileSystem.LinkOutputAsWritten | src/process_file.rs:218-221 | the relinking as written: remove the output when it is a file, then create the link, failing when the path exists; `LinkOutputAsWrittenFails` and `LinkOutputAgrees` establish when it fails and what it leaves |
| FileSystem.LinkOutputAsWrittenFails | src/process_file.rs:218-221 | the as-written relinking fails exactly when the output exists but is not a file |
| FileSystem.DanglingOutputBlocksRelink | src/process_file.rs:218-221 | an output link to a missing pdf cannot be replaced |
| FileSystem.LinkOutput | src/process_file.rs:218-221 | after linking, the output is a link to the target; every other entry is untouched |
| FileSystem.LinkOutputAgrees | src/process_file.rs:218-221 | where the as-written relinking succeeds, it equals `LinkOutput` |
| FileSystem.LinkOutputIsFile | src/process_file.rs:218-221 | the linked output is a file exactly when its target is a regular file |
| FileSystem.NoLinkTo | src/process_file.rs:221 | no link ends at the output; writes, the cache step and relinking keep it (`WriteKeepsNoLinkTo`, `CacheRunKeepsNoLinkTo`, `LinkOutputKeepsFiles`) |
| FileSystem.WriteKeepsNoLinkTo | src/process_file.rs:194 | a write adds no link |
| FileSystem.LinkOutputKeepsFiles | src/process_file.rs:221 | linking the output keeps every other file a file when no link ends at the output |
| RunHistory.CommonPrefixLength | src/process_file.rs:155-164 | the length bounds both lists, the lists agree up to it, and they differ at it unless one ends there |
| RunHistory.CommonPrefixLengthUnique | src/process_file.rs:155-164 | those three properties determine the length |
| RunHistory.CommonPrefixOfSelf | src/process_file.rs:155-164 | against an identical list, the index is the list's length |
| RunHistory.FirstChangedFrame | src/process_file.rs:155-164 | the counting loop with `break` computes the longest common prefix length |
| ArtifactCache.Cached | src/process_file.rs:176 | the frame's `<hash>.pdf` in the cache directory is a file |
| ArtifactCache.CacheRun | src/process_file.rs:171-201 | the cache loop over the documents in order, skipping cached ones and writing a pdf on each successful compile; the lemmas below establish what it keeps, writes and compiles, and `Session.CompileMissing` is proved to compute it |
| ArtifactCache.CacheRunKeepsEntries | src/process_file.rs:171-201 | no entry is ever removed |
| ArtifactCache.CacheRunKeepsFiles | src/process_file.rs:171-201 | every file, and so every cached pdf, survives the step |
| ArtifactCache.CacheRunInvokesUncached | src/process_file.rs:174-178 | the compiler runs only on listed documents whose pdf was not cached when the step began |
| ArtifactCache.CacheRunCovers | src/process_file.rs:176-199 | afterwards each document's pdf is cached, unless it was compiled and failed |
| ArtifactCache.CacheRunKeepsLinks | src/process_file.rs:194 | the step creates and changes no link |
| ArtifactCache.CacheRunWritesOnlyCompiled | src/process_file.rs:193-199 | a path that is neither the pdf of a successfully compiled document nor what that pdf path led to keeps its entry, or its absence: a failed compile adds nothing |
| ArtifactCache.CacheRunFailuresChangeNothing | src/process_file.rs:193-199 | with no successful compile the file system is unchanged |
| ArtifactCache.CacheRunAllCached | src/process_file.rs:176-178 | when every pdf is cached, nothing is compiled and nothing changes |
| ArtifactCache.CacheRerunCompilesNothing | src/process_file.rs:171-201 | after a step whose compiles all succeeded, a second step compiles nothing |
| ArtifactCache.CacheRunKeepsNoLinkTo | src/process_file.rs:194 | the step adds no link |
| Pipeline.OutputPath | src/process_file.rs:203 | the output is the `OUTPUT` argument, `output.pdf` by default |
| Pipeline.FormatOf | src/process_file.rs:111-112 | the format name from the preamble's digest and the draft flag |
| Pipeline.UnitsOfRun | src/process_file.rs:138-152 | the generated documents of the call's frames under its format and preamble |
| Pipeline.Output | src/process_file.rs:203-223 | unite or relink as written; `RunUniteArgs`, `RunPreviewLink`, `RunLinkNotCreated` and `OutputKeepsFiles` establish its effects |
| Pipeline.Run | src/process_file.rs:38-226 | one call, panics included; the `Run…` lemmas establish its history, panics, first changed frame, unite arguments and links, and `Session.ProcessFile` is proved to compute it |
| Pipeline.CachedFs | src/process_file.rs:171-201 | the file system after the call's cache step |
| Pipeline.ReachesOutput | src/process_file.rs:38-136 | the call passes the input check, the preamble `unwrap` and the precompile `expect` |
| Pipeline.RunUpdatesHistory | src/process_file.rs:225 | a finished call stores exactly its frames; a call that returns or panics earlier stores nothing |
| Pipeline.RunNoDocumentBegin | src/process_file.rs:99-104 | the call panics for lack of a preamble exactly when the input is a file without `\begin{document}`, and then changes nothing |
| Pipeline.RunFirstChanged | src/process_file.rs:155-164 | the first changed frame bounds both lists, the lists agree before it and differ at it; it is 0 against an empty history |
| Pipeline.RunUniteArgs | src/process_file.rs:205-209 | in unite mode `pdfunite` gets each frame's cache path in frame order, then the output |
| Pipeline.RunPreviewLink | src/process_file.rs:213-222 | in a finished preview call the output is linked exactly when the first changed index is a frame, and then to that frame's pdf |
| Pipeline.RunLinkNotCreated | src/process_file.rs:218-221 | a preview call panics at the relinking exactly when some frame changed and the output path, after the cache step, exists but is not a file; the history is then kept and the cache step's writes stay |
| Pipeline.RerunLinksNothing | src/process_file.rs:214 | repeating a finished call on the same input links nothing |
| Pipeline.OutputKeepsFiles | src/process_file.rs:205-223 | the output stage keeps every other file a file |
| Pipeline.RerunCompilesNothing | src/process_file.rs:171-201 | repeating a call whose compiles all succeeded compiles nothing |
| Pipeline.Session.constructor | src/process_file.rs:34-36 | the frame history starts empty |
| Pipeline.Session.CompileMissing | src/process_file.rs:171-201 | the cache loop leaves the file system and the compiled list that `CacheRun` specifies |
| Pipeline.Session.ProcessFile | src/process_file.rs:38-226 | one call leaves the report, history and file system that `Run` specifies |

## Left out

- The tree-sitter parser (`src/parsing.rs`, `get_frames`, `get_node_string`) is not part of this model. Its frames are the `treeFrames` parameter, and reading the input file is the `content` parameter; a read failure is not modelled.
- `Path::parent` and `to_str` are left out. The parent directory is given as `inputDir`: the `unwrap` on a path without a parent, and on a non-UTF-8 path, is not modelled.
- The cache directory is given. Its creation and the `unwrap` on that are not modelled.
- For `pdflatex -ini` (src/process_file.rs:125-135), only whether it starts is modelled. The format file it writes is not added to the file system, because the program writes it into the working directory, which is not modelled. Its output and exit status are ignored, as in the source.
- The temporary `<hash>.tex` file (src/process_file.rs:179-180) is not modelled, because the pipeline never reads it back. The `assert!`s on both writes are not modelled either: writes always succeed.
- The LaTeX compiler is an oracle on the compile string. Its options and input directory are left out.
- The rayon `par_iter` (src/process_file.rs:171-173) is a sequential loop. When two frames have the same text, the sequential loop compiles it once if the first compile succeeds, whereas the parallel loop may compile it twice.
- `pdfunite` (src/process_file.rs:207-212) is an oracle: whether it starts and whether it writes the output. Its exit status is ignored, as in the source.
- `remove_file` failures are not modelled. Of the `symlink_file` failures, only an existing path is modelled (`Pipeline.RunLinkNotCreated`); permission and other operating-system failures are not.
- The `LatexCompiler::new(..).unwrap()` (src/process_file.rs:182-183) is assumed to succeed, because it only builds the compiler's settings. Its panic is not modelled.
- In unite mode `pdfunite` writes through an output link, so after a preview call it writes onto the linked cached `<hash>.pdf`. The model shows where that write lands (`FileSystem.Write` at `Resolve`), but file contents are not modelled, so the corruption of that cached pdf is not represented.
- Symbolic-link chains are not modelled: `is_file` and `write` follow one link.
- Logging and console output are left out, as is `dbg!`.
- The trace-mode walk over error nodes (src/process_file.rs:66-84) is left out, because it only prints.
- The unused `DOCUMENT_REGEX` (src/process_file.rs:29-32) and the commented-out code (src/process_file.rs:86-98) are left out.
- MD5 internals are left out. Only determinism and the 32-hex-digit rendering are kept.
- Strings are sequences of characters rather than UTF-8 bytes. Every marker searched for is ASCII, so the extracted texts are the same.
- The `Mutex` around the frame history is left out, because the model has no concurrency. The history is a field.

## Findings

| source | as written | input that shows it | evidently intended | confidence | as-written member | corrected member |
|---|---|---|---|---|---|---|
| src/process_file.rs:218-221 | the old output is removed only if `is_file` holds, and `is_file` follows the link, so a link whose target is missing stays in place and `symlink_file` then fails with a panic | in preview mode, the previewed frame fails to compile, leaving `output.pdf` linked to a missing `<hash>.pdf`; on the next call, relinking `output.pdf` to any other pdf panics | whatever is at the output path (a file or a link, dangling or not) is replaced by the new link | medium, not executed | FileSystem.LinkOutputAsWritten (FileSystem.LinkOutputAsWrittenFails, FileSystem.DanglingOutputBlocksRelink; in the pipeline, Pipeline.RunLinkNotCreated) | FileSystem.LinkOutput (FileSystem.LinkOutputAgrees, FileSystem.LinkOutputIsFile) |
