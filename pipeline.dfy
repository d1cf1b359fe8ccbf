/** One call of `process_file`: extract the frames, isolate the preamble, make
    sure the precompiled format exists, build one document per frame, compare
    with the previous run's frames, compile what the cache lacks, then either
    unite all frames into the output or point the output at the first changed
    frame, and remember the frames for the next call.

    The external programs are oracles (`Tools`); MD5 is a deterministic
    function passed separately so that two runs can share it. A panic of the
    program becomes an `Aborted` report carrying the state reached so far. */
module Pipeline {
  import opened Text
  import opened FileSystem
  import opened FrameScan
  import opened CompileUnits
  import opened RunHistory
  import opened ArtifactCache

  /** What one call is given: the input path, its parent directory and its
      text; the frames the structural parser found; the cache directory; the
      `draft` and `unite` flags and the `OUTPUT` argument. */
  datatype Invocation = Invocation(
    inputFile: string,
    inputDir: string,
    content: string,
    treeFrames: seq<string>,
    cacheDir: string,
    draft: bool,
    unite: bool,
    outputArg: Option<string>)

  /** The outcome of the external programs: whether `pdflatex -ini` and
      `pdfunite` could be started, whether `pdfunite` wrote its output, and
      which compile strings the LaTeX compiler accepts. */
  datatype Tools = Tools(
    pdflatexStarts: bool,
    compiles: string -> bool,
    pdfuniteStarts: bool,
    pdfuniteWrites: bool)

  /** Where a call panics: no `\begin{document}`, `pdflatex -ini` or `pdfunite`
      not started, or the output link not created. */
  datatype Panic = NoDocumentBegin | PrecompileNotStarted | UniteNotStarted | LinkNotCreated

  /** `InputMissing`: the input is not a file and the call returns at once. */
  datatype Report =
    | InputMissing
    | Aborted(reason: Panic)
    | Finished(
        frames: seq<string>,
        firstChanged: nat,
        precompiled: bool,
        compiled: seq<Unit>,
        uniteArgs: Option<seq<string>>,
        linked: Option<string>)

  /** The process-wide frame history and the file system. */
  datatype State = State(history: seq<string>, fs: Fs)

  /** The output path: the `OUTPUT` argument, `output.pdf` by default. */
  function OutputPath(arg: Option<string>): (r: string)
    ensures arg.Some? ==> r == arg.value
    ensures arg.None? ==> r == "output.pdf"
  {
    match arg
    case Some(p) => p
    case None => "output.pdf"
  }

  /** The format name of an invocation whose document has a preamble. */
  function FormatOf(md5: string -> HexDigest, inv: Invocation): string
    requires PreambleOf(inv.content).Some?
  {
    FormatName(md5(PreambleOf(inv.content).value), inv.draft)
  }

  /** The generated documents of an invocation whose document has a preamble. */
  function UnitsOfRun(md5: string -> HexDigest, inv: Invocation): seq<Unit>
    requires PreambleOf(inv.content).Some?
  {
    UnitsOf(md5, FormatOf(md5, inv), PreambleOf(inv.content).value, SelectFrames(inv.content, inv.treeFrames))
  }

  /** The output stage, once the cache step has left the file system at `fs`.
      In preview mode the output is relinked as the program does it, and the
      call panics when the link cannot be created. */
  function Output(fs: Fs, inv: Invocation, tools: Tools, frames: seq<string>, first: nat, precompiled: bool,
                  units: seq<Unit>, compiled: seq<Unit>): (Report, Fs)
  {
    var output := OutputPath(inv.outputArg);
    if inv.unite then
      if !tools.pdfuniteStarts then (Aborted(UniteNotStarted), fs)
      else
        var fs' := if tools.pdfuniteWrites then Write(fs, output) else fs;
        (Finished(frames, first, precompiled, compiled, Some(PdfPaths(inv.cacheDir, units) + [output]), None), fs')
    else if first < |units| then
      var target := PdfPath(inv.cacheDir, units[first].hash);
      match LinkOutputAsWritten(fs, target, output)
      case None => (Aborted(LinkNotCreated), fs)
      case Some(fs') => (Finished(frames, first, precompiled, compiled, None, Some(target)), fs')
    else (Finished(frames, first, precompiled, compiled, None, None), fs)
  }

  /** One call of the pipeline on state `st`. */
  function Run(st: State, inv: Invocation, md5: string -> HexDigest, tools: Tools): (Report, State)
  {
    if !IsFile(st.fs, inv.inputFile) then (InputMissing, st)
    else if PreambleOf(inv.content).None? then (Aborted(NoDocumentBegin), st)
    else
      var frames := SelectFrames(inv.content, inv.treeFrames);
      var precompile := !IsFile(st.fs, FormatPath(inv.inputDir, FormatOf(md5, inv)));
      if precompile && !tools.pdflatexStarts then (Aborted(PrecompileNotStarted), st)
      else
        var units := UnitsOfRun(md5, inv);
        var first := CommonPrefixLength(frames, st.history);
        var cache := CacheRun(st.fs, inv.cacheDir, units, tools.compiles);
        var out := Output(cache.fs, inv, tools, frames, first, precompile, units, cache.invoked);
        if out.0.Finished? then (out.0, State(frames, out.1)) else (out.0, State(st.history, out.1))
  }

  /** A finished call records exactly its frames as the history; any other call
      leaves the history as it was. */
  lemma RunUpdatesHistory(st: State, inv: Invocation, md5: string -> HexDigest, tools: Tools)
    ensures var (report, st') := Run(st, inv, md5, tools);
      if report.Finished? then st'.history == report.frames == SelectFrames(inv.content, inv.treeFrames)
      else st'.history == st.history
  {
  }

  /** The call panics for want of a preamble exactly when the input is a file
      whose text holds no `\begin{document}`; nothing changes then. */
  lemma RunNoDocumentBegin(st: State, inv: Invocation, md5: string -> HexDigest, tools: Tools)
    ensures Run(st, inv, md5, tools).0 == Aborted(NoDocumentBegin)
      <==> IsFile(st.fs, inv.inputFile) && forall j: nat :: !At(inv.content, j, BeginDocument)
    ensures Run(st, inv, md5, tools).0 == Aborted(NoDocumentBegin) ==> Run(st, inv, md5, tools).1 == st
  {
    NoPreambleIff(inv.content);
  }

  /** The first changed frame of a finished call is where this call's frames
      and the previous call's first differ; 0 against an empty history. */
  lemma RunFirstChanged(st: State, inv: Invocation, md5: string -> HexDigest, tools: Tools)
    requires Run(st, inv, md5, tools).0.Finished?
    ensures var r := Run(st, inv, md5, tools).0;
      && r.firstChanged <= |r.frames| && r.firstChanged <= |st.history|
      && r.frames[..r.firstChanged] == st.history[..r.firstChanged]
      && (r.firstChanged < |r.frames| && r.firstChanged < |st.history| ==> r.frames[r.firstChanged] != st.history[r.firstChanged])
      && (st.history == [] ==> r.firstChanged == 0)
  {
  }

  /** In unite mode, `pdfunite` is given the cache path of every frame's
      document, in frame order, and then the output path. */
  lemma RunUniteArgs(st: State, inv: Invocation, md5: string -> HexDigest, tools: Tools, i: nat)
    requires inv.unite && Run(st, inv, md5, tools).0.Finished?
    ensures var r := Run(st, inv, md5, tools).0;
      && r.uniteArgs.Some? && r.linked.None?
      && |r.uniteArgs.value| == |r.frames| + 1
      && r.uniteArgs.value[|r.frames|] == OutputPath(inv.outputArg)
      && (i < |r.frames| ==>
            r.uniteArgs.value[i] == PdfPath(inv.cacheDir, md5(CompileString(FormatOf(md5, inv), PreambleOf(inv.content).value, r.frames[i]))))
  {
    var r := Run(st, inv, md5, tools).0;
    var units := UnitsOfRun(md5, inv);
    if i < |r.frames| {
      PdfPathsAt(inv.cacheDir, units, i);
      UnitsOfAt(md5, FormatOf(md5, inv), PreambleOf(inv.content).value, r.frames, i);
    }
  }

  /** In preview mode, the output is linked exactly when some frame changed
      (or is new), and then to the cache path of the first changed frame's
      document. */
  lemma RunPreviewLink(st: State, inv: Invocation, md5: string -> HexDigest, tools: Tools)
    requires !inv.unite && Run(st, inv, md5, tools).0.Finished?
    ensures var (r, st') := Run(st, inv, md5, tools);
      && r.uniteArgs.None?
      && (r.linked.Some? <==> r.firstChanged < |r.frames|)
      && (r.linked.Some? ==>
            && r.linked.value == PdfPath(inv.cacheDir, md5(CompileString(FormatOf(md5, inv), PreambleOf(inv.content).value, r.frames[r.firstChanged])))
            && OutputPath(inv.outputArg) in st'.fs
            && st'.fs[OutputPath(inv.outputArg)] == Link(r.linked.value))
  {
    var r := Run(st, inv, md5, tools).0;
    if r.firstChanged < |r.frames| {
      var units := UnitsOfRun(md5, inv);
      var cache := CacheRun(st.fs, inv.cacheDir, units, tools.compiles);
      var target := PdfPath(inv.cacheDir, units[r.firstChanged].hash);
      LinkOutputAgrees(cache.fs, target, OutputPath(inv.outputArg));
      UnitsOfAt(md5, FormatOf(md5, inv), PreambleOf(inv.content).value, r.frames, r.firstChanged);
    }
  }

  /** The file system after the cache step of a call that reaches it. */
  function CachedFs(st: State, inv: Invocation, md5: string -> HexDigest, tools: Tools): Fs
    requires PreambleOf(inv.content).Some?
  {
    CacheRun(st.fs, inv.cacheDir, UnitsOfRun(md5, inv), tools.compiles).fs
  }

  /** The call reaches the output stage: the input is a file, it has a
      preamble, and the format exists or `pdflatex -ini` starts. */
  predicate ReachesOutput(st: State, inv: Invocation, md5: string -> HexDigest, tools: Tools) {
    && IsFile(st.fs, inv.inputFile)
    && PreambleOf(inv.content).Some?
    && (IsFile(st.fs, FormatPath(inv.inputDir, FormatOf(md5, inv))) || tools.pdflatexStarts)
  }

  /** A preview call panics at the relinking exactly when some frame changed
      and, after the cache step, the output path holds something that is not a
      file: a link whose target is missing. The history is then kept and the
      cache step's writes stay. */
  lemma RunLinkNotCreated(st: State, inv: Invocation, md5: string -> HexDigest, tools: Tools)
    ensures Run(st, inv, md5, tools).0 == Aborted(LinkNotCreated) <==>
      && !inv.unite && ReachesOutput(st, inv, md5, tools)
      && CommonPrefixLength(SelectFrames(inv.content, inv.treeFrames), st.history) < |SelectFrames(inv.content, inv.treeFrames)|
      && OutputPath(inv.outputArg) in CachedFs(st, inv, md5, tools)
      && !IsFile(CachedFs(st, inv, md5, tools), OutputPath(inv.outputArg))
    ensures Run(st, inv, md5, tools).0 == Aborted(LinkNotCreated) ==>
      Run(st, inv, md5, tools).1 == State(st.history, CachedFs(st, inv, md5, tools))
  {
    if ReachesOutput(st, inv, md5, tools) && !inv.unite {
      var units := UnitsOfRun(md5, inv);
      var first := CommonPrefixLength(SelectFrames(inv.content, inv.treeFrames), st.history);
      if first < |units| {
        LinkOutputAsWrittenFails(CachedFs(st, inv, md5, tools), PdfPath(inv.cacheDir, units[first].hash), OutputPath(inv.outputArg));
      }
    }
  }

  /** Calling again with the same input, after a finished call, finds no frame
      changed: a finished repeat in preview mode links nothing. */
  lemma RerunLinksNothing(st: State, inv: Invocation, md5: string -> HexDigest, tools: Tools, tools2: Tools)
    requires !inv.unite
    requires Run(st, inv, md5, tools).0.Finished?
    requires Run(Run(st, inv, md5, tools).1, inv, md5, tools2).0.Finished?
    ensures var r2 := Run(Run(st, inv, md5, tools).1, inv, md5, tools2).0;
      r2.firstChanged == |r2.frames| && r2.linked.None?
  {
    var frames := SelectFrames(inv.content, inv.treeFrames);
    RunUpdatesHistory(st, inv, md5, tools);
    CommonPrefixOfSelf(frames);
  }

  /** The output stage keeps every other file a file, as long as no link ends
      at the output and the output is not the linked frame's pdf. */
  lemma OutputKeepsFiles(fs: Fs, inv: Invocation, tools: Tools, frames: seq<string>, first: nat, precompiled: bool,
                         units: seq<Unit>, compiled: seq<Unit>, q: string)
    requires NoLinkTo(fs, OutputPath(inv.outputArg))
    requires first < |units| ==> PdfPath(inv.cacheDir, units[first].hash) != OutputPath(inv.outputArg)
    requires IsFile(fs, q) && q != OutputPath(inv.outputArg)
    ensures IsFile(Output(fs, inv, tools, frames, first, precompiled, units, compiled).1, q)
  {
    var output := OutputPath(inv.outputArg);
    if inv.unite {
      WriteKeepsFiles(fs, output, q);
    } else if first < |units| {
      var target := PdfPath(inv.cacheDir, units[first].hash);
      if LinkOutputAsWritten(fs, target, output).Some? {
        LinkOutputAgrees(fs, target, output);
        LinkOutputKeepsFiles(fs, target, output, q);
      }
    }
  }

  /** Calling again with the same input, after a finished call whose every
      compile succeeded, compiles nothing — provided no frame's pdf is the
      output itself and no link ends at the output. */
  lemma RerunCompilesNothing(st: State, inv: Invocation, md5: string -> HexDigest, tools: Tools, tools2: Tools)
    requires Run(st, inv, md5, tools).0.Finished?
    requires forall u :: u in Run(st, inv, md5, tools).0.compiled ==> tools.compiles(u.tex)
    requires forall u :: u in UnitsOfRun(md5, inv) ==> PdfPath(inv.cacheDir, u.hash) != OutputPath(inv.outputArg)
    requires NoLinkTo(st.fs, OutputPath(inv.outputArg))
    requires Run(Run(st, inv, md5, tools).1, inv, md5, tools2).0.Finished?
    ensures Run(Run(st, inv, md5, tools).1, inv, md5, tools2).0.compiled == []
  {
    var units := UnitsOfRun(md5, inv);
    var output := OutputPath(inv.outputArg);
    var frames := SelectFrames(inv.content, inv.treeFrames);
    var first := CommonPrefixLength(frames, st.history);
    var precompile := !IsFile(st.fs, FormatPath(inv.inputDir, FormatOf(md5, inv)));
    var cache := CacheRun(st.fs, inv.cacheDir, units, tools.compiles);
    var st1 := Run(st, inv, md5, tools).1;
    assert st1.fs == Output(cache.fs, inv, tools, frames, first, precompile, units, cache.invoked).1;
    CacheRunKeepsNoLinkTo(st.fs, inv.cacheDir, units, tools.compiles, output);
    assert first < |units| ==> units[first] in units;
    forall u | u in units ensures Cached(st1.fs, inv.cacheDir, u.hash) {
      CacheRunCovers(st.fs, inv.cacheDir, units, tools.compiles, u);
      OutputKeepsFiles(cache.fs, inv, tools, frames, first, precompile, units, cache.invoked, PdfPath(inv.cacheDir, u.hash));
    }
    CacheRunAllCached(st1.fs, inv.cacheDir, units, tools2.compiles);
  }

  /** The running program: the frame history lives as long as the process and
      the file system is the one it works on. */
  class Session {
    var history: seq<string>
    var fs: Fs

    /** The history starts empty. */
    constructor(fs0: Fs)
      ensures history == [] && fs == fs0
    {
      history := [];
      fs := fs0;
    }

    function Snapshot(): State
      reads this
    {
      State(history, fs)
    }

    /** The cache loop: skips each document whose pdf is a file, runs the
        compiler on each other one and writes its pdf when the compile
        succeeds. */
    method CompileMissing(cacheDir: string, units: seq<Unit>, compiles: string -> bool) returns (compiled: seq<Unit>)
      modifies this
      ensures history == old(history)
      ensures CacheResult(fs, compiled) == CacheRun(old(fs), cacheDir, units, compiles)
    {
      compiled := [];
      ghost var fs0 := fs;
      for i := 0 to |units|
        invariant history == old(history)
        invariant CacheResult(fs, compiled) == CacheRun(fs0, cacheDir, units[..i], compiles)
      {
        assert units[..i + 1][..i] == units[..i];
        var pdf := PdfPath(cacheDir, units[i].hash);
        if !IsFile(fs, pdf) {
          if compiles(units[i].tex) {
            fs := Write(fs, pdf);
          }
          compiled := compiled + [units[i]];
        }
      }
      assert units[..|units|] == units;
    }

    /** One call of `process_file`. */
    method ProcessFile(inv: Invocation, md5: string -> HexDigest, tools: Tools) returns (report: Report)
      modifies this
      ensures (report, Snapshot()) == Run(old(Snapshot()), inv, md5, tools)
    {
      if !IsFile(fs, inv.inputFile) {
        return InputMissing;
      }
      var frames := CollectFrames(inv.content, inv.treeFrames);
      var preamble := PreambleOf(inv.content);
      if preamble.None? {
        return Aborted(NoDocumentBegin);
      }
      var fmt := FormatName(md5(preamble.value), inv.draft);
      var precompile := !IsFile(fs, FormatPath(inv.inputDir, fmt));
      if precompile && !tools.pdflatexStarts {
        return Aborted(PrecompileNotStarted);
      }
      var units, pdfArgs := BuildUnits(md5, fmt, preamble.value, inv.cacheDir, frames);
      var first := FirstChangedFrame(frames, history);
      var compiled := CompileMissing(inv.cacheDir, units, tools.compiles);
      var output := OutputPath(inv.outputArg);
      if inv.unite {
        if !tools.pdfuniteStarts {
          return Aborted(UniteNotStarted);
        }
        if tools.pdfuniteWrites {
          fs := Write(fs, output);
        }
        report := Finished(frames, first, precompile, compiled, Some(pdfArgs + [output]), None);
      } else if first < |units| {
        var target := PdfPath(inv.cacheDir, units[first].hash);
        if IsFile(fs, output) {
          fs := Remove(fs, output);
        }
        var linked := Symlink(fs, target, output);
        if linked.None? {
          return Aborted(LinkNotCreated);
        }
        fs := linked.value;
        report := Finished(frames, first, precompile, compiled, None, Some(target));
      } else {
        report := Finished(frames, first, precompile, compiled, None, None);
      }
      history := frames;
    }
  }
}
