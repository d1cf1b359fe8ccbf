/** The compile step over the generated documents: a document whose
    `<hash>.pdf` is already a file in the cache directory is skipped; any other
    is compiled, and its pdf is written only when the compile succeeds. The
    compiler is an oracle on the compile string. */
module ArtifactCache {
  import opened FileSystem
  import opened CompileUnits

  /** The file system after the step, and the documents the compiler was run on,
      in order. */
  datatype CacheResult = CacheResult(fs: Fs, invoked: seq<Unit>)

  /** The pdf of hash `h` is present in the cache directory. */
  predicate Cached(fs: Fs, cacheDir: string, h: HexDigest) {
    IsFile(fs, PdfPath(cacheDir, h))
  }

  /** The documents handled one after another, in order. */
  function CacheRun(fs: Fs, cacheDir: string, units: seq<Unit>, compiles: string -> bool): CacheResult
    decreases |units|
  {
    if units == [] then CacheResult(fs, [])
    else
      var prev := CacheRun(fs, cacheDir, units[..|units| - 1], compiles);
      var u := units[|units| - 1];
      if Cached(prev.fs, cacheDir, u.hash) then prev
      else if compiles(u.tex) then CacheResult(Write(prev.fs, PdfPath(cacheDir, u.hash)), prev.invoked + [u])
      else CacheResult(prev.fs, prev.invoked + [u])
  }

  /** No entry is ever removed. */
  lemma {:induction false} CacheRunKeepsEntries(fs: Fs, cacheDir: string, units: seq<Unit>, compiles: string -> bool)
    ensures fs.Keys <= CacheRun(fs, cacheDir, units, compiles).fs.Keys
    decreases |units|
  {
    if units != [] {
      CacheRunKeepsEntries(fs, cacheDir, units[..|units| - 1], compiles);
    }
  }

  /** A file stays a file; in particular a cached pdf stays cached. */
  lemma {:induction false} CacheRunKeepsFiles(fs: Fs, cacheDir: string, units: seq<Unit>, compiles: string -> bool, q: string)
    requires IsFile(fs, q)
    ensures IsFile(CacheRun(fs, cacheDir, units, compiles).fs, q)
    decreases |units|
  {
    if units != [] {
      var prev := CacheRun(fs, cacheDir, units[..|units| - 1], compiles);
      CacheRunKeepsFiles(fs, cacheDir, units[..|units| - 1], compiles, q);
      WriteKeepsFiles(prev.fs, PdfPath(cacheDir, units[|units| - 1].hash), q);
    }
  }

  /** The compiler only runs on documents of the list whose pdf was not cached
      when the step began: a cached hash is never recompiled. */
  lemma {:induction false} CacheRunInvokesUncached(fs: Fs, cacheDir: string, units: seq<Unit>, compiles: string -> bool, k: nat)
    requires k < |CacheRun(fs, cacheDir, units, compiles).invoked|
    ensures CacheRun(fs, cacheDir, units, compiles).invoked[k] in units
    ensures !Cached(fs, cacheDir, CacheRun(fs, cacheDir, units, compiles).invoked[k].hash)
    decreases |units|
  {
    var init := units[..|units| - 1];
    var prev := CacheRun(fs, cacheDir, init, compiles);
    var u := units[|units| - 1];
    if k < |prev.invoked| {
      CacheRunInvokesUncached(fs, cacheDir, init, compiles, k);
      assert prev.invoked[k] in units by {
        assert forall x :: x in init ==> x in units;
      }
      assert CacheRun(fs, cacheDir, units, compiles).invoked[k] == prev.invoked[k];
    } else {
      assert CacheRun(fs, cacheDir, units, compiles).invoked[k] == u;
      if Cached(fs, cacheDir, u.hash) {
        CacheRunKeepsFiles(fs, cacheDir, init, compiles, PdfPath(cacheDir, u.hash));
      }
    }
  }

  /** Afterwards every document has its pdf in the cache, unless the compiler
      was run on it and failed. */
  lemma {:induction false} CacheRunCovers(fs: Fs, cacheDir: string, units: seq<Unit>, compiles: string -> bool, u: Unit)
    requires u in units
    ensures var r := CacheRun(fs, cacheDir, units, compiles);
      Cached(r.fs, cacheDir, u.hash) || (u in r.invoked && !compiles(u.tex))
    decreases |units|
  {
    var init := units[..|units| - 1];
    var prev := CacheRun(fs, cacheDir, init, compiles);
    var last := units[|units| - 1];
    if u != last {
      assert u in init by {
        assert units == init + [last];
      }
      CacheRunCovers(fs, cacheDir, init, compiles, u);
      if Cached(prev.fs, cacheDir, u.hash) && !Cached(prev.fs, cacheDir, last.hash) && compiles(last.tex) {
        WriteKeepsFiles(prev.fs, PdfPath(cacheDir, last.hash), PdfPath(cacheDir, u.hash));
      }
    } else if !Cached(prev.fs, cacheDir, u.hash) && compiles(u.tex) {
      WriteKeepsFiles(prev.fs, PdfPath(cacheDir, u.hash), PdfPath(cacheDir, u.hash));
    }
  }

  /** A pdf is written only on a successful compile: when no compile succeeds,
      the file system is left as it was. */
  lemma {:induction false} CacheRunFailuresChangeNothing(fs: Fs, cacheDir: string, units: seq<Unit>, compiles: string -> bool)
    requires forall u :: u in CacheRun(fs, cacheDir, units, compiles).invoked ==> !compiles(u.tex)
    ensures CacheRun(fs, cacheDir, units, compiles).fs == fs
    decreases |units|
  {
    if units != [] {
      var init := units[..|units| - 1];
      var prev := CacheRun(fs, cacheDir, init, compiles);
      assert forall u :: u in prev.invoked ==> u in CacheRun(fs, cacheDir, units, compiles).invoked;
      CacheRunFailuresChangeNothing(fs, cacheDir, init, compiles);
    }
  }

  /** The step creates and changes no link: every link afterwards was there,
      the same, before. */
  lemma {:induction false} CacheRunKeepsLinks(fs: Fs, cacheDir: string, units: seq<Unit>, compiles: string -> bool, p: string)
    requires p in CacheRun(fs, cacheDir, units, compiles).fs && CacheRun(fs, cacheDir, units, compiles).fs[p].Link?
    ensures p in fs && fs[p] == CacheRun(fs, cacheDir, units, compiles).fs[p]
    decreases |units|
  {
    if units != [] {
      var init := units[..|units| - 1];
      var prev := CacheRun(fs, cacheDir, init, compiles);
      assert p in prev.fs && prev.fs[p] == CacheRun(fs, cacheDir, units, compiles).fs[p];
      CacheRunKeepsLinks(fs, cacheDir, init, compiles, p);
    }
  }

  /** A pdf is written only on a successful compile: a path that is neither the
      cache path of a successfully compiled document nor what that path led to
      keeps its entry, or its absence, through the step. In particular a failed
      compile adds nothing. */
  lemma {:induction false} CacheRunWritesOnlyCompiled(fs: Fs, cacheDir: string, units: seq<Unit>, compiles: string -> bool, q: string)
    requires forall u :: u in CacheRun(fs, cacheDir, units, compiles).invoked && compiles(u.tex) ==>
      q != PdfPath(cacheDir, u.hash) && q != Resolve(fs, PdfPath(cacheDir, u.hash))
    ensures (q in CacheRun(fs, cacheDir, units, compiles).fs) == (q in fs)
    ensures q in fs ==> CacheRun(fs, cacheDir, units, compiles).fs[q] == fs[q]
    decreases |units|
  {
    if units != [] {
      var init := units[..|units| - 1];
      var prev := CacheRun(fs, cacheDir, init, compiles);
      var u := units[|units| - 1];
      var r := CacheRun(fs, cacheDir, units, compiles);
      assert forall v :: v in prev.invoked ==> v in r.invoked;
      CacheRunWritesOnlyCompiled(fs, cacheDir, init, compiles, q);
      var pdf := PdfPath(cacheDir, u.hash);
      if !Cached(prev.fs, cacheDir, u.hash) && compiles(u.tex) {
        assert u in r.invoked;
        if pdf in prev.fs && prev.fs[pdf].Link? {
          CacheRunKeepsLinks(fs, cacheDir, init, compiles, pdf);
        }
        assert Resolve(prev.fs, pdf) == pdf || Resolve(prev.fs, pdf) == Resolve(fs, pdf);
      }
    }
  }

  /** When every pdf is cached already, nothing is compiled and nothing changes. */
  lemma {:induction false} CacheRunAllCached(fs: Fs, cacheDir: string, units: seq<Unit>, compiles: string -> bool)
    requires forall u :: u in units ==> Cached(fs, cacheDir, u.hash)
    ensures CacheRun(fs, cacheDir, units, compiles) == CacheResult(fs, [])
    decreases |units|
  {
    if units != [] {
      var init := units[..|units| - 1];
      assert forall u :: u in init ==> u in units;
      CacheRunAllCached(fs, cacheDir, init, compiles);
    }
  }

  /** Once every compile of a step has succeeded, the same documents go through
      a second step without a single compile, whatever the compiler would do. */
  lemma CacheRerunCompilesNothing(fs: Fs, cacheDir: string, units: seq<Unit>, compiles: string -> bool, compiles2: string -> bool)
    requires forall u :: u in CacheRun(fs, cacheDir, units, compiles).invoked ==> compiles(u.tex)
    ensures var after := CacheRun(fs, cacheDir, units, compiles).fs;
      CacheRun(after, cacheDir, units, compiles2) == CacheResult(after, [])
  {
    var after := CacheRun(fs, cacheDir, units, compiles).fs;
    forall u | u in units ensures Cached(after, cacheDir, u.hash) {
      CacheRunCovers(fs, cacheDir, units, compiles, u);
    }
    CacheRunAllCached(after, cacheDir, units, compiles2);
  }

  /** The step writes regular files only, so it adds no link to `output`. */
  lemma {:induction false} CacheRunKeepsNoLinkTo(fs: Fs, cacheDir: string, units: seq<Unit>, compiles: string -> bool, output: string)
    requires NoLinkTo(fs, output)
    ensures NoLinkTo(CacheRun(fs, cacheDir, units, compiles).fs, output)
    decreases |units|
  {
    if units != [] {
      CacheRunKeepsNoLinkTo(fs, cacheDir, units[..|units| - 1], compiles, output);
    }
  }
}
