/** What the pipeline derives from the document before compiling anything: the
    preamble, the name of the precompiled format, one compile string per frame,
    and the cache path of each compiled frame. */
module CompileUnits {
  import opened Text

  const BeginDocument: string := "\\begin{document}"
  /** A lower-case hexadecimal digit. */
  predicate IsHexChar(c: char) {
    '0' <= c <= '9' || 'a' <= c <= 'f'
  }

  /** The `{:x}` rendering of an MD5 digest: 32 lower-case hexadecimal digits. */
  predicate IsHexDigest(s: string) {
    |s| == 32 && forall i :: 0 <= i < |s| ==> IsHexChar(s[i])
  }

  type HexDigest = s: string | IsHexDigest(s) witness "00000000000000000000000000000000"

  /** The preamble: everything before the first `\begin{document}`, or nothing
      when the document holds none. */
  function PreambleOf(content: string): (r: Option<string>)
    ensures r.Some? ==> |r.value| + |BeginDocument| <= |content| && r.value == content[..|r.value|]
    ensures r.Some? ==> At(content, |r.value|, BeginDocument)
  {
    match FindFrom(content, BeginDocument, 0)
    case None => None
    case Some(x) => Some(content[..x])
  }

  /** The preamble stops at the first `\begin{document}`: it holds no occurrence
      of its own, and when there is no preamble the document holds none at all. */
  lemma PreambleIsFirst(content: string, j: nat)
    requires PreambleOf(content).None? || j < |PreambleOf(content).value|
    ensures !At(content, j, BeginDocument)
  {
    FindFromFirst(content, BeginDocument, 0, j);
  }

  /** There is no preamble exactly when `\begin{document}` occurs nowhere. */
  lemma NoPreambleIff(content: string)
    ensures PreambleOf(content).None? <==> forall j: nat :: !At(content, j, BeginDocument)
  {
    if PreambleOf(content).None? {
      forall j: nat ensures !At(content, j, BeginDocument) {
        PreambleIsFirst(content, j);
      }
    }
  }

  /** How `{}` renders the draft flag. */
  function DraftText(draft: bool): (r: string)
    ensures |r| == if draft then 4 else 5
  {
    if draft then "true" else "false"
  }

  /** The format's job name: the preamble digest and the draft flag. */
  function FormatName(digest: HexDigest, draft: bool): (r: string)
    ensures |r| > 33 && r[..32] == digest && r[32] == '_'
  {
    digest + "_" + DraftText(draft)
  }

  /** Distinct preamble digests or draft settings give distinct format names,
      so a format built for one is never taken for another. */
  lemma FormatNameInjective(d1: HexDigest, b1: bool, d2: HexDigest, b2: bool)
    requires FormatName(d1, b1) == FormatName(d2, b2)
    ensures d1 == d2 && b1 == b2
  {
    var n := FormatName(d1, b1);
    assert d1 == n[..32] == d2;
    assert n[33..] == DraftText(b1) == DraftText(b2);
  }

  /** `Path::join` of a relative name onto a directory. */
  function Join(dir: string, name: string): string
  {
    if dir == [] || dir[|dir| - 1] == '/' then dir + name else dir + "/" + name
  }

  /** Joining onto one directory loses nothing: different names give different
      paths. */
  lemma JoinInjective(dir: string, a: string, b: string)
    requires Join(dir, a) == Join(dir, b)
    ensures a == b
  {
    var sep := if dir == [] || dir[|dir| - 1] == '/' then dir else dir + "/";
    assert Join(dir, a) == sep + a && Join(dir, b) == sep + b;
    assert a == (sep + a)[|sep|..];
    assert b == (sep + b)[|sep|..];
  }

  /** The precompiled format file next to the input: `<name>.fmt`. */
  function FormatPath(inputDir: string, name: string): string
  {
    Join(inputDir, name + ".fmt")
  }

  /** The compiled frame in the cache directory: `<hash>.pdf`. */
  function PdfPath(cacheDir: string, hash: HexDigest): string
  {
    Join(cacheDir, hash + ".pdf")
  }

  /** Distinct hashes are cached under distinct paths. */
  lemma PdfPathInjective(cacheDir: string, h1: HexDigest, h2: HexDigest)
    requires PdfPath(cacheDir, h1) == PdfPath(cacheDir, h2)
    ensures h1 == h2
  {
    JoinInjective(cacheDir, h1 + ".pdf", h2 + ".pdf");
    assert h1 == (h1 + ".pdf")[..32];
    assert h2 == (h2 + ".pdf")[..32];
  }

  /** The text of the compile string before the frame. */
  function CompileHeader(fmt: string, preamble: string): string {
    "%&" + fmt + "\n" + preamble + "\n\\begin{document}\n"
  }

  const CompileFooter: string := "\n\\end{document}\n"

  /** The stand-alone document compiled for one frame: the `%&` line selecting
      the precompiled format, the preamble, then the frame inside its own
      document environment. */
  function CompileString(fmt: string, preamble: string, frame: string): (r: string)
    ensures |r| == |CompileHeader(fmt, preamble)| + |frame| + |CompileFooter|
    ensures r[..2] == "%&" && r[2..2 + |fmt|] == fmt
  {
    CompileHeader(fmt, preamble) + frame + CompileFooter
  }

  /** Reads the frame back out of a compile string built with `fmt` and
      `preamble`; nothing when the string is not one. */
  function FrameOfCompileString(fmt: string, preamble: string, c: string): (r: Option<string>)
    ensures r.Some? ==> CompileString(fmt, preamble, r.value) == c
  {
    var h := CompileHeader(fmt, preamble);
    if |c| >= |h| + |CompileFooter| && c[..|h|] == h && c[|c| - |CompileFooter|..] == CompileFooter then
      var f := c[|h|..|c| - |CompileFooter|];
      assert c == c[..|h|] + f + c[|c| - |CompileFooter|..];
      Some(f)
    else None
  }

  /** The frame can always be read back out of its compile string. */
  lemma CompileStringRoundTrip(fmt: string, preamble: string, frame: string)
    ensures FrameOfCompileString(fmt, preamble, CompileString(fmt, preamble, frame)) == Some(frame)
  {
    var h := CompileHeader(fmt, preamble);
    var c := CompileString(fmt, preamble, frame);
    assert c[..|h|] == h;
    assert c[|c| - |CompileFooter|..] == CompileFooter;
    assert c[|h|..|c| - |CompileFooter|] == frame;
  }

  /** Under one format and preamble, distinct frames give distinct compile
      strings. */
  lemma CompileStringInjective(fmt: string, preamble: string, f1: string, f2: string)
    requires CompileString(fmt, preamble, f1) == CompileString(fmt, preamble, f2)
    ensures f1 == f2
  {
    CompileStringRoundTrip(fmt, preamble, f1);
    CompileStringRoundTrip(fmt, preamble, f2);
  }

  /** One entry of the generated documents: the digest of a compile string and
      the string itself. */
  datatype Unit = Unit(hash: HexDigest, tex: string)

  /** The generated documents for a frame list, in frame order. */
  function UnitsOf(md5: string -> HexDigest, fmt: string, preamble: string, frames: seq<string>): (r: seq<Unit>)
    ensures |r| == |frames|
  {
    if frames == [] then []
    else
      var tex := CompileString(fmt, preamble, frames[0]);
      [Unit(md5(tex), tex)] + UnitsOf(md5, fmt, preamble, frames[1..])
  }

  /** Entry `i` is frame `i`'s compile string and its digest. */
  lemma {:induction false} UnitsOfAt(md5: string -> HexDigest, fmt: string, preamble: string, frames: seq<string>, i: nat)
    requires i < |frames|
    ensures UnitsOf(md5, fmt, preamble, frames)[i].tex == CompileString(fmt, preamble, frames[i])
    ensures UnitsOf(md5, fmt, preamble, frames)[i].hash == md5(CompileString(fmt, preamble, frames[i]))
  {
    if i > 0 {
      UnitsOfAt(md5, fmt, preamble, frames[1..], i - 1);
    }
  }

  /** Every unit's compile string holds its frame: reading it back gives the
      frame the unit was made from. */
  lemma UnitsOfFrames(md5: string -> HexDigest, fmt: string, preamble: string, frames: seq<string>, i: nat)
    requires i < |frames|
    ensures FrameOfCompileString(fmt, preamble, UnitsOf(md5, fmt, preamble, frames)[i].tex) == Some(frames[i])
  {
    UnitsOfAt(md5, fmt, preamble, frames, i);
    CompileStringRoundTrip(fmt, preamble, frames[i]);
  }

  /** The cache paths of the units, in order: the input files handed to
      `pdfunite`. */
  function PdfPaths(cacheDir: string, units: seq<Unit>): (r: seq<string>)
    ensures |r| == |units|
  {
    if units == [] then [] else [PdfPath(cacheDir, units[0].hash)] + PdfPaths(cacheDir, units[1..])
  }

  lemma {:induction false} PdfPathsAt(cacheDir: string, units: seq<Unit>, i: nat)
    requires i < |units|
    ensures PdfPaths(cacheDir, units)[i] == PdfPath(cacheDir, units[i].hash)
  {
    if i > 0 {
      PdfPathsAt(cacheDir, units[1..], i - 1);
    }
  }

  /** The frame loop: for each frame, builds its compile string, hashes it,
      records the unit and appends its cache path to the `pdfunite` arguments. */
  method BuildUnits(md5: string -> HexDigest, fmt: string, preamble: string, cacheDir: string, frames: seq<string>)
    returns (units: seq<Unit>, pdfArgs: seq<string>)
    ensures units == UnitsOf(md5, fmt, preamble, frames)
    ensures pdfArgs == PdfPaths(cacheDir, units)
  {
    units := [];
    pdfArgs := [];
    for i := 0 to |frames|
      invariant units == UnitsOf(md5, fmt, preamble, frames[..i])
      invariant pdfArgs == PdfPaths(cacheDir, units)
    {
      var tex := CompileString(fmt, preamble, frames[i]);
      var hash := md5(tex);
      UnitsOfAppend(md5, fmt, preamble, frames[..i], frames[i]);
      PdfPathsAppend(cacheDir, units, Unit(hash, tex));
      assert frames[..i + 1] == frames[..i] + [frames[i]];
      units := units + [Unit(hash, tex)];
      pdfArgs := pdfArgs + [PdfPath(cacheDir, hash)];
    }
    assert frames[..|frames|] == frames;
  }

  lemma {:induction false} UnitsOfAppend(md5: string -> HexDigest, fmt: string, preamble: string, frames: seq<string>, f: string)
    ensures UnitsOf(md5, fmt, preamble, frames + [f])
      == UnitsOf(md5, fmt, preamble, frames) + [Unit(md5(CompileString(fmt, preamble, f)), CompileString(fmt, preamble, f))]
  {
    if frames != [] {
      assert (frames + [f])[1..] == frames[1..] + [f];
      UnitsOfAppend(md5, fmt, preamble, frames[1..], f);
    } else {
      assert ([] + [f])[1..] == [];
    }
  }

  lemma {:induction false} PdfPathsAppend(cacheDir: string, units: seq<Unit>, u: Unit)
    ensures PdfPaths(cacheDir, units + [u]) == PdfPaths(cacheDir, units) + [PdfPath(cacheDir, u.hash)]
  {
    if units != [] {
      assert (units + [u])[1..] == units[1..] + [u];
      PdfPathsAppend(cacheDir, units[1..], u);
    } else {
      assert ([] + [u])[1..] == [];
    }
  }
}
