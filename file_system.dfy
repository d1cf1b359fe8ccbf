/** The part of the file system the pipeline touches: paths that hold a regular
    file or a symbolic link, and the four operations it performs on them. */
module FileSystem {
  import opened Text

  datatype Entry = Regular | Link(target: string)

  type Fs = map<string, Entry>

  /** `Path::is_file`: a regular file, or a link whose target is one (metadata
      follows the link). */
  predicate IsFile(fs: Fs, p: string) {
    p in fs && (fs[p].Regular? || (fs[p].target in fs && fs[fs[p].target].Regular?))
  }

  /** The path a write to `p` lands on: a link's target, otherwise `p` itself. */
  function Resolve(fs: Fs, p: string): string {
    if p in fs && fs[p].Link? then fs[p].target else p
  }

  /** `fs::write`: creates or replaces the regular file `p` resolves to. */
  function Write(fs: Fs, p: string): (r: Fs)
    ensures r.Keys == fs.Keys + {Resolve(fs, p)}
    ensures r[Resolve(fs, p)] == Regular
    ensures forall q :: q in fs && q != Resolve(fs, p) ==> r[q] == fs[q]
  {
    fs[Resolve(fs, p) := Regular]
  }

  /** After a write, `p` is a file, and every file before it still is one. */
  lemma WriteKeepsFiles(fs: Fs, p: string, q: string)
    requires q == p || IsFile(fs, q)
    ensures IsFile(Write(fs, p), q)
  {
  }

  /** `fs::remove_file` of an existing path: the entry goes, a link without its
      target. */
  function Remove(fs: Fs, p: string): (r: Fs)
    ensures r.Keys == fs.Keys - {p}
    ensures forall q :: q in r ==> r[q] == fs[q]
  {
    fs - {p}
  }

  /** `symlink_file(target, link)`: fails when `link` exists already. */
  function Symlink(fs: Fs, target: string, link: string): (r: Option<Fs>)
    ensures r.None? <==> link in fs
    ensures r.Some? ==> r.value == fs[link := Link(target)]
  {
    if link in fs then None else Some(fs[link := Link(target)])
  }

  /** Pointing the output at a compiled frame as the pipeline does it: the old
      output is removed only when it is a file, then the link is created; none
      when the link cannot be created (the pipeline panics there). */
  function LinkOutputAsWritten(fs: Fs, target: string, output: string): Option<Fs> {
    var cleared := if IsFile(fs, output) then Remove(fs, output) else fs;
    Symlink(cleared, target, output)
  }

  /** The as-written linking fails exactly when the output path exists but is
      not a file: a link whose target is missing. */
  lemma LinkOutputAsWrittenFails(fs: Fs, target: string, output: string)
    ensures LinkOutputAsWritten(fs, target, output).None? <==> output in fs && !IsFile(fs, output)
  {
  }

  /** Concretely: once the output is a link to a frame that never compiled, the
      next preview cannot replace it. */
  lemma DanglingOutputBlocksRelink()
    ensures LinkOutputAsWritten(map["output.pdf" := Link("cache/a.pdf")], "cache/b.pdf", "output.pdf").None?
  {
    var fs: Fs := map["output.pdf" := Link("cache/a.pdf")];
    assert "cache/a.pdf" !in fs;
    assert !IsFile(fs, "output.pdf");
  }

  /** Pointing the output at a compiled frame: whatever is at the output path,
      file or link, is replaced by a link to `target`. */
  function LinkOutput(fs: Fs, target: string, output: string): (r: Fs)
    ensures r.Keys == fs.Keys + {output}
    ensures r[output] == Link(target)
    ensures forall q :: q in fs && q != output ==> r[q] == fs[q]
  {
    (fs - {output})[output := Link(target)]
  }

  /** Wherever the as-written linking succeeds, it does what `LinkOutput` does. */
  lemma LinkOutputAgrees(fs: Fs, target: string, output: string)
    requires LinkOutputAsWritten(fs, target, output).Some?
    ensures LinkOutputAsWritten(fs, target, output).value == LinkOutput(fs, target, output)
  {
    if !IsFile(fs, output) {
      assert fs - {output} == fs;
    }
  }

  /** After linking, the output is a file exactly when the target is one. */
  lemma LinkOutputIsFile(fs: Fs, target: string, output: string)
    requires target != output
    ensures IsFile(LinkOutput(fs, target, output), output) <==> target in fs && fs[target].Regular?
  {
  }

  /** No link ends at `output`. */
  predicate NoLinkTo(fs: Fs, output: string) {
    forall p :: p in fs && fs[p].Link? ==> fs[p].target != output
  }

  /** A write adds no link. */
  lemma WriteKeepsNoLinkTo(fs: Fs, p: string, output: string)
    requires NoLinkTo(fs, output)
    ensures NoLinkTo(Write(fs, p), output)
  {
  }

  /** Linking the output leaves every other file a file, provided no link ends
      at the output; and a link to some other path adds no link to it. */
  lemma LinkOutputKeepsFiles(fs: Fs, target: string, output: string, q: string)
    requires NoLinkTo(fs, output) && target != output
    requires IsFile(fs, q) && q != output
    ensures IsFile(LinkOutput(fs, target, output), q)
    ensures NoLinkTo(LinkOutput(fs, target, output), output)
  {
  }
}
