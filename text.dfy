/** Text positions and the two searches the pipeline performs on document text.
    Strings are sequences of characters; every marker searched for is ASCII, so
    character positions and the byte positions the program uses agree on what
    is extracted. */
module Text {

  datatype Option<+T> = None | Some(value: T)

  /** `pat` occurs in `s` starting at index `i`. */
  predicate At(s: string, i: nat, pat: string) {
    i + |pat| <= |s| && forall k :: 0 <= k < |pat| ==> s[i + k] == pat[k]
  }

  /** Index `i` begins a line: the start of the text, or just after a line feed.
      This is where `^` matches in a multi-line regular expression. */
  predicate LineStart(s: string, i: nat) {
    i == 0 || (i <= |s| && s[i - 1] == '\n')
  }

  /** The first occurrence of `pat` at or after `from`; `str::find` is `FindFrom(s, pat, 0)`. */
  function FindFrom(s: string, pat: string, from: nat): (r: Option<nat>)
    ensures r.Some? ==> from <= r.value && At(s, r.value, pat)
    decreases |s| - from
  {
    if from + |pat| > |s| then None
    else if At(s, from, pat) then Some(from)
    else FindFrom(s, pat, from + 1)
  }

  /** The first occurrence of `pat` at or after `from` that begins a line. */
  function FindLineStartFrom(s: string, pat: string, from: nat): (r: Option<nat>)
    ensures r.Some? ==> from <= r.value && LineStart(s, r.value) && At(s, r.value, pat)
    decreases |s| - from
  {
    if from + |pat| > |s| then None
    else if LineStart(s, from) && At(s, from, pat) then Some(from)
    else FindLineStartFrom(s, pat, from + 1)
  }

  /** `FindFrom` returns the first occurrence: there is none at any index `j`
      from `from` up to the result, or from `from` on when there is no result. */
  lemma {:induction false} FindFromFirst(s: string, pat: string, from: nat, j: nat)
    requires from <= j
    requires FindFrom(s, pat, from).None? || j < FindFrom(s, pat, from).value
    ensures !At(s, j, pat)
    decreases |s| - from
  {
    if from + |pat| <= |s| && !At(s, from, pat) && from < j {
      FindFromFirst(s, pat, from + 1, j);
    }
  }

  /** `FindLineStartFrom` returns the first line-start occurrence. */
  lemma {:induction false} FindLineStartFromFirst(s: string, pat: string, from: nat, j: nat)
    requires from <= j
    requires FindLineStartFrom(s, pat, from).None? || j < FindLineStartFrom(s, pat, from).value
    ensures !(LineStart(s, j) && At(s, j, pat))
    decreases |s| - from
  {
    if from + |pat| <= |s| && !(LineStart(s, from) && At(s, from, pat)) && from < j {
      FindLineStartFromFirst(s, pat, from + 1, j);
    }
  }
}
