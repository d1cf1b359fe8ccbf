/** The textual frame extractor: the matches of the multi-line, dot-all regular
    expression `^\\begin\{frame\}.*?^\\end\{frame\}` taken one after another,
    and the loop that collects them into the frame list. The scan is stated for
    any pair of markers, then instantiated with the frame markers. */
module FrameScan {
  import opened Text

  const BeginFrame: string := "\\begin{frame}"
  const EndFrame: string := "\\end{frame}"

  /** One match: the half-open index range `[start, end)` of the document. */
  datatype Match = Match(start: nat, end: nat)

  /** The leftmost match of `^open.*?^close` (multi-line, dot-all) at or after
      `from`: the first line-start `open`, up to the first line-start `close`
      after it. */
  function NextMatch(s: string, open: string, close: string, from: nat): (r: Option<Match>)
    requires |close| > 0
    ensures r.Some? ==> from <= r.value.start && r.value.start + |open| + |close| <= r.value.end <= |s|
  {
    match FindLineStartFrom(s, open, from)
    case None => None
    case Some(p) =>
      match FindLineStartFrom(s, close, p + |open|)
      case None => None
      case Some(q) => Some(Match(p, q + |close|))
  }

  /** The successive matches from `from` on, each search resuming where the
      previous match ended. */
  function Scan(s: string, open: string, close: string, from: nat): seq<Match>
    requires |close| > 0
    decreases |s| - from
  {
    match NextMatch(s, open, close, from)
    case None => []
    case Some(m) => [m] + Scan(s, open, close, m.end)
  }

  /** The text of `s` from `i` up to `j`; empty when the range is not one of `s`. */
  function Slice(s: string, i: nat, j: nat): (r: string)
    ensures i <= j <= |s| ==> r == s[i..j]
  {
    if i <= j <= |s| then s[i..j] else []
  }

  /** The text of each match, in order. */
  function Texts(s: string, m: seq<Match>): (r: seq<string>)
    ensures |r| == |m|
  {
    if m == [] then [] else [Slice(s, m[0].start, m[0].end)] + Texts(s, m[1..])
  }

  /** The matches of the frame expression in a whole document. */
  function Matches(s: string): seq<Match> {
    Scan(s, BeginFrame, EndFrame, 0)
  }

  /** The frames the textual fallback extracts from a whole document. */
  function FrameTexts(s: string): seq<string> {
    Texts(s, Matches(s))
  }

  /** Frames as the extractor returns them: the structural parser's frames
      when it found any, the textual scan's otherwise. */
  function SelectFrames(content: string, treeFrames: seq<string>): seq<string> {
    if |treeFrames| > 0 then treeFrames else FrameTexts(content)
  }

  /** The match is a block of `s`: its range begins with a line-start `open`,
      ends with a line-start `close`, and (the lazy `.*?`) holds no line-start
      `close` between the two. */
  ghost predicate Delimited(s: string, open: string, close: string, m: Match) {
    && m.start + |open| + |close| <= m.end <= |s|
    && LineStart(s, m.start) && At(s, m.start, open)
    && LineStart(s, m.end - |close|) && At(s, m.end - |close|, close)
    && forall j :: m.start + |open| <= j < m.end - |close| ==> !(LineStart(s, j) && At(s, j, close))
  }

  /** A line-start `open` at `p` that some later line-start `close` follows:
      the regular expression can match from `p`. */
  ghost predicate Opens(s: string, open: string, close: string, p: nat) {
    LineStart(s, p) && At(s, p, open) && FindLineStartFrom(s, close, p + |open|).Some?
  }

  /** A block on its own: it opens with `open`, its last line is `close`, and
      no earlier line of it begins with `close`. */
  ghost predicate WellFormed(f: string, open: string, close: string) {
    && |f| >= |open| + |close|
    && At(f, 0, open)
    && LineStart(f, |f| - |close|) && At(f, |f| - |close|, close)
    && forall j :: 0 <= j < |f| - |close| ==> !(LineStart(f, j) && At(f, j, close))
  }

  /** A frame text on its own: it opens with `\begin{frame}`, its last line is
      `\end{frame}`, and no earlier line of it begins with `\end{frame}`. */
  ghost predicate WellFormedFrame(f: string) {
    WellFormed(f, BeginFrame, EndFrame)
  }

  lemma {:induction false} TextsAt(s: string, m: seq<Match>, k: nat)
    requires k < |m|
    ensures Texts(s, m)[k] == Slice(s, m[k].start, m[k].end)
  {
    if k > 0 {
      TextsAt(s, m[1..], k - 1);
    }
  }

  /** The first match of a step, and how many follow it. */
  lemma ScanHead(s: string, open: string, close: string, from: nat, m: Match)
    requires |close| > 0 && NextMatch(s, open, close, from) == Some(m)
    ensures |Scan(s, open, close, from)| == |Scan(s, open, close, m.end)| + 1
    ensures Scan(s, open, close, from)[0] == m
  {
  }

  /** The later matches of a step are those of the scan resumed after it. */
  lemma ScanTail(s: string, open: string, close: string, from: nat, m: Match, k: nat)
    requires |close| > 0 && NextMatch(s, open, close, from) == Some(m)
    requires 0 < k <= |Scan(s, open, close, m.end)|
    ensures k < |Scan(s, open, close, from)|
    ensures Scan(s, open, close, from)[k] == Scan(s, open, close, m.end)[k - 1]
  {
  }

  /** One iteration of the match loop: pushing the match's text and resuming
      after it keeps the pushed texts followed by the remaining ones the same. */
  lemma ScanTextsAdvance(s: string, open: string, close: string, from: nat, m: Match, done: seq<string>)
    requires |close| > 0 && NextMatch(s, open, close, from) == Some(m)
    ensures done + Texts(s, Scan(s, open, close, from)) == (done + [s[m.start..m.end]]) + Texts(s, Scan(s, open, close, m.end))
  {
    var rest := Scan(s, open, close, m.end);
    assert Scan(s, open, close, from) == [m] + rest;
    assert ([m] + rest)[1..] == rest;
  }

  /** The loop's exit: with no further match, nothing remains to push. */
  lemma ScanTextsDone(s: string, open: string, close: string, from: nat, done: seq<string>)
    requires |close| > 0 && NextMatch(s, open, close, from).None?
    ensures done + Texts(s, Scan(s, open, close, from)) == done
  {
    assert done + [] == done;
  }

  /** The leftmost match is a block: nothing between its markers is a
      line-start `close`. */
  lemma NextMatchDelimited(s: string, open: string, close: string, from: nat)
    requires |close| > 0 && NextMatch(s, open, close, from).Some?
    ensures Delimited(s, open, close, NextMatch(s, open, close, from).value)
  {
    var m := NextMatch(s, open, close, from).value;
    forall j | m.start + |open| <= j < m.end - |close|
      ensures !(LineStart(s, j) && At(s, j, close))
    {
      FindLineStartFromFirst(s, close, m.start + |open|, j);
    }
  }

  /** Every match found from `from` is a block that starts at or after `from`. */
  lemma {:induction false} ScanDelimited(s: string, open: string, close: string, from: nat, k: nat)
    requires |close| > 0
    requires k < |Scan(s, open, close, from)|
    ensures from <= Scan(s, open, close, from)[k].start
    ensures Delimited(s, open, close, Scan(s, open, close, from)[k])
    decreases |s| - from
  {
    var m := NextMatch(s, open, close, from).value;
    ScanHead(s, open, close, from, m);
    if k == 0 {
      NextMatchDelimited(s, open, close, from);
    } else {
      ScanTail(s, open, close, from, m, k);
      ScanDelimited(s, open, close, m.end, k - 1);
    }
  }

  /** The matches come in source order and do not overlap. */
  lemma {:induction false} ScanOrdered(s: string, open: string, close: string, from: nat, i: nat, j: nat)
    requires |close| > 0
    requires i < j < |Scan(s, open, close, from)|
    ensures Scan(s, open, close, from)[i].end <= Scan(s, open, close, from)[j].start
    decreases |s| - from
  {
    var m := NextMatch(s, open, close, from).value;
    ScanHead(s, open, close, from, m);
    ScanTail(s, open, close, from, m, j);
    if i == 0 {
      ScanDelimited(s, open, close, m.end, j - 1);
    } else {
      ScanTail(s, open, close, from, m, i);
      ScanOrdered(s, open, close, m.end, i - 1, j - 1);
    }
  }

  /** No block is missed: every line-start `open` from which the regular
      expression could match lies inside one of the matches, match `k`. */
  lemma {:induction false} ScanCovers(s: string, open: string, close: string, from: nat, p: nat) returns (k: nat)
    requires |close| > 0
    requires from <= p && Opens(s, open, close, p)
    ensures k < |Scan(s, open, close, from)|
    ensures Scan(s, open, close, from)[k].start <= p < Scan(s, open, close, from)[k].end
    decreases |s| - from
  {
    var q0 := FindLineStartFrom(s, close, p + |open|).value;
    var b := FindLineStartFrom(s, open, from);
    if b.None? || p < b.value {
      FindLineStartFromFirst(s, open, from, p);
      assert false;
    }
    var e := FindLineStartFrom(s, close, b.value + |open|);
    if e.None? {
      FindLineStartFromFirst(s, close, b.value + |open|, q0);
      assert false;
    }
    var m := Match(b.value, e.value + |close|);
    assert NextMatch(s, open, close, from) == Some(m);
    ScanHead(s, open, close, from, m);
    if m.end <= p {
      var j := ScanCovers(s, open, close, m.end, p);
      ScanTail(s, open, close, from, m, j + 1);
      k := j + 1;
    } else {
      k := 0;
    }
  }

  /** The text of a delimited match is a well-formed block on its own, as long
      as `open` holds no line feed and no text starts with both markers. */
  lemma DelimitedIsWellFormed(s: string, open: string, close: string, m: Match)
    requires Delimited(s, open, close, m)
    requires forall i :: 0 <= i < |open| ==> open[i] != '\n'
    requires forall t :: !(At(t, 0, open) && At(t, 0, close))
    ensures WellFormed(s[m.start..m.end], open, close)
  {
    var f := s[m.start..m.end];
    var e := |f| - |close|;
    assert At(f, 0, open) by {
      forall k | 0 <= k < |open| ensures f[k] == open[k] {
        assert f[k] == s[m.start + k];
      }
    }
    assert LineStart(f, e) by {
      assert f[e - 1] == s[m.end - |close| - 1];
    }
    assert At(f, e, close) by {
      forall k | 0 <= k < |close| ensures f[e + k] == close[k] {
        assert f[e + k] == s[m.end - |close| + k];
      }
    }
    forall j | 0 <= j < e
      ensures !(LineStart(f, j) && At(f, j, close))
    {
      if j == 0 {
        assert !(At(f, 0, open) && At(f, 0, close));
      } else if j < |open| {
        assert f[j - 1] == open[j - 1];
      } else if LineStart(f, j) && At(f, j, close) {
        assert s[m.start + j - 1] == f[j - 1];
        forall k | 0 <= k < |close| ensures s[m.start + j + k] == close[k] {
          assert s[m.start + j + k] == f[j + k];
        }
        assert LineStart(s, m.start + j) && At(s, m.start + j, close);
        assert false;
      }
    }
  }

  /** The opening frame marker holds no line feed, and no text starts with both
      frame markers (their second characters differ). */
  lemma FrameMarkersDistinct()
    ensures forall i :: 0 <= i < |BeginFrame| ==> BeginFrame[i] != '\n'
    ensures forall t :: !(At(t, 0, BeginFrame) && At(t, 0, EndFrame))
  {
    forall t | At(t, 0, BeginFrame)
      ensures !At(t, 0, EndFrame)
    {
      assert t[1] == BeginFrame[1] == 'b';
      assert EndFrame[1] == 'e';
    }
  }

  /** The extracted frames: one per match, each the document's exact text over
      that match's range, the ranges in source order and pairwise disjoint, and
      each frame well formed. */
  lemma FrameTextsAreFrames(s: string)
    ensures |FrameTexts(s)| == |Matches(s)|
    ensures forall k :: 0 <= k < |Matches(s)| ==>
      && Matches(s)[k].start <= Matches(s)[k].end <= |s|
      && FrameTexts(s)[k] == s[Matches(s)[k].start..Matches(s)[k].end]
      && WellFormedFrame(FrameTexts(s)[k])
    ensures forall i, j :: 0 <= i < j < |Matches(s)| ==> Matches(s)[i].end <= Matches(s)[j].start
  {
    var m := Matches(s);
    FrameMarkersDistinct();
    forall k | 0 <= k < |m|
      ensures m[k].start <= m[k].end <= |s| && FrameTexts(s)[k] == s[m[k].start..m[k].end] && WellFormedFrame(FrameTexts(s)[k])
    {
      TextsAt(s, m, k);
      ScanDelimited(s, BeginFrame, EndFrame, 0, k);
      DelimitedIsWellFormed(s, BeginFrame, EndFrame, m[k]);
    }
    forall i, j | 0 <= i < j < |m| ensures m[i].end <= m[j].start {
      ScanOrdered(s, BeginFrame, EndFrame, 0, i, j);
    }
  }

  /** No frame is missed: every line-start `\begin{frame}` that a later
      line-start `\end{frame}` follows lies inside one of the matches. */
  lemma FrameTextsComplete(s: string, p: nat)
    requires Opens(s, BeginFrame, EndFrame, p)
    ensures exists k :: 0 <= k < |Matches(s)| && Matches(s)[k].start <= p < Matches(s)[k].end
  {
    var k := ScanCovers(s, BeginFrame, EndFrame, 0, p);
    assert Matches(s)[k] == Scan(s, BeginFrame, EndFrame, 0)[k];
  }

  /** The extractor's choice: the structural parser's frames when there are
      any, the textual scan's otherwise. */
  method CollectFrames(content: string, treeFrames: seq<string>) returns (frames: seq<string>)
    ensures frames == SelectFrames(content, treeFrames)
  {
    if |treeFrames| > 0 {
      frames := CopyFrames(treeFrames);
    } else {
      frames := ScanFrames(content);
    }
  }

  /** The push loop over the structural parser's frame strings. */
  method CopyFrames(treeFrames: seq<string>) returns (frames: seq<string>)
    ensures frames == treeFrames
  {
    frames := [];
    for i := 0 to |treeFrames|
      invariant frames == treeFrames[..i]
    {
      frames := frames + [treeFrames[i]];
    }
  }

  /** The push loop over the matches of the frame expression: each match's text
      is pushed in turn, the search resuming after it. */
  method ScanFrames(content: string) returns (frames: seq<string>)
    ensures frames == FrameTexts(content)
  {
    frames := [];
    var pos := 0;
    while true
      invariant pos <= |content|
      invariant frames + Texts(content, Scan(content, BeginFrame, EndFrame, pos)) == FrameTexts(content)
      decreases |content| - pos
    {
      var found := NextMatch(content, BeginFrame, EndFrame, pos);
      if found.None? {
        ScanTextsDone(content, BeginFrame, EndFrame, pos, frames);
        break;
      }
      var m := found.value;
      ScanTextsAdvance(content, BeginFrame, EndFrame, pos, m, frames);
      frames := frames + [content[m.start..m.end]];
      pos := m.end;
    }
  }
}
