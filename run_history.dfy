/** Comparison of this run's frames with the previous run's: the index of the
    first frame that changed. */
module RunHistory {

  /** The length of the longest common prefix of `a` and `b`. */
  function CommonPrefixLength<T(==)>(a: seq<T>, b: seq<T>): (n: nat)
    ensures n <= |a| && n <= |b|
    ensures a[..n] == b[..n]
    ensures n < |a| && n < |b| ==> a[n] != b[n]
  {
    if |a| == 0 || |b| == 0 || a[0] != b[0] then 0
    else
      var m := CommonPrefixLength(a[1..], b[1..]);
      assert a[..m + 1] == [a[0]] + a[1..][..m];
      assert b[..m + 1] == [b[0]] + b[1..][..m];
      m + 1
  }

  /** The three properties pin the length down: any index up to which the
      sequences agree and at which they differ (or one of them ends) is it. */
  lemma CommonPrefixLengthUnique<T>(a: seq<T>, b: seq<T>, m: nat)
    requires m <= |a| && m <= |b| && a[..m] == b[..m]
    requires m < |a| && m < |b| ==> a[m] != b[m]
    ensures m == CommonPrefixLength(a, b)
  {
  }

  /** Against an identical history nothing has changed: the index is past the
      last frame. */
  lemma CommonPrefixOfSelf<T>(a: seq<T>)
    ensures CommonPrefixLength(a, a) == |a|
  {
    CommonPrefixLengthUnique(a, a, |a|);
  }

  /** The comparison loop: walks both lists in step and counts frames until the
      first pair that differs or either list ends. */
  method FirstChangedFrame(frames: seq<string>, previous: seq<string>) returns (first: nat)
    ensures first == CommonPrefixLength(frames, previous)
  {
    first := 0;
    while first < |frames| && first < |previous|
      invariant first <= |frames| && first <= |previous|
      invariant frames[..first] == previous[..first]
    {
      if frames[first] != previous[first] {
        break;
      }
      assert frames[..first + 1] == frames[..first] + [frames[first]];
      assert previous[..first + 1] == previous[..first] + [previous[first]];
      first := first + 1;
    }
    CommonPrefixLengthUnique(frames, previous, first);
  }
}
