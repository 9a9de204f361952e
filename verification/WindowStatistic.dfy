/** The sliding order statistic of the film report: the smallest low percentile over all
    windows of a sequence, kept up to date by one removal and one insertion per window. */
module WindowStatistic {

  datatype Result = ValueError | Worst(startFrame: nat, frames: nat, p5: real)

  function Below(s: seq<real>, v: real): nat {
    if s == [] then 0 else (if s[0] < v then 1 else 0) + Below(s[1..], v)
  }

  function AtMost(s: seq<real>, v: real): nat {
    if s == [] then 0 else (if s[0] <= v then 1 else 0) + AtMost(s[1..], v)
  }

  /** `v` is the element of the given rank, counted from zero in increasing order. */
  predicate HasRank(s: seq<real>, rank: nat, v: real) {
    Below(s, v) <= rank < AtMost(s, v)
  }

  predicate Sorted(s: seq<real>) {
    forall i, j :: 0 <= i < j < |s| ==> s[i] <= s[j]
  }

  function Window(values: seq<real>, size: nat, start: nat): seq<real>
    requires start + size <= |values|
  {
    values[start..start + size]
  }

  /** Among the windows that start at 0 to `last`, the one at `start` has the smallest
      element of that rank, and no earlier one ties with it. */
  ghost predicate Earliest(values: seq<real>, size: nat, rank: nat, last: nat, start: nat, p5: real)
    requires last + size <= |values|
  {
    && start <= last && HasRank(Window(values, size, start), rank, p5)
    && forall k, v | 0 <= k <= last && HasRank(Window(values, size, k), rank, v) :: p5 <= v && (k < start ==> p5 < v)
  }

  lemma {:induction false} CountsSplit(s: seq<real>, t: seq<real>, v: real)
    ensures Below(s + t, v) == Below(s, v) + Below(t, v)
    ensures AtMost(s + t, v) == AtMost(s, v) + AtMost(t, v)
  {
    if s == [] {
      assert s + t == t;
    } else {
      assert (s + t)[1..] == s[1..] + t;
      CountsSplit(s[1..], t, v);
    }
  }

  function Remove(s: seq<real>, i: nat): seq<real>
    requires i < |s|
  {
    s[..i] + s[i + 1..]
  }

  lemma RemoveOne(s: seq<real>, i: nat, v: real)
    requires i < |s|
    ensures multiset(s) == multiset(Remove(s, i)) + multiset{s[i]}
    ensures Below(s, v) == Below(Remove(s, i), v) + if s[i] < v then 1 else 0
    ensures AtMost(s, v) == AtMost(Remove(s, i), v) + if s[i] <= v then 1 else 0
  {
    assert s == s[..i] + ([s[i]] + s[i + 1..]);
    CountsSplit(s[..i], [s[i]] + s[i + 1..], v);
    CountsSplit(s[..i], s[i + 1..], v);
  }

  lemma Cancel(a: multiset<real>, b: multiset<real>, v: real)
    requires a + multiset{v} == b + multiset{v}
    ensures a == b
  {
    assert a == a + multiset{v} - multiset{v} && b == b + multiset{v} - multiset{v};
  }

  /** Counting does not depend on the order. */
  lemma {:induction false} CountsOfPermutation(s: seq<real>, t: seq<real>, v: real)
    requires multiset(s) == multiset(t)
    ensures Below(s, v) == Below(t, v) && AtMost(s, v) == AtMost(t, v)
    decreases |s|
  {
    if s == [] {
      assert |multiset(t)| == |multiset(s)| == 0;
    } else {
      assert s[0] in multiset(t);
      var i :| 0 <= i < |t| && t[i] == s[0];
      RemoveOne(s, 0, v);
      RemoveOne(t, i, v);
      Cancel(multiset(Remove(s, 0)), multiset(Remove(t, i)), s[0]);
      CountsOfPermutation(Remove(s, 0), Remove(t, i), v);
    }
  }

  lemma {:induction false} CountsAreBounded(s: seq<real>, v: real)
    ensures Below(s, v) <= |s|
    ensures (forall i :: 0 <= i < |s| ==> s[i] >= v) ==> Below(s, v) == 0
    ensures (forall i :: 0 <= i < |s| ==> s[i] <= v) ==> AtMost(s, v) == |s|
  {
    if s != [] { CountsAreBounded(s[1..], v); }
  }

  lemma SortedHasRank(s: seq<real>, window: seq<real>, rank: nat)
    requires Sorted(s) && multiset(s) == multiset(window) && rank < |s|
    ensures HasRank(window, rank, s[rank])
  {
    var v := s[rank];
    assert s == s[..rank] + s[rank..] == s[..rank + 1] + s[rank + 1..];
    CountsSplit(s[..rank], s[rank..], v);
    CountsAreBounded(s[..rank], v);
    CountsAreBounded(s[rank..], v);
    CountsSplit(s[..rank + 1], s[rank + 1..], v);
    CountsAreBounded(s[..rank + 1], v);
    CountsOfPermutation(s, window, v);
  }

  lemma {:induction false} CountsAreMonotone(s: seq<real>, v: real, w: real)
    requires v < w
    ensures AtMost(s, v) <= Below(s, w)
  {
    if s != [] { CountsAreMonotone(s[1..], v, w); }
  }

  /** At most one value has a given rank. */
  lemma RankIsUnique(s: seq<real>, rank: nat, v: real, w: real)
    requires HasRank(s, rank, v) && HasRank(s, rank, w)
    ensures v == w
  {
    if v < w { CountsAreMonotone(s, v, w); }
    if w < v { CountsAreMonotone(s, w, v); }
  }

  method BisectLeft(s: seq<real>, v: real) returns (at: nat)
    requires Sorted(s)
    ensures at <= |s| && (forall i :: 0 <= i < at ==> s[i] < v) && (forall i :: at <= i < |s| ==> v <= s[i])
  {
    at := 0;
    var hi := |s|;
    while at < hi
      invariant at <= hi <= |s|
      invariant (forall i :: 0 <= i < at ==> s[i] < v) && (forall i :: hi <= i < |s| ==> v <= s[i])
    {
      var mid := (at + hi) / 2;
      if s[mid] < v { at := mid + 1; } else { hi := mid; }
    }
  }

  lemma Inserted(s: seq<real>, at: nat, v: real)
    requires Sorted(s) && at <= |s|
    requires (forall i :: 0 <= i < at ==> s[i] <= v) && (forall i :: at <= i < |s| ==> v < s[i])
    ensures var t := s[..at] + [v] + s[at..]; Sorted(t) && multiset(t) == multiset(s) + multiset{v}
  {
    var t := s[..at] + [v] + s[at..];
    assert multiset(t) == multiset(s) + multiset{v} by {
      assert s == s[..at] + s[at..];
    }
  }

  /** Inserts to the right of equal elements. */
  method Insort(s: seq<real>, v: real) returns (t: seq<real>)
    requires Sorted(s)
    ensures Sorted(t) && multiset(t) == multiset(s) + multiset{v}
  {
    var at, hi := 0, |s|;
    while at < hi
      invariant 0 <= at <= hi <= |s|
      invariant (forall i :: 0 <= i < at ==> s[i] <= v) && (forall i :: hi <= i < |s| ==> v < s[i])
    {
      var mid := (at + hi) / 2;
      if v < s[mid] { hi := mid; } else { at := mid + 1; }
    }
    t := s[..at] + [v] + s[at..];
    Inserted(s, at, v);
  }

  method SortedCopy(s: seq<real>) returns (t: seq<real>)
    ensures Sorted(t) && multiset(t) == multiset(s)
  {
    t := [];
    for i := 0 to |s|
      invariant Sorted(t) && multiset(t) == multiset(s[..i])
    {
      assert s[..i + 1] == s[..i] + [s[i]];
      t := Insort(t, s[i]);
    }
    assert s[..|s|] == s;
  }

  /** The sorted list of one window. */
  ghost predicate Represents(ordered: seq<real>, values: seq<real>, size: nat, start: nat)
    requires start + size <= |values|
  {
    Sorted(ordered) && |ordered| == size && multiset(ordered) == multiset(Window(values, size, start))
  }

  lemma WindowSlides(values: seq<real>, size: nat, start: nat)
    requires 0 < size && start + 1 + size <= |values|
    ensures multiset(Window(values, size, start)) + multiset{values[start + size]}
            == multiset(Window(values, size, start + 1)) + multiset{values[start]}
  {
    assert Window(values, size, start) == [values[start]] + values[start + 1..start + size];
    assert Window(values, size, start + 1) == values[start + 1..start + size] + [values[start + size]];
  }

  /** Drops the value that leaves the window: its leftmost copy in the sorted list. */
  method Drop(ordered: seq<real>, v: real) returns (t: seq<real>)
    requires Sorted(ordered) && v in ordered
    ensures Sorted(t) && multiset(t) + multiset{v} == multiset(ordered)
  {
    var at := BisectLeft(ordered, v);
    t := Remove(ordered, at);
    RemoveOne(ordered, at, v);
  }

  method Slide(values: seq<real>, size: nat, start: nat, ordered: seq<real>) returns (t: seq<real>)
    requires 0 < size && start + 1 + size <= |values| && Represents(ordered, values, size, start)
    ensures Represents(t, values, size, start + 1)
  {
    assert values[start] == Window(values, size, start)[0];
    assert values[start] in multiset(ordered);
    var rest := Drop(ordered, values[start]);
    t := Insort(rest, values[start + size]);
    WindowSlides(values, size, start);
    Cancel(multiset(t), multiset(Window(values, size, start + 1)), values[start]);
    assert |multiset(t)| == |multiset(Window(values, size, start + 1))|;
  }

  method FirstWindow(values: seq<real>, size: nat) returns (ordered: seq<real>)
    requires size <= |values|
    ensures Represents(ordered, values, size, 0)
  {
    ordered := SortedCopy(values[..size]);
    assert |multiset(ordered)| == |multiset(values[..size])|;
    assert Window(values, size, 0) == values[..size];
  }

  /** `rankOf` stands for the rounded percentile of the window size; it is always a valid
      index into a window. */
  method WorstWindowP5(values: seq<real>, window: int, rankOf: nat -> nat) returns (result: Result)
    requires forall n: nat :: n > 0 ==> rankOf(n) < n
    ensures result.ValueError? <==> values == [] || window < 1
    ensures result.Worst? ==>
              && result.frames == (if window < |values| then window else |values|)
              && Earliest(values, result.frames, rankOf(result.frames), |values| - result.frames,
                          result.startFrame, result.p5)
  {
    if values == [] || window < 1 {
      return ValueError;
    }
    var size: nat := if window < |values| then window else |values|;
    var ordered := FirstWindow(values, size);
    var rank := rankOf(size);
    result := Worst(0, size, ordered[rank]);
    FirstIsEarliest(values, size, rank, ordered);
    for index := size to |values|
      invariant Represents(ordered, values, size, index - size)
      invariant result.Worst? && result.frames == size
      invariant Earliest(values, size, rank, index - size, result.startFrame, result.p5)
    {
      ordered := Slide(values, size, index - size, ordered);
      NextIsEarliest(values, size, rank, index - size + 1, ordered, result.startFrame, result.p5);
      if ordered[rank] < result.p5 {
        result := Worst(index - size + 1, size, ordered[rank]);
      }
    }
  }

  lemma FirstIsEarliest(values: seq<real>, size: nat, rank: nat, ordered: seq<real>)
    requires size <= |values| && Represents(ordered, values, size, 0) && rank < size
    ensures Earliest(values, size, rank, 0, 0, ordered[rank])
  {
    SortedHasRank(ordered, Window(values, size, 0), rank);
    forall v | HasRank(Window(values, size, 0), rank, v) ensures v == ordered[rank] {
      RankIsUnique(Window(values, size, 0), rank, v, ordered[rank]);
    }
  }

  lemma NextIsEarliest(values: seq<real>, size: nat, rank: nat, last: nat, ordered: seq<real>, start: nat, p5: real)
    requires 0 < last && last + size <= |values| && Represents(ordered, values, size, last) && rank < size
    requires Earliest(values, size, rank, last - 1, start, p5)
    ensures if ordered[rank] < p5 then Earliest(values, size, rank, last, last, ordered[rank])
            else Earliest(values, size, rank, last, start, p5)
  {
    SortedHasRank(ordered, Window(values, size, last), rank);
    forall v | HasRank(Window(values, size, last), rank, v) ensures v == ordered[rank] {
      RankIsUnique(Window(values, size, last), rank, v, ordered[rank]);
    }
  }
}
