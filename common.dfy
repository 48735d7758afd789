/**
 * Small building blocks shared by the location-resolution model: an Option
 * type for JavaScript's `undefined`, the first-match search behind
 * `Array.prototype.find`, and the `a || b || c` chains over strings.
 */
module Common {

  datatype Option<+T> = None | Some(value: T)

  /** Index of the first element satisfying `p` (what `xs.find(p)` returns the element at). */
  function FirstIndex<T>(xs: seq<T>, p: T -> bool): (r: Option<nat>)
    ensures r.Some? ==> r.value < |xs| && p(xs[r.value])
    ensures r.Some? ==> forall j :: 0 <= j < r.value ==> !p(xs[j])
    ensures r.None? ==> forall j :: 0 <= j < |xs| ==> !p(xs[j])
  {
    if xs == [] then None
    else if p(xs[0]) then Some(0)
    else match FirstIndex(xs[1..], p)
      case None => None
      case Some(k) => Some(k + 1)
  }

  /**
   * The value of a JavaScript chain `xs[0] || xs[1] || ... || ""` over strings:
   * the first non-empty candidate, or "" when every candidate is empty.
   */
  function FirstNonEmpty(xs: seq<string>): (r: string)
    ensures r == "" <==> forall i :: 0 <= i < |xs| ==> xs[i] == ""
    ensures r != "" ==> exists i :: 0 <= i < |xs| && r == xs[i] && forall j :: 0 <= j < i ==> xs[j] == ""
  {
    if xs == [] then ""
    else if xs[0] != "" then xs[0]
    else FirstNonEmpty(xs[1..])
  }

  /** `parts.filter(Boolean).join(sep)`. */
  function JoinNonEmpty(parts: seq<string>, sep: string): (r: string)
    ensures r == "" <==> forall i :: 0 <= i < |parts| ==> parts[i] == ""
  {
    if parts == [] then ""
    else
      var rest := JoinNonEmpty(parts[1..], sep);
      if parts[0] == "" then rest
      else if rest == "" then parts[0]
      else parts[0] + sep + rest
  }

  /** `parts.join(sep)`: the parts with `sep` between each two neighbours. */
  function JoinWith(parts: seq<string>, sep: string): string
  {
    if parts == [] then ""
    else if |parts| == 1 then parts[0]
    else parts[0] + sep + JoinWith(parts[1..], sep)
  }

  predicate NonEmpty(s: string) {
    s != ""
  }

  /** `filter(Boolean).join(sep)` read literally: the non-empty parts, joined by `sep`. */
  lemma {:induction false} JoinNonEmptyIsJoin(parts: seq<string>, sep: string)
    ensures JoinNonEmpty(parts, sep) == JoinWith(Filter(parts, NonEmpty), sep)
  {
    if parts != [] {
      JoinNonEmptyIsJoin(parts[1..], sep);
      var kept := Filter(parts[1..], NonEmpty);
      if parts[0] != "" {
        assert Filter(parts, NonEmpty) == [parts[0]] + kept;
        if kept != [] {
          assert ([parts[0]] + kept)[1..] == kept;
        }
      }
    }
  }

  /** The string held by an optional value, "" when absent (`val || ""`). */
  function OrEmpty(val: Option<string>): (r: string)
    ensures val.Some? ==> r == val.value
    ensures val.None? ==> r == ""
  {
    if val.Some? then val.value else ""
  }

  /** `xs.filter(p)`: the elements satisfying `p`, in order. */
  function Filter<T>(xs: seq<T>, p: T -> bool): (r: seq<T>)
    ensures |r| <= |xs|
    ensures forall i :: 0 <= i < |r| ==> p(r[i])
    ensures (forall i :: 0 <= i < |xs| ==> p(xs[i])) ==> r == xs
    ensures r == [] <==> forall i :: 0 <= i < |xs| ==> !p(xs[i])
  {
    if xs == [] then []
    else if p(xs[0]) then [xs[0]] + Filter(xs[1..], p)
    else Filter(xs[1..], p)
  }

  /** Every index of `xs` moved up by one. */
  function Shifted(idx: seq<nat>): (r: seq<nat>)
    ensures |r| == |idx| && forall k :: 0 <= k < |idx| ==> r[k] == idx[k] + 1
  {
    seq(|idx|, k requires 0 <= k < |idx| => idx[k] + 1)
  }

  /** What `idx` records about a filter result: where each kept element came from, in order, and that none was missed. */
  ghost predicate SelectedBy<T>(xs: seq<T>, p: T -> bool, r: seq<T>, idx: seq<nat>) {
    && |idx| == |r|
    && (forall k :: 0 <= k < |idx| ==> idx[k] < |xs| && r[k] == xs[idx[k]])
    && (forall j, k :: 0 <= j < k < |idx| ==> idx[j] < idx[k])
    && (forall i :: 0 <= i < |xs| && p(xs[i]) ==> i in idx)
  }

  /**
   * The kept elements are exactly those satisfying `p`, in their order in `xs`:
   * element `k` of the result is `xs[idx[k]]`, those indices increase, and
   * every index whose element satisfies `p` is among them.
   */
  lemma {:induction false} FilterSelects<T>(xs: seq<T>, p: T -> bool) returns (idx: seq<nat>)
    ensures |idx| == |Filter(xs, p)|
    ensures forall k :: 0 <= k < |idx| ==> idx[k] < |xs| && Filter(xs, p)[k] == xs[idx[k]]
    ensures forall j, k :: 0 <= j < k < |idx| ==> idx[j] < idx[k]
    ensures forall i :: 0 <= i < |xs| && p(xs[i]) ==> i in idx
  {
    if xs == [] {
      idx := [];
    } else {
      var idx0 := FilterSelects(xs[1..], p);
      assert xs == [xs[0]] + xs[1..];
      idx := SelectsCons(xs[0], xs[1..], p, idx0);
    }
  }

  /** The indices for `[x] + t` from those for `t`. */
  lemma SelectsCons<T>(x: T, t: seq<T>, p: T -> bool, idx0: seq<nat>) returns (idx: seq<nat>)
    requires SelectedBy(t, p, Filter(t, p), idx0)
    ensures SelectedBy([x] + t, p, Filter([x] + t, p), idx)
  {
    var xs := [x] + t;
    assert xs[1..] == t;
    var moved := Shifted(idx0);
    var rest := Filter(t, p);
    if p(x) {
      idx := [0] + moved;
      assert Filter(xs, p) == [x] + rest;
      MovedSelectsKept(x, t, p, idx0);
    } else {
      idx := moved;
      assert Filter(xs, p) == rest;
      MovedSelects(x, t, p, idx0);
    }
  }

  lemma MovedSelects<T>(x: T, t: seq<T>, p: T -> bool, idx0: seq<nat>)
    requires SelectedBy(t, p, Filter(t, p), idx0)
    requires !p(x)
    ensures SelectedBy([x] + t, p, Filter(t, p), Shifted(idx0))
  {
    ShiftedIndices(x, t, p, Filter(t, p), idx0);
  }

  lemma MovedSelectsKept<T>(x: T, t: seq<T>, p: T -> bool, idx0: seq<nat>)
    requires SelectedBy(t, p, Filter(t, p), idx0)
    ensures SelectedBy([x] + t, p, [x] + Filter(t, p), [0] + Shifted(idx0))
  {
    ShiftedIndices(x, t, p, Filter(t, p), idx0);
    var moved := Shifted(idx0);
    ConsElements(x, [x] + t, Filter(t, p), moved);
    ConsIncreasing(moved);
    ConsComplete([x] + t, p, moved);
  }

  lemma ConsElements<T>(x: T, xs: seq<T>, rest: seq<T>, moved: seq<nat>)
    requires xs != [] && xs[0] == x && |moved| == |rest|
    requires forall k :: 0 <= k < |moved| ==> moved[k] < |xs| && rest[k] == xs[moved[k]]
    ensures forall k :: 0 <= k < |[0] + moved| ==> ([0] + moved)[k] < |xs| && ([x] + rest)[k] == xs[([0] + moved)[k]]
  {
    forall k | 0 <= k < |[0] + moved| ensures ([0] + moved)[k] < |xs| && ([x] + rest)[k] == xs[([0] + moved)[k]] {
      if k > 0 {
        assert ([0] + moved)[k] == moved[k - 1] && ([x] + rest)[k] == rest[k - 1];
      }
    }
  }

  lemma ConsIncreasing(moved: seq<nat>)
    requires forall k :: 0 <= k < |moved| ==> moved[k] >= 1
    requires forall j, k :: 0 <= j < k < |moved| ==> moved[j] < moved[k]
    ensures forall j, k :: 0 <= j < k < |[0] + moved| ==> ([0] + moved)[j] < ([0] + moved)[k]
  {
    var idx := [0] + moved;
    forall j, k | 0 <= j < k < |idx| ensures idx[j] < idx[k] {
      assert idx[k] == moved[k - 1];
      if j > 0 {
        assert idx[j] == moved[j - 1];
      }
    }
  }

  lemma ConsComplete<T>(xs: seq<T>, p: T -> bool, moved: seq<nat>)
    requires forall i :: 1 <= i < |xs| && p(xs[i]) ==> i in moved
    ensures forall i :: 0 <= i < |xs| && p(xs[i]) ==> i in [0] + moved
  {
    forall i | 0 <= i < |xs| && p(xs[i]) ensures i in [0] + moved {
      if i == 0 {
        assert ([0] + moved)[0] == 0;
      } else {
        assert i in moved;
      }
    }
  }

  /** Moving the indices for `t` up by one makes them indices into `[x] + t`. */
  lemma ShiftedIndices<T>(x: T, t: seq<T>, p: T -> bool, rest: seq<T>, idx0: seq<nat>)
    requires SelectedBy(t, p, rest, idx0)
    ensures forall k :: 0 <= k < |idx0| ==> Shifted(idx0)[k] < |[x] + t| && rest[k] == ([x] + t)[Shifted(idx0)[k]]
    ensures forall j, k :: 0 <= j < k < |idx0| ==> Shifted(idx0)[j] < Shifted(idx0)[k]
    ensures forall i :: 1 <= i < |[x] + t| && p(([x] + t)[i]) ==> i in Shifted(idx0)
  {
    var xs := [x] + t;
    var moved := Shifted(idx0);
    forall i | 1 <= i < |xs| && p(xs[i]) ensures i in moved {
      assert t[i - 1] == xs[i];
      var k :| 0 <= k < |idx0| && idx0[k] == i - 1;
      assert moved[k] == i;
    }
  }

  /** Filtering a concatenation filters each part. */
  lemma {:induction false} FilterConcat<T>(a: seq<T>, b: seq<T>, p: T -> bool)
    ensures Filter(a + b, p) == Filter(a, p) + Filter(b, p)
  {
    if a == [] {
      assert a + b == b;
    } else {
      assert (a + b)[0] == a[0] && (a + b)[1..] == a[1..] + b;
      FilterConcat(a[1..], b, p);
    }
  }

  /** Whatever holds of every element of `xs` holds of every element kept. */
  lemma {:induction false} FilterKeeps<T>(xs: seq<T>, p: T -> bool, q: T -> bool)
    requires forall i :: 0 <= i < |xs| ==> q(xs[i])
    ensures forall i :: 0 <= i < |Filter(xs, p)| ==> q(Filter(xs, p)[i])
  {
    if xs != [] {
      FilterKeeps(xs[1..], p, q);
    }
  }
}
