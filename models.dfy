/** The canonical news item, the time arithmetic of Go's `time` package that the aggregator
    uses, and the order-preserving filter shared by every "keep the items that ..." loop. */
module Models {
  import opened Text

  /** One normalised feed entry. `pubDate` is an instant in nanoseconds; `category` and
      `favicon` are the fields the mappers and the de-duplication read and write. */
  datatype NewsItem = NewsItem(
    title: string,
    description: string,
    link: string,
    pubDate: int,
    content: string,
    mediaURL: string,
    creator: string,
    comments: string,
    guid: string,
    channelLink: string,
    channelTitle: string,
    category: string,
    favicon: string)

  /** `time.Hour`, in nanoseconds. */
  const Hour: int := 3_600_000_000_000

  /** The default recency window, `24 * time.Hour`. */
  const DefaultWindow: int := 24 * Hour

  /** Clamps to the range of `int64`, as `time.Time.Sub` does on overflow. */
  function Saturate64(x: int): (r: int)
    ensures MinInt64 <= r <= MaxInt64
    ensures MinInt64 <= x <= MaxInt64 ==> r == x
    ensures x > MaxInt64 ==> r == MaxInt64
    ensures x < MinInt64 ==> r == MinInt64
  {
    if x < MinInt64 then MinInt64 else if x > MaxInt64 then MaxInt64 else x
  }

  /** Two's-complement wrap-around of `int64` multiplication. */
  function Wrap64(x: int): (r: int)
    ensures MinInt64 <= r <= MaxInt64
    ensures (r - x) % 0x1_0000_0000_0000_0000 == 0
  {
    var m := x % 0x1_0000_0000_0000_0000;
    if m > MaxInt64 then m - 0x1_0000_0000_0000_0000 else m
  }

  /** `now.Sub(t)`: the elapsed duration, saturated to `int64`. */
  function Elapsed(now: int, t: int): int {
    Saturate64(now - t)
  }

  /** Integer division truncating toward zero, as Go's `/` does: the remainder `a - q * b`
      takes the sign of `a` and is smaller than `b` in magnitude. */
  function TruncDiv(a: int, b: int): (q: int)
    requires b > 0
    ensures a >= 0 ==> 0 <= a - q * b < b
    ensures a < 0 ==> -b < a - q * b <= 0
  {
    if a >= 0 then a / b else -((-a) / b)
  }

  /** `int(d.Hours())`: the whole hours of a duration, truncated toward zero. */
  function WholeHours(d: int): int {
    TruncDiv(d, Hour)
  }

  /** The elements of `s` that `p` accepts, in their original order. */
  function Filter<T>(s: seq<T>, p: T -> bool): (r: seq<T>)
    ensures |r| <= |s|
  {
    if s == [] then []
    else (if p(s[0]) then [s[0]] else []) + Filter(s[1..], p)
  }

  /** Every element that `Filter` keeps is accepted by `p`. */
  lemma {:induction false} FilterAccepts<T>(s: seq<T>, p: T -> bool)
    ensures forall k :: 0 <= k < |Filter(s, p)| ==> p(Filter(s, p)[k])
  {
    if s != [] {
      FilterAccepts(s[1..], p);
    }
  }

  /** `a` is obtained from `b` by deleting elements. */
  predicate IsSubseq<T(==)>(a: seq<T>, b: seq<T>) {
    a == [] || (b != [] && ((a[0] == b[0] && IsSubseq(a[1..], b[1..])) || IsSubseq(a, b[1..])))
  }

  lemma {:induction false} SubseqRefl<T>(a: seq<T>)
    ensures IsSubseq(a, a)
  {
    if a != [] {
      SubseqRefl(a[1..]);
    }
  }

  /** Everything `Filter` keeps comes from the input, in the input's order. */
  lemma {:induction false} FilterIsSubseq<T>(s: seq<T>, p: T -> bool)
    ensures IsSubseq(Filter(s, p), s)
  {
    if s != [] {
      FilterIsSubseq(s[1..], p);
      if p(s[0]) {
        assert Filter(s, p) == [s[0]] + Filter(s[1..], p);
        assert Filter(s, p)[1..] == Filter(s[1..], p);
      } else {
        assert Filter(s, p) == Filter(s[1..], p);
        SubseqSkip(Filter(s[1..], p), s[1..], s[0]);
        assert [s[0]] + s[1..] == s;
      }
    }
  }

  /** An element is kept exactly when it occurs in the input and `p` accepts it. */
  lemma {:induction false} FilterMember<T>(s: seq<T>, p: T -> bool, x: T)
    ensures x in Filter(s, p) <==> x in s && p(x)
  {
    if s != [] {
      FilterMember(s[1..], p, x);
      assert s == [s[0]] + s[1..];
    }
  }

  /** A weaker test keeps a super-sequence: `Filter(s, p)` is a subsequence of `Filter(s, q)`
      whenever `q` accepts every element of `s` that `p` accepts. */
  lemma {:induction false} FilterMonotone<T>(s: seq<T>, p: T -> bool, q: T -> bool)
    requires forall k :: 0 <= k < |s| && p(s[k]) ==> q(s[k])
    ensures IsSubseq(Filter(s, p), Filter(s, q))
  {
    if s != [] {
      FilterMonotone(s[1..], p, q);
      var fp, fq := Filter(s[1..], p), Filter(s[1..], q);
      if p(s[0]) {
        assert Filter(s, p) == [s[0]] + fp && Filter(s, q) == [s[0]] + fq;
        assert Filter(s, p)[1..] == fp && Filter(s, q)[1..] == fq;
      } else if q(s[0]) {
        assert Filter(s, q) == [s[0]] + fq;
        assert Filter(s, q)[1..] == fq;
        assert Filter(s, p) == fp;
        SubseqSkip(fp, fq, s[0]);
      } else {
        assert Filter(s, p) == fp && Filter(s, q) == fq;
      }
    }
  }

  lemma {:induction false} SubseqSkip<T>(a: seq<T>, b: seq<T>, x: T)
    requires IsSubseq(a, b)
    ensures IsSubseq(a, [x] + b)
  {
    assert ([x] + b)[1..] == b;
  }

  /** Filtering the front of a sequence and then the rest gives the filter of the whole. */
  lemma {:induction false} FilterStep<T>(s: seq<T>, i: nat, p: T -> bool)
    requires i < |s|
    ensures Filter(s[i..], p) == (if p(s[i]) then [s[i]] else []) + Filter(s[i + 1..], p)
  {
    assert s[i..][1..] == s[i + 1..];
  }
}
