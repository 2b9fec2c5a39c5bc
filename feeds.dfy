/** The item-mapping loop that the RSS and Atom parsers share. Each decoded element either
    has a parseable date or is skipped; a dated element is turned into a `NewsItem`, and the
    field read that dereferences a missing sub-element is a `Fault`, which ends the whole
    parse (in the Go program, a panic). */
module Feeds {
  import opened Wrappers
  import opened Models

  /** The test the mapping loop's `continue` implements: the element's date parses. */
  function DatedTest<A>(dated: A -> Option<int>): A -> bool {
    (x: A) => dated(x).Some?
  }

  /** The element is dated, and building its item hits a nil dereference. */
  predicate Faults<A>(x: A, dated: A -> Option<int>, build: (A, int) -> Result<NewsItem, Fault>) {
    dated(x).Some? && build(x, dated(x).value).Err?
  }

  /** The items of the dated elements of `s`, in document order, or the first fault. */
  function Collect<A>(s: seq<A>, dated: A -> Option<int>, build: (A, int) -> Result<NewsItem, Fault>)
    : (r: Result<seq<NewsItem>, Fault>)
    ensures r.Ok? ==> |r.value| <= |s|
  {
    if s == [] then Ok([])
    else
      var rest := Collect(s[1..], dated, build);
      match dated(s[0])
      case None => rest
      case Some(t) =>
        match build(s[0], t)
        case Err(e) => Err(e)
        case Ok(item) => if rest.Err? then rest else Ok([item] + rest.value)
  }

  /** What a loop that has already appended `acc` ends with, when the rest of the elements
      collect to `r`. */
  function Resume(acc: seq<NewsItem>, r: Result<seq<NewsItem>, Fault>): Result<seq<NewsItem>, Fault> {
    if r.Err? then r else Ok(acc + r.value)
  }

  lemma ResumeEmpty(r: Result<seq<NewsItem>, Fault>)
    ensures Resume([], r) == r
  {
    if r.Ok? {
      assert [] + r.value == r.value;
    }
  }

  /** One iteration of the mapping loop, as an equation on suffixes. */
  lemma CollectStep<A>(s: seq<A>, i: nat, dated: A -> Option<int>, build: (A, int) -> Result<NewsItem, Fault>)
    requires i < |s|
    ensures dated(s[i]).None? ==> Collect(s[i..], dated, build) == Collect(s[i + 1..], dated, build)
    ensures Faults(s[i], dated, build) ==> Collect(s[i..], dated, build) == Err(build(s[i], dated(s[i]).value).error)
    ensures dated(s[i]).Some? && build(s[i], dated(s[i]).value).Ok? ==>
      forall acc :: Resume(acc, Collect(s[i..], dated, build))
        == Resume(acc + [build(s[i], dated(s[i]).value).value], Collect(s[i + 1..], dated, build))
  {
    assert s[i..][1..] == s[i + 1..];
    var rest := Collect(s[i + 1..], dated, build);
    if dated(s[i]).Some? && build(s[i], dated(s[i]).value).Ok? && rest.Ok? {
      var item := build(s[i], dated(s[i]).value).value;
      forall acc ensures acc + ([item] + rest.value) == acc + [item] + rest.value {
      }
    }
  }

  /** The parse fails exactly when some dated element faults. */
  lemma {:induction false} CollectFaults<A>(s: seq<A>, dated: A -> Option<int>, build: (A, int) -> Result<NewsItem, Fault>)
    ensures Collect(s, dated, build).Err? <==> exists k :: 0 <= k < |s| && Faults(s[k], dated, build)
  {
    if s != [] {
      CollectFaults(s[1..], dated, build);
      if exists k :: 1 <= k < |s| && Faults(s[k], dated, build) {
        var k :| 1 <= k < |s| && Faults(s[k], dated, build);
        assert s[1..][k - 1] == s[k];
      }
      if exists k :: 0 <= k < |s[1..]| && Faults(s[1..][k], dated, build) {
        var k :| 0 <= k < |s[1..]| && Faults(s[1..][k], dated, build);
        assert s[k + 1] == s[1..][k];
      }
    }
  }

  /** Every produced item is the item of some dated element of the input. */
  lemma {:induction false} CollectItemsFromInput<A>(s: seq<A>, dated: A -> Option<int>, build: (A, int) -> Result<NewsItem, Fault>)
    ensures Collect(s, dated, build).Ok? ==> forall j :: 0 <= j < |Collect(s, dated, build).value| ==>
      exists k :: 0 <= k < |s| && dated(s[k]).Some? && build(s[k], dated(s[k]).value) == Ok(Collect(s, dated, build).value[j])
  {
    if s != [] && Collect(s, dated, build).Ok? {
      CollectItemsFromInput(s[1..], dated, build);
      var r := Collect(s, dated, build).value;
      var rest := Collect(s[1..], dated, build);
      forall j | 0 <= j < |r|
        ensures exists k :: 0 <= k < |s| && dated(s[k]).Some? && build(s[k], dated(s[k]).value) == Ok(r[j])
      {
        if dated(s[0]).Some? && j == 0 {
          assert dated(s[0]).Some? && build(s[0], dated(s[0]).value) == Ok(r[0]);
        } else {
          var j' := if dated(s[0]).Some? then j - 1 else j;
          assert r[j] == rest.value[j'];
          var k :| 0 <= k < |s[1..]| && dated(s[1..][k]).Some? && build(s[1..][k], dated(s[1..][k]).value) == Ok(rest.value[j']);
          assert s[1..][k] == s[k + 1];
        }
      }
    }
  }

  /** Undated elements play no part: collecting the dated elements alone gives the same result. */
  lemma {:induction false} CollectSkipsUndated<A>(s: seq<A>, dated: A -> Option<int>, build: (A, int) -> Result<NewsItem, Fault>)
    ensures Collect(s, dated, build) == Collect(Filter(s, DatedTest(dated)), dated, build)
  {
    if s != [] {
      CollectSkipsUndated(s[1..], dated, build);
      var kept := Filter(s[1..], DatedTest(dated));
      if dated(s[0]).Some? {
        assert Filter(s, DatedTest(dated)) == [s[0]] + kept;
        assert ([s[0]] + kept)[1..] == kept;
      } else {
        assert Filter(s, DatedTest(dated)) == kept;
      }
    }
  }

  /** Over dated elements only, a successful parse yields one item per element, in order. */
  lemma {:induction false} CollectAllDated<A>(s: seq<A>, dated: A -> Option<int>, build: (A, int) -> Result<NewsItem, Fault>)
    requires forall k :: 0 <= k < |s| ==> dated(s[k]).Some?
    ensures Collect(s, dated, build).Ok? ==> |Collect(s, dated, build).value| == |s|
    ensures Collect(s, dated, build).Ok? ==> forall k :: 0 <= k < |s| ==>
      build(s[k], dated(s[k]).value) == Ok(Collect(s, dated, build).value[k])
  {
    if s != [] {
      assert forall k :: 0 <= k < |s[1..]| ==> s[1..][k] == s[k + 1];
      CollectAllDated(s[1..], dated, build);
    }
  }

  /** Two documents whose elements agree on their dates and their items parse alike. */
  lemma {:induction false} CollectCongruent<A>(s: seq<A>, s': seq<A>, dated: A -> Option<int>, build: (A, int) -> Result<NewsItem, Fault>)
    requires |s| == |s'|
    requires forall k :: 0 <= k < |s| ==> dated(s[k]) == dated(s'[k])
    requires forall k :: 0 <= k < |s| && dated(s[k]).Some? ==>
      build(s[k], dated(s[k]).value) == build(s'[k], dated(s[k]).value)
    ensures Collect(s, dated, build) == Collect(s', dated, build)
  {
    if s != [] {
      assert forall k :: 0 <= k < |s[1..]| ==> s[1..][k] == s[k + 1] && s'[1..][k] == s'[k + 1];
      CollectCongruent(s[1..], s'[1..], dated, build);
    }
  }
}
