/** `web/templates/static/main.js`: the browser side's reconnection back-off for the
    server-sent event stream, the ascending/descending toggle, and the search box. */
module Client {
  import opened Wrappers
  import opened Text
  import Handlers

  const MaxReconnectAttempts: nat := 5
  const InitialBackoff: nat := 1000
  const MaxBackoff: nat := 30000

  function Pow2(k: nat): (r: nat)
    ensures r >= 1
  {
    if k == 0 then 1 else 2 * Pow2(k - 1)
  }

  /** `Math.min(initialBackoff * Math.pow(2, attempts), maxBackoff)`, in milliseconds. */
  function Backoff(attempts: nat): (ms: nat)
    ensures InitialBackoff <= ms <= MaxBackoff
  {
    if InitialBackoff * Pow2(attempts) <= MaxBackoff then InitialBackoff * Pow2(attempts) else MaxBackoff
  }

  /** What an error does to a counter of `attempts`: below the maximum it schedules a
      reconnect after the back-off and counts it; at the maximum it gives up and schedules
      nothing. */
  function ErrorStep(attempts: nat): (nat, Option<nat>) {
    if attempts < MaxReconnectAttempts then (attempts + 1, Some(Backoff(attempts)))
    else (attempts, None)
  }

  /** The delays scheduled by `errors` errors in a row, with no `init` event between them,
      starting from a counter of `attempts`. */
  function Delays(attempts: nat, errors: nat): (delays: seq<Option<nat>>)
    ensures |delays| == errors
    decreases errors
  {
    if errors == 0 then []
    else [ErrorStep(attempts).1] + Delays(ErrorStep(attempts).0, errors - 1)
  }

  /** How many of `delays` schedule a reconnect. */
  function Scheduled(delays: seq<Option<nat>>): nat {
    if delays == [] then 0 else (if delays[0].Some? then 1 else 0) + Scheduled(delays[1..])
  }

  /** The `reconnectAttempts` counter of `setupSSE`, shared by every connection it opens. */
  class Reconnector {
    var reconnectAttempts: nat

    predicate Valid()
      reads this
    {
      reconnectAttempts <= MaxReconnectAttempts
    }

    constructor()
      ensures Valid() && reconnectAttempts == 0
    {
      reconnectAttempts := 0;
    }

    /** The `init` event: the news is reloaded and the counter starts again. */
    method OnInit()
      modifies this
      ensures Valid() && reconnectAttempts == 0
    {
      reconnectAttempts := 0;
    }

    /** The `onerror` handler: the delay before `connect` runs again, or `None` once the
        attempts are used up and a manual refresh is needed. */
    method OnError() returns (delay: Option<nat>)
      requires Valid()
      modifies this
      ensures Valid()
      ensures (reconnectAttempts, delay) == ErrorStep(old(reconnectAttempts))
    {
      if reconnectAttempts < MaxReconnectAttempts {
        var backoffTime := InitialBackoff * Pow2(reconnectAttempts);
        if MaxBackoff < backoffTime {
          backoffTime := MaxBackoff;
        }
        reconnectAttempts := reconnectAttempts + 1;
        delay := Some(backoffTime);
      } else {
        delay := None;
      }
    }
  }

  /** Below the maximum the cap of 30 seconds never applies: the `k`-th reconnect waits
      exactly one second times `2^k`, so the waits are 1, 2, 4, 8 and 16 seconds. */
  lemma {:induction false} CapNeverBinds(k: nat)
    requires k < MaxReconnectAttempts
    ensures Backoff(k) == InitialBackoff * Pow2(k) <= 16000
  {
    PowMonotone(k, 4);
    assert Pow2(4) == 16 by {
      assert Pow2(1) == 2 && Pow2(2) == 4 && Pow2(3) == 8;
    }
  }

  lemma {:induction false} PowMonotone(j: nat, k: nat)
    requires j <= k
    ensures Pow2(j) <= Pow2(k)
  {
    if j < k {
      PowMonotone(j, k - 1);
    }
  }

  /** Each wait is twice the one before it, up to the maximum number of attempts. */
  lemma BackoffDoubles(k: nat)
    requires k + 1 < MaxReconnectAttempts
    ensures Backoff(k + 1) == 2 * Backoff(k)
  {
    CapNeverBinds(k);
    CapNeverBinds(k + 1);
  }

  /** A run of errors from a counter of `attempts`: the `i`-th error schedules the back-off
      of attempt `attempts + i` while attempts remain, and nothing afterwards. */
  lemma {:induction false} DelaysAre(attempts: nat, errors: nat)
    ensures forall i :: 0 <= i < errors ==>
      Delays(attempts, errors)[i] == (if attempts + i < MaxReconnectAttempts then Some(Backoff(attempts + i)) else None)
    decreases errors
  {
    if errors > 0 {
      DelaysAre(ErrorStep(attempts).0, errors - 1);
      if attempts >= MaxReconnectAttempts {
        assert ErrorStep(attempts).0 == attempts;
      }
    }
  }

  /** From a fresh counter, seven errors in a row schedule reconnects after 1, 2, 4, 8 and 16
      seconds and then give up. */
  lemma FreshSchedule()
    ensures Delays(0, 7) == [Some(1000), Some(2000), Some(4000), Some(8000), Some(16000), None, None]
  {
    DelaysAre(0, 7);
    CapNeverBinds(0);
    CapNeverBinds(1);
    CapNeverBinds(2);
    CapNeverBinds(3);
    CapNeverBinds(4);
  }

  /** Between two `init` events at most five reconnects are scheduled: a run of errors from
      a valid counter schedules one per remaining attempt, and no more. */
  lemma {:induction false} ReconnectsBounded(attempts: nat, errors: nat)
    requires attempts <= MaxReconnectAttempts
    ensures Scheduled(Delays(attempts, errors)) ==
      if errors <= MaxReconnectAttempts - attempts then errors else MaxReconnectAttempts - attempts
    decreases errors
  {
    if errors > 0 {
      ReconnectsBounded(ErrorStep(attempts).0, errors - 1);
      assert Delays(attempts, errors)[1..] == Delays(ErrorStep(attempts).0, errors - 1);
    }
  }

  /** The sort a click asks for: `asc` when the button shows `desc`, `desc` otherwise
      (including the first click, before any sort is recorded). */
  function NextSort(currentSort: string): string {
    if currentSort == "desc" then "asc" else "desc"
  }

  /** The request is always one the server accepts, and two clicks come back to a recorded
      sort. */
  lemma NextSortToggles(currentSort: string, sortFilter: string)
    ensures Handlers.SortAfter(sortFilter, NextSort(currentSort)) == NextSort(currentSort)
    ensures NextSort(currentSort) != currentSort
    ensures currentSort == "asc" || currentSort == "desc" ==> NextSort(NextSort(currentSort)) == currentSort
  {
  }

  datatype Arrow = ArrowDown | ArrowUp

  /** The arrow that shows `sort`. */
  function ArrowFor(sort: string): Arrow {
    if sort == "desc" then ArrowDown else ArrowUp
  }

  /** The sort button: its `data-sort` attribute and the arrow of its icon. */
  class SortButton {
    var sort: string
    var icon: Arrow

    /** The button agrees with its icon. */
    predicate Shows()
      reads this
    {
      icon == ArrowFor(sort)
    }

    constructor(sort: string, icon: Arrow)
      ensures this.sort == sort && this.icon == icon
    {
      this.sort := sort;
      this.icon := icon;
    }

    /** A click: `requested` is the `sortFilter` header sent; `ok` says whether the response
        came back with a success status and a readable body. Only then do the icon and the
        recorded sort change. */
    method Toggle(ok: bool) returns (requested: string)
      modifies this
      ensures requested == NextSort(old(sort))
      ensures ok ==> sort == requested && icon == ArrowFor(requested) && Shows()
      ensures !ok ==> sort == old(sort) && icon == old(icon)
    {
      var currentSort := sort;
      var newSort := if currentSort == "desc" then "asc" else "desc";
      requested := newSort;
      if ok {
        if newSort == "desc" {
          icon := ArrowDown;
        } else {
          icon := ArrowUp;
        }
        sort := newSort;
      }
    }
  }

  /** What typing in the search box does. */
  datatype SearchAction = ReloadAll | Search(query: string)

  function OnSearchInput(value: string): SearchAction {
    var searchValue := JsTrim(value);
    if searchValue == "" then ReloadAll else Search(searchValue)
  }

  /** A box holding only white space reloads all news; otherwise the query sent is the
      trimmed value, which is never empty and starts and ends with a non-space, so the
      server's empty-query refusal is never reached from the box. */
  lemma SearchInputTrims(value: string)
    ensures OnSearchInput(value) == ReloadAll <==> forall k :: 0 <= k < |value| ==> IsJsSpace(value[k])
    ensures OnSearchInput(value).Search? ==>
      var q := OnSearchInput(value).query;
      q != "" && !IsJsSpace(q[0]) && !IsJsSpace(q[|q| - 1]) && |q| <= |value|
  {
    TrimEmpty(value, IsJsSpace);
  }

  /** Trimming twice is trimming once, so typing the query that was sent gives the same
      action. */
  lemma {:induction false} SearchInputIdempotent(value: string)
    ensures OnSearchInput(JsTrim(value)) == OnSearchInput(value)
  {
    TrimKeeps(JsTrim(value), IsJsSpace);
  }
}
