/** Sliding-window rate limits: one request as a step on the stored time stamps, and whole runs of requests. */
module SlidingWindow {
  import opened Wrappers

  datatype Reply = Reply(allowed: bool, remaining: int, resetTime: Option<int>)

  /** The time stamps inside the window that ends now. */
  function Recent(stamps: seq<int>, now: int, window: int): (r: seq<int>)
    ensures |r| <= |stamps|
  {
    if stamps == [] then [] else
      var last := stamps[|stamps| - 1];
      Recent(stamps[..|stamps| - 1], now, window) + if last > now - window then [last] else []
  }

  function Allowed(stamps: seq<int>, now: int, window: int, limit: int): bool {
    |Recent(stamps, now, window)| < limit
  }

  /** When a denied request may be repeated: undefined if there is no time stamp to wait for. */
  function ResetTime(recent: seq<int>, window: int): Option<int> {
    if recent == [] then None else Some(recent[0] + window)
  }

  /** What is stored after a request; the view-change limiter also prunes when it denies. */
  function Stored(stamps: seq<int>, now: int, window: int, limit: int, prunes: bool): seq<int> {
    var recent := Recent(stamps, now, window);
    if |recent| < limit then recent + [now] else if prunes then recent else stamps
  }

  /** The stored time stamps after a run of requests of one client. */
  function StoredAfter(requests: seq<int>, window: int, limit: int, prunes: bool): seq<int> {
    if requests == [] then [] else
      Stored(StoredAfter(requests[..|requests| - 1], window, limit, prunes), requests[|requests| - 1], window, limit, prunes)
  }

  /** The times at which requests of a run were granted; nothing is ever dropped from this list. */
  function Grants(requests: seq<int>, window: int, limit: int, prunes: bool): seq<int> {
    if requests == [] then [] else
      var init, now := requests[..|requests| - 1], requests[|requests| - 1];
      Grants(init, window, limit, prunes)
        + if Allowed(StoredAfter(init, window, limit, prunes), now, window, limit) then [now] else []
  }

  ghost predicate Sorted(s: seq<int>) {
    forall i, j :: 0 <= i < j < |s| ==> s[i] <= s[j]
  }

  /** How many stamps lie in the half-open interval (t - window, t]. */
  function CountWithin(stamps: seq<int>, t: int, window: int): nat {
    if stamps == [] then 0 else
      var last := stamps[|stamps| - 1];
      CountWithin(stamps[..|stamps| - 1], t, window) + if t - window < last <= t then 1 else 0
  }

  lemma {:induction false} RecentAppend(s: seq<int>, x: int, now: int, window: int)
    ensures Recent(s + [x], now, window) == Recent(s, now, window) + if x > now - window then [x] else []
  {
    assert (s + [x])[..|s|] == s;
  }

  /** Pruning early does not change what a later window sees. */
  lemma {:induction false} RecentOfRecent(s: seq<int>, now: int, later: int, window: int)
    requires now <= later
    ensures Recent(Recent(s, now, window), later, window) == Recent(s, later, window)
  {
    if s != [] {
      var init, last := s[..|s| - 1], s[|s| - 1];
      RecentOfRecent(init, now, later, window);
      RecentAppend(Recent(init, now, window), last, later, window);
      if last <= now - window {
        assert Recent(s, now, window) == Recent(init, now, window);
        assert Recent(s, later, window) == Recent(init, later, window);
      }
    }
  }

  /** The pruned list and the full history of grants look the same through every window that ends now or later. */
  lemma {:induction false} StoredShowsGrants(requests: seq<int>, window: int, limit: int, prunes: bool, later: int)
    requires Sorted(requests) && (requests == [] || requests[|requests| - 1] <= later)
    ensures Recent(StoredAfter(requests, window, limit, prunes), later, window)
      == Recent(Grants(requests, window, limit, prunes), later, window)
  {
    if requests != [] {
      var init, now := requests[..|requests| - 1], requests[|requests| - 1];
      var stamps := StoredAfter(init, window, limit, prunes);
      StoredShowsGrants(init, window, limit, prunes, later);
      RecentOfRecent(stamps, now, later, window);
      RecentAppend(Recent(stamps, now, window), now, later, window);
      RecentAppend(Grants(init, window, limit, prunes), now, later, window);
      if !Allowed(stamps, now, window, limit) {
        assert Grants(requests, window, limit, prunes) == Grants(init, window, limit, prunes);
      }
    }
  }

  lemma {:induction false} GrantsAreRequests(requests: seq<int>, window: int, limit: int, prunes: bool)
    requires Sorted(requests)
    ensures Sorted(Grants(requests, window, limit, prunes))
    ensures requests == [] ==> Grants(requests, window, limit, prunes) == []
    ensures requests != [] ==> AllBy(Grants(requests, window, limit, prunes), requests[|requests| - 1])
  {
    if requests != [] {
      var init, now := requests[..|requests| - 1], requests[|requests| - 1];
      GrantsAreRequests(init, window, limit, prunes);
      if init != [] {
        assert init[|init| - 1] <= now;
      }
      assert AllBy(Grants(init, window, limit, prunes), now);
    }
  }

  ghost predicate AllBy(s: seq<int>, t: int) {
    forall i :: 0 <= i < |s| ==> s[i] <= t
  }

  ghost predicate AllAfter(s: seq<int>, t: int) {
    forall i :: 0 <= i < |s| ==> t < s[i]
  }

  lemma {:induction false} CountIsBelowRecent(s: seq<int>, t: int, now: int, window: int)
    requires now <= t
    ensures CountWithin(s, t, window) <= |Recent(s, now, window)|
  {
    if s != [] {
      CountIsBelowRecent(s[..|s| - 1], t, now, window);
    }
  }

  lemma {:induction false} CountAppend(s: seq<int>, x: int, t: int, window: int)
    ensures CountWithin(s + [x], t, window) == CountWithin(s, t, window) + if t - window < x <= t then 1 else 0
  {
    assert (s + [x])[..|s|] == s;
  }

  lemma {:induction false} NoneWithin(s: seq<int>, t: int, window: int)
    requires AllBy(s, t - window)
    ensures CountWithin(s, t, window) == 0
  {
    if s != [] {
      NoneWithin(s[..|s| - 1], t, window);
    }
  }

  /** Over any run with a fixed window and limit, no interval of the window's length holds more grants than the limit. */
  lemma {:induction false} WindowNeverOverfull(requests: seq<int>, window: int, limit: nat, prunes: bool, t: int)
    requires Sorted(requests)
    ensures CountWithin(Grants(requests, window, limit, prunes), t, window) <= limit
  {
    if requests != [] {
      var init, now := requests[..|requests| - 1], requests[|requests| - 1];
      var before := Grants(init, window, limit, prunes);
      WindowNeverOverfull(init, window, limit, prunes, t);
      if Allowed(StoredAfter(init, window, limit, prunes), now, window, limit) {
        CountAppend(before, now, t, window);
        StoredShowsGrants(init, window, limit, prunes, now);
        GrantsAreRequests(init, window, limit, prunes);
        if now <= t {
          CountIsBelowRecent(before, t, now, window);
        }
      } else {
        assert Grants(requests, window, limit, prunes) == before;
      }
    }
  }

  lemma {:induction false} AllRecent(s: seq<int>, now: int, window: int)
    requires AllAfter(s, now - window)
    ensures Recent(s, now, window) == s
  {
    if s != [] {
      AllRecent(s[..|s| - 1], now, window);
      assert s == s[..|s| - 1] + [s[|s| - 1]];
    }
  }

  lemma {:induction false} FirstDropsOut(s: seq<int>, now: int, window: int)
    requires s != [] && s[0] <= now - window
    ensures |Recent(s, now, window)| < |s|
  {
    if |s| > 1 {
      FirstDropsOut(s[..|s| - 1], now, window);
    }
  }

  lemma {:induction false} RecentSorted(s: seq<int>, now: int, window: int)
    requires Sorted(s)
    ensures Sorted(Recent(s, now, window))
    ensures AllAfter(Recent(s, now, window), now - window)
    ensures forall t :: AllBy(s, t) ==> AllBy(Recent(s, now, window), t)
  {
    if s != [] {
      var init, last := s[..|s| - 1], s[|s| - 1];
      RecentSorted(init, now, window);
      assert AllBy(init, last);
      assert forall t :: AllBy(s, t) ==> AllBy(init, t);
    }
  }

  lemma {:induction false} RecentIsCounted(s: seq<int>, now: int, window: int)
    requires AllBy(s, now)
    ensures |Recent(s, now, window)| == CountWithin(s, now, window)
  {
    if s != [] {
      RecentIsCounted(s[..|s| - 1], now, window);
    }
  }

  /** A list of at most `limit` recent stamps lets the next request in exactly when its first one drops out of the window. */
  lemma {:induction false} FirstStampDecides(recent: seq<int>, now: int, t: int, window: int, limit: nat)
    requires Sorted(recent) && recent != [] && |recent| == limit && now <= t
    ensures Allowed(recent, t, window, limit) <==> recent[0] + window <= t
  {
    if recent[0] + window <= t {
      FirstDropsOut(recent, t, window);
    } else {
      forall i | 0 <= i < |recent| ensures t - window < recent[i] {
        assert i > 0 ==> recent[0] <= recent[i];
      }
      AllRecent(recent, t, window);
    }
  }

  /**
    The reset time of a denial is exact: a later request is granted if and only if it does not come before it,
    as long as nothing was granted in between.
  */
  lemma {:induction false} ResetTimeIsExact(requests: seq<int>, now: int, t: int, window: int, limit: nat, prunes: bool)
    requires Sorted(requests + [now]) && now <= t && 0 < limit
    requires !Allowed(StoredAfter(requests, window, limit, prunes), now, window, limit)
    ensures var reset := ResetTime(Recent(StoredAfter(requests, window, limit, prunes), now, window), window);
      reset.Some? &&
      (Allowed(StoredAfter(requests + [now], window, limit, prunes), t, window, limit) <==> reset.value <= t)
  {
    var stamps, grants := StoredAfter(requests, window, limit, prunes), Grants(requests, window, limit, prunes);
    assert (requests + [now])[..|requests|] == requests;
    assert Sorted(requests) by {
      assert forall i :: 0 <= i < |requests| ==> (requests + [now])[i] == requests[i];
    }
    LastRequestBy(requests, now);
    if requests != [] {
      assert requests[|requests| - 1] <= now;
    }
    var recent := Recent(stamps, now, window);
    StoredShowsGrants(requests, window, limit, prunes, now);
    GrantsAreRequests(requests, window, limit, prunes);
    RecentSorted(grants, now, window);
    RecentIsCounted(grants, now, window);
    WindowNeverOverfull(requests, window, limit, prunes, now);
    RecentOfRecent(stamps, now, t, window);
    FirstStampDecides(recent, now, t, window, limit);
  }

  lemma LastRequestBy(requests: seq<int>, now: int)
    requires Sorted(requests + [now])
    ensures requests == [] || requests[|requests| - 1] <= now
  {
    if requests != [] {
      var s := requests + [now];
      assert s[|requests| - 1] <= s[|requests|];
    }
  }

  /** Asking again before the reset time, however often, is in vain and changes nothing about the grants. */
  lemma {:induction false} RetriesAreInVain(requests: seq<int>, now: int, more: seq<int>, window: int, limit: nat, prunes: bool)
    requires Sorted(requests + [now] + more) && 0 < limit
    requires !Allowed(StoredAfter(requests, window, limit, prunes), now, window, limit)
    requires var reset := ResetTime(Recent(StoredAfter(requests, window, limit, prunes), now, window), window);
      reset.Some? ==> forall i :: 0 <= i < |more| ==> more[i] < reset.value
    ensures Grants(requests + [now] + more, window, limit, prunes) == Grants(requests, window, limit, prunes)
  {
    hide Recent, Stored, Grants, StoredAfter;
    DenialAddsNoGrant(requests, now, window, limit, prunes);
    if more == [] {
      assert requests + [now] + more == requests + [now];
    } else {
      var init, t := more[..|more| - 1], more[|more| - 1];
      var all, before := requests + [now] + more, requests + [now] + init;
      assert all == before + [t];
      SortedPrefix(all, before);
      RetriesAreInVain(requests, now, init, window, limit, prunes);
      assert all[|requests|] == now && all[|all| - 1] == t;
      SortedPrefix(all, requests + [now]);
      ResetTimeIsExact(requests, now, t, window, limit, prunes);
      StoredShowsGrants(requests + [now], window, limit, prunes, t);
      LastBy(all, before, t);
      StoredShowsGrants(before, window, limit, prunes, t);
      DenialAddsNoGrant(before, t, window, limit, prunes);
    }
  }

  lemma {:induction false} DenialAddsNoGrant(requests: seq<int>, now: int, window: int, limit: int, prunes: bool)
    requires !Allowed(StoredAfter(requests, window, limit, prunes), now, window, limit)
    ensures Grants(requests + [now], window, limit, prunes) == Grants(requests, window, limit, prunes)
  {
    assert (requests + [now])[..|requests|] == requests;
  }

  lemma SortedPrefix(all: seq<int>, s: seq<int>)
    requires Sorted(all) && s <= all
    ensures Sorted(s)
  {
    assert forall i :: 0 <= i < |s| ==> s[i] == all[i];
  }

  lemma LastBy(all: seq<int>, s: seq<int>, t: int)
    requires Sorted(all) && s <= all && |s| < |all| && t == all[|all| - 1] && s != []
    ensures s[|s| - 1] <= t
  {
    assert s[|s| - 1] == all[|s| - 1];
  }
}
