/** When a limiter grants: exactly while grants are few. */
module Allowances {
  import opened SlidingWindow
  import opened VaryingWindow

  /** The positions of the stamps that lie in the window. */
  ghost function InWindow(stamps: seq<int>, now: int, window: int): set<int> {
    set i | 0 <= i < |stamps| && now - window < stamps[i]
  }

  lemma {:induction false} RecentAreInWindow(stamps: seq<int>, now: int, window: int)
    ensures |Recent(stamps, now, window)| == |InWindow(stamps, now, window)|
  {
    if stamps == [] {
      assert InWindow(stamps, now, window) == {};
    } else {
      var n := |stamps| - 1;
      RecentAreInWindow(stamps[..n], now, window);
      assert InWindow(stamps, now, window) == InWindow(stamps[..n], now, window) + if now - window < stamps[n] then {n} else {};
    }
  }

  /** As long as no window starts before an earlier one: a request is granted exactly if fewer grants than its limit lie in
      its window, and what it is told remains is the rest. */
  lemma {:induction false} GrantedIff(requests: seq<Request>, prunes: bool)
    requires requests != [] && StartsAscend(requests)
    ensures var before, last := requests[..|requests| - 1], requests[|requests| - 1];
      var used := |InWindow(GrantedBy(before, prunes), last.now, last.window)|;
      && (LastGranted(requests, prunes) <==> used < last.limit)
      && |Recent(StoredBy(before, prunes), last.now, last.window)| == used
      && GrantedBy(requests, prunes) == GrantedBy(before, prunes) + if used < last.limit then [last.now] else []
  {
    var before, last := requests[..|requests| - 1], requests[|requests| - 1];
    AscendBefore(requests);
    StoredAgrees(before, prunes);
    RecentAreInWindow(GrantedBy(before, prunes), last.now, last.window);
    hide Recent, InWindow, StartsAscend;
  }
}
