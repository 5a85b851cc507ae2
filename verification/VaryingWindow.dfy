/** The limiters with a window and a limit that change from call to call. */
module VaryingWindow {
  import opened SlidingWindow

  datatype Request = Request(now: int, window: int, limit: int)

  function StoredBy(requests: seq<Request>, prunes: bool): seq<int> {
    if requests == [] then [] else
      var last := requests[|requests| - 1];
      Stored(StoredBy(requests[..|requests| - 1], prunes), last.now, last.window, last.limit, prunes)
  }

  /** Whether the last request of a run is granted. */
  predicate LastGranted(requests: seq<Request>, prunes: bool)
    requires requests != []
  {
    var last := requests[|requests| - 1];
    Allowed(StoredBy(requests[..|requests| - 1], prunes), last.now, last.window, last.limit)
  }

  /** The times of all grants of a run. */
  function GrantedBy(requests: seq<Request>, prunes: bool): seq<int> {
    if requests == [] then [] else
      GrantedBy(requests[..|requests| - 1], prunes) + if LastGranted(requests, prunes) then [requests[|requests| - 1].now] else []
  }

  /** The last request is granted although its own window then holds more grants than its own limit. */
  ghost predicate Overfills(requests: seq<Request>, prunes: bool) {
    requests != [] && LastGranted(requests, prunes) &&
    var last := requests[|requests| - 1];
    CountWithin(GrantedBy(requests, prunes), last.now, last.window) > last.limit
  }

  ghost predicate InOrder(requests: seq<Request>) {
    forall i, j :: 0 <= i < j < |requests| ==> requests[i].now <= requests[j].now
  }

  /** The windows never start earlier than those before: true of every run whose windows do not grow. */
  ghost predicate StartsAscend(requests: seq<Request>) {
    forall i, j :: 0 <= i < j < |requests| ==> requests[i].now - requests[i].window <= requests[j].now - requests[j].window
  }

  ghost predicate WindowsShrink(requests: seq<Request>) {
    forall i, j :: 0 <= i < j < |requests| ==> requests[j].window <= requests[i].window
  }

  /** Through every window that starts at this point or later the stored list and the full history look the same. */
  ghost predicate Agrees(stamps: seq<int>, grants: seq<int>, start: int) {
    forall now, window :: start <= now - window ==> Recent(stamps, now, window) == Recent(grants, now, window)
  }

  /** A window that starts no earlier sees through a pruning. */
  lemma {:induction false} LaterStartSeesThrough(s: seq<int>, now: int, window: int, later: int, wide: int)
    requires now - window <= later - wide
    ensures Recent(Recent(s, now, window), later, wide) == Recent(s, later, wide)
  {
    if s != [] {
      var init, last := s[..|s| - 1], s[|s| - 1];
      LaterStartSeesThrough(init, now, window, later, wide);
      RecentAppend(Recent(init, now, window), last, later, wide);
      if last <= now - window {
        assert Recent(s, now, window) == Recent(init, now, window);
        assert Recent(s, later, wide) == Recent(init, later, wide);
      }
    }
  }

  lemma AgreesStep(stamps: seq<int>, grants: seq<int>, start: int, r: Request, prunes: bool)
    requires Agrees(stamps, grants, start) && start <= r.now - r.window
    ensures var granted := Allowed(stamps, r.now, r.window, r.limit);
      Agrees(Stored(stamps, r.now, r.window, r.limit, prunes), grants + (if granted then [r.now] else []), r.now - r.window)
  {
    var granted := Allowed(stamps, r.now, r.window, r.limit);
    var recent := Recent(stamps, r.now, r.window);
    var later, all := Stored(stamps, r.now, r.window, r.limit, prunes), grants + (if granted then [r.now] else []);
    hide Recent;
    forall now, window | r.now - r.window <= now - window ensures Recent(later, now, window) == Recent(all, now, window) {
      LaterStartSeesThrough(stamps, r.now, r.window, now, window);
      RecentAppend(recent, r.now, now, window);
      RecentAppend(grants, r.now, now, window);
      if !granted {
        assert all == grants;
      }
    }
  }

  /** Where the run's last window starts. */
  function LastStart(requests: seq<Request>): int
    requires requests != []
  {
    requests[|requests| - 1].now - requests[|requests| - 1].window
  }

  lemma AscendBefore(requests: seq<Request>)
    requires requests != [] && StartsAscend(requests)
    ensures StartsAscend(requests[..|requests| - 1])
    ensures |requests| > 1 ==> LastStart(requests[..|requests| - 1]) <= LastStart(requests)
  {}

  lemma {:induction false} StoredAgrees(requests: seq<Request>, prunes: bool)
    requires StartsAscend(requests)
    ensures requests == [] ==> StoredBy(requests, prunes) == GrantedBy(requests, prunes) == []
    ensures requests != [] ==> Agrees(StoredBy(requests, prunes), GrantedBy(requests, prunes), LastStart(requests))
  {
    hide Recent, Stored, StartsAscend;
    if requests != [] {
      var init, last := requests[..|requests| - 1], requests[|requests| - 1];
      AscendBefore(requests);
      StoredAgrees(init, prunes);
      assert Agrees([], [], LastStart(requests));
      AgreesStep(StoredBy(init, prunes), GrantedBy(init, prunes), if init == [] then LastStart(requests) else LastStart(init), last, prunes);
    }
  }

  lemma {:induction false} CountIsWithinRecent(s: seq<int>, now: int, window: int)
    ensures CountWithin(s, now, window) <= |Recent(s, now, window)|
  {
    CountIsBelowRecent(s, now, now, window);
  }

  /** If the stored list shows the window of the last request truly, that window does not overfill. */
  lemma TrueListDoesNotOverfill(requests: seq<Request>, prunes: bool)
    requires requests != []
    requires var init, last := requests[..|requests| - 1], requests[|requests| - 1];
      Recent(StoredBy(init, prunes), last.now, last.window) == Recent(GrantedBy(init, prunes), last.now, last.window)
    ensures !Overfills(requests, prunes)
  {
    hide Recent, CountWithin;
    var init, last := requests[..|requests| - 1], requests[|requests| - 1];
    CountIsWithinRecent(GrantedBy(init, prunes), last.now, last.window);
    CountAppend(GrantedBy(init, prunes), last.now, last.now, last.window);
  }

  /** As long as no window starts before an earlier one, no grant finds more than its own limit in its own window. */
  lemma {:induction false} AscendingStartsNeverOverfill(requests: seq<Request>, prunes: bool)
    requires StartsAscend(requests)
    ensures !Overfills(requests, prunes)
  {
    hide Recent, StoredBy, GrantedBy, LastGranted, CountWithin;
    if requests != [] {
      var init := requests[..|requests| - 1];
      AscendBefore(requests);
      StoredAgrees(init, prunes);
      TrueListDoesNotOverfill(requests, prunes);
    }
  }

  /** In particular if no window exceeds an earlier one. */
  lemma ShrinkingWindowsNeverOverfill(requests: seq<Request>, prunes: bool)
    requires InOrder(requests) && WindowsShrink(requests)
    ensures !Overfills(requests, prunes)
  {
    hide Overfills;
    AscendingStartsNeverOverfill(requests, prunes);
  }

  /** Requests at these times under one setting. */
  function Phase(times: seq<int>, window: int, limit: int): (requests: seq<Request>)
    ensures |requests| == |times|
  {
    seq(|times|, i requires 0 <= i < |times| => Request(times[i], window, limit))
  }

  lemma {:induction false} PhaseIsFixed(times: seq<int>, window: int, limit: int, prunes: bool)
    ensures StoredBy(Phase(times, window, limit), prunes) == StoredAfter(times, window, limit, prunes)
    ensures GrantedBy(Phase(times, window, limit), prunes) == Grants(times, window, limit, prunes)
  {
    hide Stored, Recent;
    if times != [] {
      var init := times[..|times| - 1];
      assert Phase(times, window, limit)[..|times| - 1] == Phase(init, window, limit);
      PhaseIsFixed(init, window, limit, prunes);
    }
  }

  /** Whatever is asked for under the first setting and then under the second, no grant of the second overfills. */
  ghost predicate SafeSwitch(window: int, limit: int, window': int, limit': int, prunes: bool) {
    forall before, after :: Sorted(before + after) ==>
      !Overfills(Phase(before, window, limit) + Phase(after, window', limit'), prunes)
  }

  lemma {:induction false} OnePhaseNeverOverfills(times: seq<int>, window: int, limit: int, prunes: bool)
    requires Sorted(times)
    ensures !Overfills(Phase(times, window, limit), prunes)
  {
    hide Overfills;
    ShrinkingWindowsNeverOverfill(Phase(times, window, limit), prunes);
  }

  lemma SwitchAscends(before: seq<int>, after: seq<int>, window: int, limit: int, window': int, limit': int)
    requires Sorted(before + after) && window' <= window
    ensures StartsAscend(Phase(before, window, limit) + Phase(after, window', limit'))
  {
    var all, times := Phase(before, window, limit) + Phase(after, window', limit'), before + after;
    assert forall i :: 0 <= i < |times| ==> all[i].now == times[i] && all[i].window == if i < |before| then window else window';
  }

  lemma SortedFirst(before: seq<int>, after: seq<int>)
    requires Sorted(before + after)
    ensures Sorted(before) && Sorted(after)
  {
    var all := before + after;
    assert forall i :: 0 <= i < |before| ==> all[i] == before[i];
    assert forall i :: 0 <= i < |after| ==> all[|before| + i] == after[i];
  }

  lemma {:induction false} EmptyWindowCountsNothing(s: seq<int>, now: int, window: int)
    requires window <= 0
    ensures CountWithin(s, now, window) == 0
  {
    if s != [] {
      EmptyWindowCountsNothing(s[..|s| - 1], now, window);
    }
  }

  lemma {:induction false} EmptyWindowNeverOverfills(requests: seq<Request>, prunes: bool)
    requires requests != [] && requests[|requests| - 1].window <= 0
    ensures !Overfills(requests, prunes)
  {
    hide StoredBy, GrantedBy, CountWithin, Recent;
    var last := requests[|requests| - 1];
    EmptyWindowCountsNothing(GrantedBy(requests, prunes), last.now, last.window);
  }

  /** A limit of zero grants and stores nothing. */
  lemma {:induction false} NothingGranted(times: seq<int>, window: int, limit: int, prunes: bool)
    requires limit <= 0
    ensures StoredBy(Phase(times, window, limit), prunes) == [] && GrantedBy(Phase(times, window, limit), prunes) == []
  {
    if times != [] {
      var init := times[..|times| - 1];
      assert Phase(times, window, limit)[..|times| - 1] == Phase(init, window, limit);
      NothingGranted(init, window, limit, prunes);
    }
  }

  /** What follows a run that has stored and granted nothing does not notice it. */
  lemma {:induction false} ForgottenStart(start: seq<Request>, rest: seq<Request>, prunes: bool)
    requires StoredBy(start, prunes) == [] && GrantedBy(start, prunes) == []
    ensures StoredBy(start + rest, prunes) == StoredBy(rest, prunes) && GrantedBy(start + rest, prunes) == GrantedBy(rest, prunes)
    ensures rest != [] ==> Overfills(start + rest, prunes) == Overfills(rest, prunes)
  {
    hide Stored, Recent, CountWithin;
    if rest == [] {
      assert start + rest == start;
    } else {
      var init := rest[..|rest| - 1];
      assert (start + rest)[..|start + rest| - 1] == start + init;
      ForgottenStart(start, init, prunes);
    }
  }

  /** Every request may be granted at some time. */
  ghost predicate PositiveLimits(requests: seq<Request>) {
    forall i :: 0 <= i < |requests| ==> 1 <= requests[i].limit
  }

  /** The last stamp that is stored is that of the last grant. */
  ghost predicate KeepsLast(stamps: seq<int>, grants: seq<int>, now: int) {
    && Sorted(stamps) && AllBy(stamps, now) && Sorted(grants) && AllBy(grants, now)
    && (grants != [] ==> stamps != [] && stamps[|stamps| - 1] == grants[|grants| - 1])
  }

  lemma {:induction false} RecentKeepsLast(s: seq<int>, now: int, window: int)
    requires Sorted(s) && s != []
    ensures if s[|s| - 1] > now - window
            then Recent(s, now, window) != [] && Recent(s, now, window)[|Recent(s, now, window)| - 1] == s[|s| - 1]
            else Recent(s, now, window) == []
  {
    if s[|s| - 1] <= now - window && |s| > 1 {
      RecentKeepsLast(s[..|s| - 1], now, window);
    }
  }

  lemma KeepsLastStep(stamps: seq<int>, grants: seq<int>, earlier: int, r: Request, prunes: bool)
    requires KeepsLast(stamps, grants, earlier) && earlier <= r.now && 1 <= r.limit
    ensures var granted := Allowed(stamps, r.now, r.window, r.limit);
      KeepsLast(Stored(stamps, r.now, r.window, r.limit, prunes), grants + (if granted then [r.now] else []), r.now)
  {
    RecentSorted(stamps, r.now, r.window);
    if stamps != [] {
      RecentKeepsLast(stamps, r.now, r.window);
    }
    hide Recent;
    assert AllBy(stamps, r.now) && AllBy(grants, r.now);
  }

  lemma {:induction false} LastIsKept(requests: seq<Request>, prunes: bool)
    requires InOrder(requests) && PositiveLimits(requests)
    ensures requests == [] ==> StoredBy(requests, prunes) == GrantedBy(requests, prunes) == []
    ensures requests != [] ==> KeepsLast(StoredBy(requests, prunes), GrantedBy(requests, prunes), requests[|requests| - 1].now)
  {
    hide Stored, Recent, KeepsLast;
    if requests != [] {
      var init, last := requests[..|requests| - 1], requests[|requests| - 1];
      LastIsKept(init, prunes);
      KeepsLastNothing(last.now);
      KeepsLastStep(StoredBy(init, prunes), GrantedBy(init, prunes), if init == [] then last.now else init[|init| - 1].now, last, prunes);
    }
  }

  lemma KeepsLastNothing(now: int)
    ensures KeepsLast([], [], now)
  {}

  /** A limit of one cannot be overfilled by forgetting: the last grant is always remembered. */
  lemma {:induction false} LimitOfOneNeverOverfills(requests: seq<Request>, prunes: bool)
    requires requests != [] && InOrder(requests[..|requests| - 1]) && PositiveLimits(requests[..|requests| - 1])
    requires requests[|requests| - 1].limit <= 1
    ensures !Overfills(requests, prunes)
  {
    var init, last := requests[..|requests| - 1], requests[|requests| - 1];
    LastIsKept(init, prunes);
    hide StoredBy, GrantedBy, Recent, CountWithin, KeepsLast;
    if LastGranted(requests, prunes) {
      var grants := GrantedBy(init, prunes);
      GrantedMore(requests, prunes);
      if init == [] {
        NoneWithin([], last.now, last.window);
      } else {
        ForgottenAreOld(StoredBy(init, prunes), grants, init[|init| - 1].now, last.now, last.window);
      }
      CountAppend(grants, last.now, last.now, last.window);
    }
  }

  /** If no stored stamp is recent, no grant is. */
  lemma ForgottenAreOld(stamps: seq<int>, grants: seq<int>, earlier: int, now: int, window: int)
    requires KeepsLast(stamps, grants, earlier) && Recent(stamps, now, window) == []
    ensures CountWithin(grants, now, window) == 0
  {
    if grants != [] {
      RecentKeepsLast(stamps, now, window);
    }
    NoneWithin(grants, now, window);
  }

  lemma GrantedMore(requests: seq<Request>, prunes: bool)
    requires requests != [] && LastGranted(requests, prunes)
    ensures GrantedBy(requests, prunes) == GrantedBy(requests[..|requests| - 1], prunes) + [requests[|requests| - 1].now]
  {}

  predicate Safe(window: int, limit: int, window': int, limit': int) {
    window' <= window || window' <= 0 || limit <= 0 || limit' <= 1
  }

  lemma {:induction false} SwitchNeverOverfills(before: seq<int>, after: seq<int>, window: int, limit: int, window': int, limit': int, prunes: bool)
    requires Sorted(before + after) && Safe(window, limit, window', limit')
    ensures !Overfills(Phase(before, window, limit) + Phase(after, window', limit'), prunes)
  {
    hide Overfills, StoredBy, GrantedBy, Sorted;
    var first, second := Phase(before, window, limit), Phase(after, window', limit');
    SortedFirst(before, after);
    if after == [] {
      assert first + second == first;
      OnePhaseNeverOverfills(before, window, limit, prunes);
    } else if window' <= window {
      SwitchAscends(before, after, window, limit, window', limit');
      AscendingStartsNeverOverfill(first + second, prunes);
    } else if window' <= 0 {
      EmptyWindowNeverOverfills(first + second, prunes);
    } else if limit <= 0 {
      NothingGranted(before, window, limit, prunes);
      ForgottenStart(first, second, prunes);
      OnePhaseNeverOverfills(after, window', limit', prunes);
    } else {
      SwitchInOrder(before, after, window, limit, window', limit');
      if limit' == 1 {
        LimitOfOneNeverOverfills(first + second, prunes);
      } else {
        NeverAllowed(first + second, prunes);
      }
    }
  }

  lemma NeverAllowed(requests: seq<Request>, prunes: bool)
    requires requests != [] && requests[|requests| - 1].limit <= 0
    ensures !Overfills(requests, prunes)
  {}

  lemma SwitchInOrder(before: seq<int>, after: seq<int>, window: int, limit: int, window': int, limit': int)
    requires Sorted(before + after)
    ensures InOrder(Phase(before, window, limit) + Phase(after, window', limit'))
  {
    var all, times := Phase(before, window, limit) + Phase(after, window', limit'), before + after;
    assert forall i :: 0 <= i < |times| ==> all[i].now == times[i];
  }

  /** t, n times over. */
  function Copies(t: int, n: nat): (s: seq<int>)
    ensures |s| == n && forall i :: 0 <= i < n ==> s[i] == t
  {
    seq(n, _ => t)
  }

  lemma {:induction false} RecentCopies(t: int, n: nat, window: int)
    requires 0 < window
    ensures Recent(Copies(t, n), t, window) == Copies(t, n)
  {
    forall i | 0 <= i < n ensures t - window < Copies(t, n)[i] {}
    AllRecent(Copies(t, n), t, window);
  }

  function Start(window: int): int {
    if 0 < window then window else 0
  }

  /** Two requests a narrow window apart, then j more at once under the wide one. */
  function WideningRun(window: int, limit: int, window': int, limit': int, j: nat): seq<Request> {
    Phase([0, Start(window)], window, limit) + Phase(Copies(Start(window), j), window', limit')
  }

  lemma {:induction false} NarrowStart(window: int, limit: int, prunes: bool)
    requires 1 <= limit
    ensures var t := Start(window);
      StoredBy(Phase([0, t], window, limit), prunes) == [t] && GrantedBy(Phase([0, t], window, limit), prunes) == [0, t]
  {
    var t := Start(window);
    var two := Phase([0, t], window, limit);
    assert two[..1] == [Request(0, window, limit)] && two[..1][..0] == [] && [0][..0] == [];
    assert StoredBy(two[..1], prunes) == [0] && GrantedBy(two[..1], prunes) == [0];
    assert Recent([0], t, window) == [];
  }

  lemma {:induction false} WideFills(window: int, limit: int, window': int, limit': int, j: nat, prunes: bool)
    requires window < window' && 0 < window' && 1 <= limit && 2 <= limit' && j < limit'
    ensures var t := Start(window);
      && StoredBy(WideningRun(window, limit, window', limit', j), prunes) == Copies(t, j + 1)
      && GrantedBy(WideningRun(window, limit, window', limit', j), prunes) == [0] + Copies(t, j + 1)
    decreases j
  {
    hide Recent;
    var t := Start(window);
    var run := WideningRun(window, limit, window', limit', j);
    if j == 0 {
      assert run == Phase([0, t], window, limit);
      NarrowStart(window, limit, prunes);
    } else {
      WideFills(window, limit, window', limit', j - 1, prunes);
      assert run[..|run| - 1] == WideningRun(window, limit, window', limit', j - 1);
      RecentCopies(t, j, window');
      assert Copies(t, j) + [t] == Copies(t, j + 1);
    }
  }

  lemma {:induction false} CountCopies(t: int, n: nat, window: int)
    requires 0 < window && t - window < 0 <= t
    ensures CountWithin([0] + Copies(t, n), t, window) == n + 1
  {
    if n == 0 {
      assert [0] + Copies(t, n) == [] + [0];
      CountAppend([], 0, t, window);
    } else {
      CountCopies(t, n - 1, window);
      CountAppend([0] + Copies(t, n - 1), t, t, window);
      assert [0] + Copies(t, n) == [0] + Copies(t, n - 1) + [t];
    }
  }

  lemma WideningStep(window: int, limit: int, window': int, limit': int, j: nat)
    requires 0 < j
    ensures var run := WideningRun(window, limit, window', limit', j);
      && run != [] && run[|run| - 1] == Request(Start(window), window', limit')
      && run[..|run| - 1] == WideningRun(window, limit, window', limit', j - 1)
  {}

  lemma WideningGranted(window: int, limit: int, window': int, limit': int, j: nat, prunes: bool)
    requires 0 < j < limit' && 0 < window'
    requires StoredBy(WideningRun(window, limit, window', limit', j - 1), prunes) == Copies(Start(window), j)
    ensures WideningRun(window, limit, window', limit', j) != [] && LastGranted(WideningRun(window, limit, window', limit', j), prunes)
  {
    hide Recent, StoredBy, WideningRun;
    WideningStep(window, limit, window', limit', j);
    RecentCopies(Start(window), j, window');
  }

  lemma {:induction false} WideningOverfills(window: int, limit: int, window': int, limit': int, prunes: bool)
    requires !Safe(window, limit, window', limit')
    ensures Overfills(WideningRun(window, limit, window', limit', limit' - 1), prunes)
  {
    hide Recent, StoredBy, GrantedBy, CountWithin, LastGranted, WideningRun, Copies;
    var j := limit' - 1;
    WideFills(window, limit, window', limit', j, prunes);
    WideFills(window, limit, window', limit', j - 1, prunes);
    WideningStep(window, limit, window', limit', j);
    WideningGranted(window, limit, window', limit', j, prunes);
    CountCopies(Start(window), limit', window');
  }

  /** For every pair of settings: switching from one to the other never overfills a window, whatever is asked for, exactly
      if the window does not grow, or the new one is empty, or nothing is granted before, or at most one thereafter. */
  lemma {:induction false} SafeSwitchIff(window: int, limit: int, window': int, limit': int, prunes: bool)
    ensures SafeSwitch(window, limit, window', limit', prunes) <==> Safe(window, limit, window', limit')
  {
    hide Overfills, Sorted;
    if Safe(window, limit, window', limit') {
      forall before, after | Sorted(before + after)
        ensures !Overfills(Phase(before, window, limit) + Phase(after, window', limit'), prunes)
      {
        SwitchNeverOverfills(before, after, window, limit, window', limit', prunes);
      }
    } else {
      var before, after := [0, Start(window)], Copies(Start(window), limit' - 1);
      WideningOverfills(window, limit, window', limit', prunes);
      WideningIsSorted(window, limit' - 1);
      assert !SafeSwitch(window, limit, window', limit', prunes);
    }
  }

  lemma WideningIsSorted(window: int, j: nat)
    ensures Sorted([0, Start(window)] + Copies(Start(window), j))
  {}
}
