/** One BFT voting round as a fold over its votes and its timeout, and what two passed rounds have in common. */
module VoteRounds {
  import opened Sums

  datatype Vote = Vote(nodeId: string, approve: bool, timestamp: nat)

  datatype RoundStatus = Pending | Passed | Failed

  datatype Event = Received(vote: Vote) | TimedOut

  datatype Round = Round(votes: seq<Vote>, status: RoundStatus)

  /** Tolerated faults and quorum for n nodes; an empty node list counts as five nodes. */
  function NodeCount(registered: nat): (n: nat)
    ensures 0 < n
  {
    if registered == 0 then 5 else registered
  }

  function Faults(n: nat): nat
    requires 0 < n
  {
    (n - 1) / 3
  }

  function Quorum(n: nat): nat
    requires 0 < n
  {
    2 * Faults(n) + 1
  }

  function Approvals(votes: seq<Vote>): (k: nat)
    ensures k <= |votes|
  {
    if votes == [] then 0 else Approvals(votes[..|votes| - 1]) + if votes[|votes| - 1].approve then 1 else 0
  }

  /** A vote is appended and may pass the round; the timeout fails it only if it is still pending. */
  function Apply(r: Round, quorum: nat, e: Event): Round {
    match e
    case Received(vote) =>
      var votes := r.votes + [vote];
      Round(votes, if Approvals(votes) >= quorum then Passed else r.status)
    case TimedOut => if r.status == Pending then r.(status := Failed) else r
  }

  function After(quorum: nat, events: seq<Event>): Round {
    if events == [] then Round([], Pending) else Apply(After(quorum, events[..|events| - 1]), quorum, events[|events| - 1])
  }

  lemma AfterAppend(quorum: nat, events: seq<Event>, e: Event)
    ensures After(quorum, events + [e]) == Apply(After(quorum, events), quorum, e)
  {
    assert (events + [e])[..|events|] == events;
  }

  lemma NoApprovals()
    ensures Approvals([]) == 0
  {}

  lemma {:induction false} ApprovalsAppend(votes: seq<Vote>, v: Vote)
    ensures Approvals(votes + [v]) == Approvals(votes) + if v.approve then 1 else 0
  {
    assert (votes + [v])[..|votes|] == votes;
  }

  /** Under every interleaving of votes and timeout the status is decided by the approvals and by whether the timeout fired. */
  lemma {:induction false} StatusIsDecided(quorum: nat, events: seq<Event>)
    requires 0 < quorum
    ensures var r := After(quorum, events);
      r.status == if Approvals(r.votes) >= quorum then Passed else if TimedOut in events then Failed else Pending
  {
    hide Approvals;
    if events == [] {
      NoApprovals();
    } else {
      var init, e := events[..|events| - 1], events[|events| - 1];
      StatusIsDecided(quorum, init);
      assert events == init + [e];
      if e.Received? {
        ApprovalsAppend(After(quorum, init).votes, e.vote);
      }
    }
  }

  /** Passed is never left, and votes are never lost, whatever happens afterwards. */
  lemma {:induction false} PassedIsFinal(quorum: nat, events: seq<Event>, more: seq<Event>)
    requires 0 < quorum
    ensures After(quorum, events).votes <= After(quorum, events + more).votes
    ensures After(quorum, events).status == Passed ==> After(quorum, events + more).status == Passed
  {
    if more == [] {
      assert events + more == events;
    } else {
      var init := more[..|more| - 1];
      assert (events + more)[..|events + more| - 1] == events + init;
      PassedIsFinal(quorum, events, init);
    }
  }

  /** A passed round has more approvals than faults: the weaker quorum test agrees. */
  lemma PassedReachesQuorum(n: nat, events: seq<Event>)
    requires 0 < n && After(Quorum(n), events).status == Passed
    ensures Approvals(After(Quorum(n), events).votes) > Faults(n)
  {
    StatusIsDecided(Quorum(n), events);
  }

  /** The same vote arriving n times. */
  function Repeated(v: Vote, n: nat): seq<Event> {
    if n == 0 then [] else Repeated(v, n - 1) + [Received(v)]
  }

  lemma {:induction false} RepeatedApprovals(quorum: nat, events: seq<Event>, v: Vote, n: nat)
    requires v.approve
    ensures Approvals(After(quorum, events + Repeated(v, n)).votes) == Approvals(After(quorum, events).votes) + n
  {
    hide Approvals, After;
    if n == 0 {
      assert events + Repeated(v, n) == events;
    } else {
      var init := events + Repeated(v, n - 1);
      RepeatedApprovals(quorum, events, v, n - 1);
      assert events + Repeated(v, n) == init + [Received(v)];
      AfterAppend(quorum, init, Received(v));
      ApprovalsAppend(After(quorum, init).votes, v);
    }
  }

  /** A failed round is not final: late approvals, be they all from one node, pass it as soon as the quorum is made up. */
  lemma FailedMayPass(quorum: nat, events: seq<Event>, v: Vote, n: nat)
    requires 0 < quorum && After(quorum, events).status == Failed && v.approve
    ensures After(quorum, events + Repeated(v, n)).status == Passed
      <==> quorum <= Approvals(After(quorum, events).votes) + n
  {
    hide Approvals, After;
    RepeatedApprovals(quorum, events, v, n);
    StatusIsDecided(quorum, events + Repeated(v, n));
  }

  function Approvers(votes: seq<Vote>): set<string> {
    set v | v in votes && v.approve :: v.nodeId
  }

  /** No node approves more than once. */
  ghost predicate ApprovesOnce(votes: seq<Vote>) {
    forall i, j :: 0 <= i < j < |votes| && votes[i].approve && votes[j].approve ==> votes[i].nodeId != votes[j].nodeId
  }

  /** The engine counts approving votes; they are approving nodes exactly when nobody approves twice. */
  lemma {:induction false} ApprovalsCountNodes(votes: seq<Vote>)
    ensures |Approvers(votes)| <= Approvals(votes)
    ensures |Approvers(votes)| == Approvals(votes) <==> ApprovesOnce(votes)
  {
    if votes != [] {
      var init, last := votes[..|votes| - 1], votes[|votes| - 1];
      ApprovalsCountNodes(init);
      assert votes == init + [last];
      if last.approve {
        assert Approvers(votes) == Approvers(init) + {last.nodeId};
        if last.nodeId in Approvers(init) {
          assert Approvers(votes) == Approvers(init);
          var v :| v in init && v.approve && v.nodeId == last.nodeId;
          var i :| 0 <= i < |init| && init[i] == v;
          assert votes[i].nodeId == votes[|init|].nodeId && votes[i].approve;
        } else {
          forall i | 0 <= i < |init| && votes[i].approve ensures votes[i].nodeId != last.nodeId {
            assert init[i] in init;
          }
        }
      } else {
        assert Approvers(votes) == Approvers(init);
      }
    }
  }

  /** A round of the given nodes that has passed, none of them having approved twice. */
  ghost predicate FairlyPassed(nodes: set<string>, events: seq<Event>)
    requires nodes != {}
  {
    var r := After(Quorum(|nodes|), events);
    r.status == Passed && Approvers(r.votes) <= nodes && ApprovesOnce(r.votes)
  }

  /** The approvers of a round. */
  function RoundApprovers(nodes: set<string>, events: seq<Event>): set<string>
    requires nodes != {}
  {
    Approvers(After(Quorum(|nodes|), events).votes)
  }

  lemma UnionSize(a: set<string>, b: set<string>)
    ensures |a| + |b| == |a + b| + |a * b|
  {
    assert a + b == a + (b - a);
    assert b == (b - a) + (a * b);
  }

  /** Any two passed rounds share at least 2q - n approvers, however votes and timeouts came. */
  lemma {:induction false} QuorumsOverlap(nodes: set<string>, events: seq<Event>, events': seq<Event>)
    requires nodes != {} && FairlyPassed(nodes, events) && FairlyPassed(nodes, events')
    ensures |RoundApprovers(nodes, events) * RoundApprovers(nodes, events')| >= 2 * Quorum(|nodes|) - |nodes|
  {
    hide After, Approvals, Approvers, ApprovesOnce;
    var a, b := RoundApprovers(nodes, events), RoundApprovers(nodes, events');
    StatusIsDecided(Quorum(|nodes|), events);
    StatusIsDecided(Quorum(|nodes|), events');
    ApprovalsCountNodes(After(Quorum(|nodes|), events).votes);
    ApprovalsCountNodes(After(Quorum(|nodes|), events').votes);
    UnionSize(a, b);
    SubsetSize(a + b, nodes);
  }

  /** A subset of the wanted size. */
  lemma {:induction false} SubsetOfSize(nodes: set<string>, k: nat) returns (s: set<string>)
    requires k <= |nodes|
    ensures s <= nodes && |s| == k
    decreases k
  {
    if k == 0 {
      s := {};
    } else {
      var x :| x in nodes;
      var t := SubsetOfSize(nodes - {x}, k - 1);
      s := t + {x};
    }
  }

  /** Every set of nodes approves in some run of a round in which each of them votes once. */
  lemma {:induction false} RoundOf(s: set<string>, quorum: nat) returns (events: seq<Event>)
    requires 0 < quorum
    ensures var votes := After(quorum, events).votes;
      Approvers(votes) == s && ApprovesOnce(votes) && Approvals(votes) == |s|
    decreases |s|
  {
    hide After, Approvals;
    if s == {} {
      events := [];
      NothingReceived(quorum);
    } else {
      var x :| x in s;
      var rest := RoundOf(s - {x}, quorum);
      var v := Vote(x, true, 0);
      events := rest + [Received(v)];
      AfterAppend(quorum, rest, Received(v));
      var before, votes := After(quorum, rest).votes, After(quorum, events).votes;
      assert votes == before + [v];
      ApprovalsAppend(before, v);
      assert Approvers(votes) == Approvers(before) + {x};
      ApprovalsCountNodes(votes);
    }
  }

  lemma NothingReceived(quorum: nat)
    ensures After(quorum, []) == Round([], Pending) && Approvals([]) == 0
  {}

  /** Two sets of size q that overlap as little as q and n allow. */
  lemma {:induction false} SmallestOverlap(nodes: set<string>, q: nat) returns (a: set<string>, b: set<string>)
    requires q <= |nodes|
    ensures a <= nodes && b <= nodes && |a| == |b| == q
    ensures |a * b| == if 2 * q <= |nodes| then 0 else 2 * q - |nodes|
  {
    a := SubsetOfSize(nodes, q);
    var rest := nodes - a;
    assert |rest| == |nodes| - q;
    if |rest| >= q {
      b := SubsetOfSize(rest, q);
      assert a * b == {};
    } else {
      var c := SubsetOfSize(a, q - |rest|);
      b := rest + c;
      assert a * b == c && rest * c == {};
      UnionSize(rest, c);
    }
  }

  /** Two passed rounds without f + 1 common approvers, for any number of nodes other than 3f + 1. */
  lemma {:induction false} SmallOverlapRounds(nodes: set<string>) returns (events: seq<Event>, events': seq<Event>)
    requires nodes != {} && |nodes| % 3 != 1
    ensures FairlyPassed(nodes, events) && FairlyPassed(nodes, events')
    ensures |RoundApprovers(nodes, events) * RoundApprovers(nodes, events')| <= Faults(|nodes|)
  {
    hide Approvers, Approvals, ApprovesOnce, After;
    var q := Quorum(|nodes|);
    var a, b := SmallestOverlap(nodes, q);
    events := RoundOf(a, q);
    events' := RoundOf(b, q);
    StatusIsDecided(q, events);
    StatusIsDecided(q, events');
  }

  /** Any two passed rounds share f + 1 approvers, hence an honest one, exactly when n = 3f + 1. */
  lemma {:induction false} SharedHonestApprover(nodes: set<string>)
    requires nodes != {}
    ensures (forall events, events' :: FairlyPassed(nodes, events) && FairlyPassed(nodes, events') ==>
               |RoundApprovers(nodes, events) * RoundApprovers(nodes, events')| >= Faults(|nodes|) + 1)
      <==> |nodes| % 3 == 1
  {
    hide FairlyPassed, RoundApprovers;
    if |nodes| % 3 == 1 {
      forall events, events' | FairlyPassed(nodes, events) && FairlyPassed(nodes, events')
        ensures |RoundApprovers(nodes, events) * RoundApprovers(nodes, events')| >= Faults(|nodes|) + 1
      {
        QuorumsOverlap(nodes, events, events');
      }
    } else {
      var events, events' := SmallOverlapRounds(nodes);
    }
  }
}
