/** The consensus engine's round table: rounds are created, collect votes and time out in place. */
module ConsensusEngine {
  import opened VoteRounds

  class BFTRound {
    const totalNodes: nat
    const f: nat
    const quorum: nat
    var status: RoundStatus
    var votes: seq<Vote>
    /** The events so far. */
    ghost var events: seq<Event>

    ghost predicate Valid()
      reads this
    {
      && 0 < totalNodes && f == Faults(totalNodes) && quorum == Quorum(totalNodes)
      && Round(votes, status) == After(quorum, events)
    }

    constructor (nodes: nat)
      ensures Valid() && totalNodes == NodeCount(nodes) && events == []
    {
      totalNodes := NodeCount(nodes);
      f := (NodeCount(nodes) - 1) / 3;
      quorum := 2 * ((NodeCount(nodes) - 1) / 3) + 1;
      status, votes, events := Pending, [], [];
    }

    method CountApprovals() returns (approvals: nat)
      ensures approvals == Approvals(votes)
    {
      approvals := 0;
      for i := 0 to |votes|
        invariant approvals == Approvals(votes[..i])
      {
        assert votes[..i + 1][..i] == votes[..i];
        if votes[i].approve {
          approvals := approvals + 1;
        }
      }
      assert votes[..|votes|] == votes;
    }

    method Receive(vote: Vote)
      requires Valid()
      modifies this
      ensures Valid() && events == old(events) + [Received(vote)]
    {
      hide After, Approvals;
      AfterAppend(quorum, events, Received(vote));
      votes := votes + [vote];
      var approvals := CountApprovals();
      if approvals >= quorum {
        status := Passed;
      }
      events := events + [Received(vote)];
    }

    /** The timer of the round. */
    method Timeout()
      requires Valid()
      modifies this
      ensures Valid() && events == old(events) + [TimedOut]
    {
      hide After;
      AfterAppend(quorum, events, TimedOut);
      if status == Pending {
        status := Failed;
      }
      events := events + [TimedOut];
    }
  }

  class ConsensusEngine {
    const nodes: seq<string>
    var bftRounds: map<string, BFTRound>

    ghost predicate Valid()
      reads this, bftRounds.Values
    {
      && (forall id :: id in bftRounds ==> bftRounds[id].Valid() && bftRounds[id].totalNodes == NodeCount(|nodes|))
      && (forall id, id' :: id in bftRounds && id' in bftRounds && id != id' ==> bftRounds[id] != bftRounds[id'])
    }

    constructor (nodes: seq<string>)
      ensures Valid() && this.nodes == nodes && bftRounds == map[]
    {
      this.nodes, bftRounds := nodes, map[];
    }

    /** The round id is generated; it is taken to be fresh. */
    method CreateRound(roundId: string) returns (round: BFTRound)
      requires Valid() && roundId !in bftRounds
      modifies this
      ensures Valid() && fresh(round) && round.events == []
      ensures bftRounds == old(bftRounds)[roundId := round]
    {
      round := new BFTRound(|nodes|);
      bftRounds := bftRounds[roundId := round];
    }

    /** A vote for an unknown round is ignored; a vote for a known one is appended, whoever has voted before. */
    method ReceiveVote(roundId: string, nodeId: string, approve: bool, now: nat)
      requires Valid()
      modifies bftRounds.Values
      ensures Valid()
      ensures forall id :: id in bftRounds ==>
        bftRounds[id].events == old(bftRounds[id].events) + if id == roundId then [Received(Vote(nodeId, approve, now))] else []
    {
      if roundId in bftRounds {
        var r := bftRounds[roundId];
        r.Receive(Vote(nodeId, approve, now));
      }
    }

    method FireTimeout(roundId: string)
      requires Valid() && roundId in bftRounds
      modifies bftRounds.Values
      ensures Valid()
      ensures forall id :: id in bftRounds ==>
        bftRounds[id].events == old(bftRounds[id].events) + if id == roundId then [TimedOut] else []
    {
      var r := bftRounds[roundId];
      r.Timeout();
    }

    /** More approvals than tolerated faults; true of every passed round. */
    method IsQuorumReached(roundId: string) returns (reached: bool)
      requires Valid()
      ensures reached <==> roundId in bftRounds && Approvals(bftRounds[roundId].votes) > bftRounds[roundId].f
      ensures roundId in bftRounds && bftRounds[roundId].status == Passed ==> reached
    {
      if roundId !in bftRounds {
        return false;
      }
      var r := bftRounds[roundId];
      var approvals := r.CountApprovals();
      if r.status == Passed {
        PassedReachesQuorum(r.totalNodes, r.events);
      }
      reached := approvals > r.f;
    }
  }
}
