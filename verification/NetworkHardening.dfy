/** The rate limiters and the double-vote detector of the hardening classes, over the state they store. */
module NetworkHardening {
  import opened Wrappers
  import opened SlidingWindow
  import opened VaryingWindow
  import Votes = DoubleVotes

  class NetworkHardening {
    /** Time stamps of granted requests per IP address. */
    var identityRateLimiter: map<string, seq<int>>
    /** Everything ever asked for, per IP address. */
    ghost var requests: map<string, seq<Request>>

    constructor ()
      ensures Valid() && identityRateLimiter == map[] && requests == map[]
    {
      identityRateLimiter, requests := map[], map[];
    }

    function StampsOf(ip: string): seq<int>
      reads this`identityRateLimiter
    {
      if ip in identityRateLimiter then identityRateLimiter[ip] else []
    }

    ghost function RequestsOf(ip: string): seq<Request>
      reads this`requests
    {
      if ip in requests then requests[ip] else []
    }

    /** What is stored of an address is what its requests so far leave. */
    ghost predicate Valid()
      reads this
    {
      forall ip :: StampsOf(ip) == StoredBy(RequestsOf(ip), false)
    }

    method RateLimitNewIdentities(ip: string, windowMs: int, maxNew: int, now: int) returns (reply: Reply)
      requires Valid()
      modifies this
      ensures Valid()
      ensures RequestsOf(ip) == old(RequestsOf(ip)) + [Request(now, windowMs, maxNew)]
      ensures forall other :: other != ip ==> RequestsOf(other) == old(RequestsOf(other))
      ensures reply.allowed <==> LastGranted(RequestsOf(ip), false)
      ensures StampsOf(ip) == Stored(old(StampsOf(ip)), now, windowMs, maxNew, false)
      ensures forall other :: other != ip ==> StampsOf(other) == old(StampsOf(other))
      ensures var recent := Recent(old(StampsOf(ip)), now, windowMs);
        reply == if Allowed(old(StampsOf(ip)), now, windowMs, maxNew)
                 then Reply(true, maxNew - |recent| - 1, Some(now + windowMs))
                 else Reply(false, 0, ResetTime(recent, windowMs))
    {
      hide Recent, StoredBy, LastGranted;
      ghost var before, request := RequestsOf(ip), Request(now, windowMs, maxNew);
      StoredMore(before, request, false);
      var timestamps := StampsOf(ip);
      timestamps := Recent(timestamps, now, windowMs);
      requests := requests[ip := before + [request]];
      assert RequestsOf(ip) == before + [request];
      if |timestamps| >= maxNew {
        return Reply(false, 0, ResetTime(timestamps, windowMs));
      }
      timestamps := timestamps + [now];
      identityRateLimiter := identityRateLimiter[ip := timestamps];
      assert StampsOf(ip) == Stored(old(StampsOf(ip)), now, windowMs, maxNew, false);
      assert forall other :: other != ip ==> StampsOf(other) == old(StampsOf(other));
      assert Valid();
      reply := Reply(true, maxNew - |timestamps|, Some(now + windowMs));
    }

    /** As long as its windows start in order, no grant to this address has found more than its limit in its window. */
    lemma NeverOverfull(ip: string)
      requires StartsAscend(RequestsOf(ip))
      ensures !Overfills(RequestsOf(ip), false)
    {
      hide Overfills, StartsAscend;
      AscendingStartsNeverOverfill(RequestsOf(ip), false);
    }
  }

  lemma {:induction false} StoredMore(requests: seq<Request>, r: Request, prunes: bool)
    ensures StoredBy(requests + [r], prunes) == Stored(StoredBy(requests, prunes), r.now, r.window, r.limit, prunes)
    ensures LastGranted(requests + [r], prunes) == Allowed(StoredBy(requests, prunes), r.now, r.window, r.limit)
  {
    assert (requests + [r])[..|requests|] == requests;
  }

  class ConsensusHardening {
    /** Per node, the first vote of each round. */
    var voteHistory: map<string, map<string, Votes.VoteRecord>>
    var viewChangeHistory: seq<int>
    /** Everything ever handed in, per node, and every view change asked for. */
    ghost var batches: map<string, seq<Votes.Batch>>
    ghost var viewChanges: seq<Request>

    constructor ()
      ensures Valid() && voteHistory == map[] && viewChangeHistory == [] && batches == map[] && viewChanges == []
    {
      voteHistory, viewChangeHistory, batches, viewChanges := map[], [], map[], [];
    }

    function VotesOf(nodeId: string): map<string, Votes.VoteRecord>
      reads this`voteHistory
    {
      if nodeId in voteHistory then voteHistory[nodeId] else map[]
    }

    ghost function BatchesOf(nodeId: string): seq<Votes.Batch>
      reads this`batches
    {
      if nodeId in batches then batches[nodeId] else []
    }

    /** The histories are what the calls so far leave. */
    ghost predicate Valid()
      reads this
    {
      && (forall nodeId :: VotesOf(nodeId) == Votes.After(BatchesOf(nodeId)))
      && viewChangeHistory == StoredBy(viewChanges, true)
    }

    /** The loop over the votes of one call. */
    method ScanVotes(nodeId: string, votes: seq<Votes.Ballot>, now: int) returns (evidence: Option<Votes.Evidence>)
      modifies this`voteHistory
      ensures var s := Votes.Scan(old(VotesOf(nodeId)), votes, now); VotesOf(nodeId) == s.history && evidence == s.evidence
      ensures forall other :: other != nodeId ==> VotesOf(other) == old(VotesOf(other))
    {
      if nodeId !in voteHistory {
        voteHistory := voteHistory[nodeId := map[]];
      }
      ghost var all := Votes.Scan(VotesOf(nodeId), votes, now);
      var i := 0;
      while i < |votes|
        invariant 0 <= i <= |votes| && nodeId in voteHistory
        invariant Votes.Scan(VotesOf(nodeId), votes[i..], now) == all
        invariant forall other :: other != nodeId ==> VotesOf(other) == old(VotesOf(other))
      {
        var vote, nodeVotes := votes[i], voteHistory[nodeId];
        assert votes[i..][1..] == votes[i + 1..];
        if vote.roundId in nodeVotes {
          if nodeVotes[vote.roundId].vote != vote.vote {
            return Some(Votes.Evidence(nodeVotes[vote.roundId], vote));
          }
        } else {
          voteHistory := voteHistory[nodeId := nodeVotes[vote.roundId := Votes.Stored(vote, now)]];
        }
        i := i + 1;
      }
      evidence := None;
    }

    /** Reports exactly if the node's votes contradict what it had processed, and then genuinely. */
    method DetectDoubleVote(nodeId: string, votes: seq<Votes.Ballot>, now: int) returns (evidence: Option<Votes.Evidence>)
      requires Valid()
      modifies this`voteHistory, this`batches
      ensures Valid()
      ensures BatchesOf(nodeId) == old(BatchesOf(nodeId)) + [Votes.Batch(votes, now)]
      ensures forall other :: other != nodeId ==> BatchesOf(other) == old(BatchesOf(other))
      ensures evidence == Votes.Report(old(BatchesOf(nodeId)), Votes.Batch(votes, now))
      ensures evidence.Some? <==> !Votes.Consistent(Votes.Processed(old(BatchesOf(nodeId))) + votes)
      ensures evidence.Some? ==> Votes.ShowsEquivocation(evidence.value, Votes.Cast(old(BatchesOf(nodeId))) + votes)
    {
      hide Votes.Scan, Votes.After, Votes.Consistent, Votes.Processed, Votes.Cast, Votes.ShowsEquivocation, StoredBy;
      ghost var before, batch := BatchesOf(nodeId), Votes.Batch(votes, now);
      evidence := ScanVotes(nodeId, votes, now);
      batches := batches[nodeId := before + [batch]];
      AfterMore(before, batch);
      Votes.ReportsIff(before, batch);
      Votes.ReportsAreGenuine(before, batch);
    }

    method RateLimitViewChanges(maxPerWindow: int, windowMs: int, now: int) returns (reply: Reply)
      requires Valid()
      modifies this`viewChangeHistory, this`viewChanges
      ensures Valid()
      ensures viewChanges == old(viewChanges) + [Request(now, windowMs, maxPerWindow)]
      ensures reply.allowed <==> LastGranted(viewChanges, true)
      ensures viewChangeHistory == Stored(old(viewChangeHistory), now, windowMs, maxPerWindow, true)
      ensures var recent := Recent(old(viewChangeHistory), now, windowMs);
        reply == if Allowed(old(viewChangeHistory), now, windowMs, maxPerWindow)
                 then Reply(true, maxPerWindow - |recent| - 1, Some(now))
                 else Reply(false, 0, ResetTime(recent, windowMs))
    {
      hide Recent, StoredBy, Votes.After;
      StoredMore(viewChanges, Request(now, windowMs, maxPerWindow), true);
      viewChanges := viewChanges + [Request(now, windowMs, maxPerWindow)];
      viewChangeHistory := Recent(viewChangeHistory, now, windowMs);
      if |viewChangeHistory| >= maxPerWindow {
        return Reply(false, 0, ResetTime(viewChangeHistory, windowMs));
      }
      viewChangeHistory := viewChangeHistory + [now];
      reply := Reply(true, maxPerWindow - |viewChangeHistory|, Some(now));
    }

    /** As long as the windows start in order, no view change has been granted beyond its limit. */
    lemma NeverOverfull()
      requires StartsAscend(viewChanges)
      ensures !Overfills(viewChanges, true)
    {
      hide Overfills, StartsAscend;
      AscendingStartsNeverOverfill(viewChanges, true);
    }
  }

  lemma {:induction false} AfterMore(batches: seq<Votes.Batch>, b: Votes.Batch)
    ensures Votes.After(batches + [b]) == Votes.Scan(Votes.After(batches), b.votes, b.now).history
  {
    assert (batches + [b])[..|batches|] == batches;
  }
}
