/** Equivocation of one node: the first vote of each round is kept, and a different one later is reported. */
module DoubleVotes {
  import opened Wrappers

  datatype Ballot = Ballot(roundId: string, vote: string, timestamp: Option<int>, signature: Option<string>)

  datatype VoteRecord = VoteRecord(roundId: string, vote: string, timestamp: int, signature: string)

  datatype Evidence = Evidence(vote1: VoteRecord, vote2: Ballot)

  datatype Scanned = Scanned(history: map<string, VoteRecord>, evidence: Option<Evidence>)

  /** One call: the votes handed in and the clock reading. */
  datatype Batch = Batch(votes: seq<Ballot>, now: int)

  /** What is stored of a vote; a missing time stamp, or zero, becomes the current time. */
  function Stored(b: Ballot, now: int): VoteRecord {
    VoteRecord(b.roundId, b.vote,
               if b.timestamp.Some? && b.timestamp.value != 0 then b.timestamp.value else now,
               if b.signature.Some? then b.signature.value else "")
  }

  /** The loop over the votes: the first contradiction ends it. */
  function Scan(history: map<string, VoteRecord>, votes: seq<Ballot>, now: int): Scanned
    decreases |votes|
  {
    if votes == [] then Scanned(history, None) else
      var b := votes[0];
      if b.roundId !in history then Scan(history[b.roundId := Stored(b, now)], votes[1..], now)
      else if history[b.roundId].vote != b.vote then Scanned(history, Some(Evidence(history[b.roundId], b)))
      else Scan(history, votes[1..], now)
  }

  function After(batches: seq<Batch>): map<string, VoteRecord> {
    if batches == [] then map[] else
      Scan(After(batches[..|batches| - 1]), batches[|batches| - 1].votes, batches[|batches| - 1].now).history
  }

  /** What the next call reports. */
  function Report(batches: seq<Batch>, next: Batch): Option<Evidence> {
    Scan(After(batches), next.votes, next.now).evidence
  }

  /** Everything handed in so far. */
  function Cast(batches: seq<Batch>): seq<Ballot> {
    if batches == [] then [] else Cast(batches[..|batches| - 1]) + batches[|batches| - 1].votes
  }

  ghost predicate Consistent(votes: seq<Ballot>) {
    forall i, j :: 0 <= i < |votes| && 0 <= j < |votes| && votes[i].roundId == votes[j].roundId ==> votes[i].vote == votes[j].vote
  }

  /** Some vote handed in is the one on record. */
  ghost predicate WasCast(r: VoteRecord, votes: seq<Ballot>) {
    exists i :: 0 <= i < |votes| && votes[i].roundId == r.roundId && votes[i].vote == r.vote
  }

  /** Every record is filed under its round and stems from a vote handed in. */
  ghost predicate Genuine(history: map<string, VoteRecord>, votes: seq<Ballot>) {
    forall id :: id in history ==> history[id].roundId == id && WasCast(history[id], votes)
  }

  /** Every vote handed in agrees with the record of its round. */
  ghost predicate Remembers(history: map<string, VoteRecord>, votes: seq<Ballot>) {
    forall i :: 0 <= i < |votes| ==> votes[i].roundId in history && history[votes[i].roundId].vote == votes[i].vote
  }

  lemma CastBefore(r: VoteRecord, votes: seq<Ballot>, more: seq<Ballot>)
    requires WasCast(r, votes)
    ensures WasCast(r, votes + more)
  {
    var i :| 0 <= i < |votes| && votes[i].roundId == r.roundId && votes[i].vote == r.vote;
    assert (votes + more)[i] == votes[i];
  }

  lemma GenuineLater(history: map<string, VoteRecord>, votes: seq<Ballot>, more: seq<Ballot>)
    requires Genuine(history, votes)
    ensures Genuine(history, votes + more)
  {
    forall id | id in history ensures WasCast(history[id], votes + more) {
      CastBefore(history[id], votes, more);
    }
  }

  /** A report shows two different votes of one round, the recorded one and one of this call. */
  ghost predicate ShowsEquivocation(e: Evidence, votes: seq<Ballot>) {
    e.vote1.roundId == e.vote2.roundId && e.vote1.vote != e.vote2.vote && WasCast(e.vote1, votes) && e.vote2 in votes
  }

  lemma {:induction false} ScanIsGenuine(history: map<string, VoteRecord>, seen: seq<Ballot>, votes: seq<Ballot>, now: int)
    requires Genuine(history, seen)
    ensures var s := Scan(history, votes, now);
      Genuine(s.history, seen + votes) && (s.evidence.Some? ==> ShowsEquivocation(s.evidence.value, seen + votes))
    decreases |votes|
  {
    hide Genuine, WasCast;
    if votes == [] {
      assert seen + votes == seen;
    } else {
      var b, rest := votes[0], votes[1..];
      assert seen + votes == seen + [b] + rest;
      if b.roundId !in history {
        FiledIsGenuine(history, seen, b, now);
        ScanIsGenuine(history[b.roundId := Stored(b, now)], seen + [b], rest, now);
      } else {
        GenuineLater(history, seen, votes);
        GenuineLater(history, seen, [b]);
        if history[b.roundId].vote != b.vote {
          assert (seen + votes)[|seen|] == b;
          RecordsAreGenuine(history, seen + votes, b.roundId);
        } else {
          ScanIsGenuine(history, seen + [b], rest, now);
        }
      }
    }
  }

  lemma RecordsAreGenuine(history: map<string, VoteRecord>, votes: seq<Ballot>, id: string)
    requires Genuine(history, votes) && id in history
    ensures history[id].roundId == id && WasCast(history[id], votes)
  {}

  lemma FiledIsGenuine(history: map<string, VoteRecord>, seen: seq<Ballot>, b: Ballot, now: int)
    requires Genuine(history, seen)
    ensures Genuine(history[b.roundId := Stored(b, now)], seen + [b])
  {
    GenuineLater(history, seen, [b]);
    assert (seen + [b])[|seen|] == b;
    assert WasCast(Stored(b, now), seen + [b]);
  }

  /** As long as nothing has been reported, a scan reports exactly if the votes so far and its own contradict each other. */
  lemma {:induction false} ScanDetects(history: map<string, VoteRecord>, seen: seq<Ballot>, votes: seq<Ballot>, now: int)
    requires Remembers(history, seen) && Genuine(history, seen)
    ensures var s := Scan(history, votes, now);
      && (s.evidence.None? <==> Consistent(seen + votes))
      && (s.evidence.None? ==> Remembers(s.history, seen + votes))
    decreases |votes|
  {
    hide Genuine, WasCast;
    if votes == [] {
      assert seen + votes == seen;
    } else {
      var b, rest := votes[0], votes[1..];
      assert seen + votes == seen + [b] + rest;
      if b.roundId !in history {
        FiledIsGenuine(history, seen, b, now);
        ScanDetects(history[b.roundId := Stored(b, now)], seen + [b], rest, now);
      } else if history[b.roundId].vote != b.vote {
        Contradiction(history, seen, votes);
      } else {
        GenuineLater(history, seen, [b]);
        ScanDetects(history, seen + [b], rest, now);
      }
    }
  }

  lemma Contradiction(history: map<string, VoteRecord>, seen: seq<Ballot>, votes: seq<Ballot>)
    requires Genuine(history, seen) && votes != [] && votes[0].roundId in history
    requires history[votes[0].roundId].vote != votes[0].vote
    ensures !Consistent(seen + votes)
  {
    var r := history[votes[0].roundId];
    assert WasCast(r, seen);
    var i :| 0 <= i < |seen| && seen[i].roundId == r.roundId && seen[i].vote == r.vote;
    assert (seen + votes)[i] == seen[i] && (seen + votes)[|seen|] == votes[0];
  }

  /** Nobody is accused wrongly, over any run of calls: a report shows two different votes the node handed in for one round. */
  lemma {:induction false} ReportsAreGenuine(batches: seq<Batch>, next: Batch)
    ensures Report(batches, next).Some? ==> ShowsEquivocation(Report(batches, next).value, Cast(batches) + next.votes)
  {
    hide Scan, Genuine, ShowsEquivocation;
    HistoryIsGenuine(batches);
    ScanIsGenuine(After(batches), Cast(batches), next.votes, next.now);
  }

  lemma {:induction false} HistoryIsGenuine(batches: seq<Batch>)
    ensures Genuine(After(batches), Cast(batches))
  {
    if batches != [] {
      hide Scan, Genuine, ShowsEquivocation;
      var init, last := batches[..|batches| - 1], batches[|batches| - 1];
      HistoryIsGenuine(init);
      ScanIsGenuine(After(init), Cast(init), last.votes, last.now);
    }
  }

  ghost predicate Silent(batches: seq<Batch>) {
    forall k :: 0 <= k < |batches| ==> Report(batches[..k], batches[k]).None?
  }

  lemma SilentSoFar(batches: seq<Batch>)
    requires batches != []
    ensures Silent(batches) <==>
      Silent(batches[..|batches| - 1]) && Report(batches[..|batches| - 1], batches[|batches| - 1]).None?
  {
    hide Report;
    var init := batches[..|batches| - 1];
    assert forall k :: 0 <= k < |init| ==> init[..k] == batches[..k];
  }

  lemma ConsistentPrefix(votes: seq<Ballot>, more: seq<Ballot>)
    requires Consistent(votes + more)
    ensures Consistent(votes)
  {
    assert forall i :: 0 <= i < |votes| ==> (votes + more)[i] == votes[i];
  }

  lemma {:induction false} SilenceRemembers(batches: seq<Batch>)
    ensures Silent(batches) <==> Consistent(Cast(batches))
    ensures Silent(batches) ==> Remembers(After(batches), Cast(batches))
  {
    if batches != [] {
      hide Scan, Genuine, Silent, Consistent, Remembers;
      var init, last := batches[..|batches| - 1], batches[|batches| - 1];
      SilenceRemembers(init);
      SilentSoFar(batches);
      HistoryIsGenuine(init);
      if Silent(init) {
        ScanDetects(After(init), Cast(init), last.votes, last.now);
      } else if Consistent(Cast(batches)) {
        ConsistentPrefix(Cast(init), last.votes);
      }
    }
  }

  /** Nobody escapes either: the calls of a run stay silent exactly as long as no two votes of one round differ. */
  lemma {:induction false} SilentIffConsistent(batches: seq<Batch>)
    ensures Silent(batches) <==> Consistent(Cast(batches))
  {
    hide Silent, Consistent;
    SilenceRemembers(batches);
  }

  /** The votes of a call up to its first contradiction with what was processed before or with one another. */
  ghost function Taken(seen: seq<Ballot>, votes: seq<Ballot>): seq<Ballot>
    decreases |votes|
  {
    if votes == [] || !Consistent(seen + [votes[0]]) then [] else [votes[0]] + Taken(seen + [votes[0]], votes[1..])
  }

  /** What the calls of a run have processed: of each call the votes up to its first contradiction. */
  ghost function Processed(batches: seq<Batch>): seq<Ballot> {
    if batches == [] then [] else
      var before := Processed(batches[..|batches| - 1]);
      before + Taken(before, batches[|batches| - 1].votes)
  }

  ghost predicate Tracks(history: map<string, VoteRecord>, seen: seq<Ballot>) {
    Remembers(history, seen) && Genuine(history, seen)
  }

  lemma ConsistentWithOne(history: map<string, VoteRecord>, seen: seq<Ballot>, b: Ballot)
    requires Tracks(history, seen)
    ensures Consistent(seen + [b]) <==> b.roundId !in history || history[b.roundId].vote == b.vote
  {
    hide WasCast;
    if b.roundId in history && history[b.roundId].vote != b.vote {
      Contradiction(history, seen, [b]);
    }
  }

  /** A scan files exactly the votes it takes, whether or not it ends in a report. */
  lemma {:induction false} ScanTracks(history: map<string, VoteRecord>, seen: seq<Ballot>, votes: seq<Ballot>, now: int)
    requires Tracks(history, seen)
    ensures Tracks(Scan(history, votes, now).history, seen + Taken(seen, votes))
    decreases |votes|
  {
    hide WasCast, Consistent;
    if votes == [] {
      assert seen + [] == seen;
    } else {
      var b, rest := votes[0], votes[1..];
      ConsistentWithOne(history, seen, b);
      if Consistent(seen + [b]) {
        TracksMore(history, seen, b, now);
        assert seen + Taken(seen, votes) == seen + [b] + Taken(seen + [b], rest);
        if b.roundId in history {
          ScanTracks(history, seen + [b], rest, now);
        } else {
          ScanTracks(history[b.roundId := Stored(b, now)], seen + [b], rest, now);
        }
      } else {
        assert seen + Taken(seen, votes) == seen;
      }
    }
  }

  lemma TracksMore(history: map<string, VoteRecord>, seen: seq<Ballot>, b: Ballot, now: int)
    requires Tracks(history, seen) && (b.roundId !in history || history[b.roundId].vote == b.vote)
    ensures Tracks(if b.roundId in history then history else history[b.roundId := Stored(b, now)], seen + [b])
  {
    hide WasCast;
    if b.roundId in history {
      GenuineLater(history, seen, [b]);
    } else {
      FiledIsGenuine(history, seen, b, now);
    }
  }

  lemma {:induction false} HistoryTracks(batches: seq<Batch>)
    ensures Tracks(After(batches), Processed(batches))
  {
    hide Scan, Taken;
    if batches != [] {
      var init, last := batches[..|batches| - 1], batches[|batches| - 1];
      HistoryTracks(init);
      ScanTracks(After(init), Processed(init), last.votes, last.now);
    }
  }

  /** After every run, reports included: the next call reports exactly if its votes contradict each other or what earlier
      calls processed, that is, of each of them the votes up to its first contradiction. */
  lemma {:induction false} ReportsIff(batches: seq<Batch>, next: Batch)
    ensures Report(batches, next).Some? <==> !Consistent(Processed(batches) + next.votes)
  {
    hide Scan, Processed, After, Consistent;
    HistoryTracks(batches);
    ScanDetects(After(batches), Processed(batches), next.votes, next.now);
  }

  /** Votes behind a contradiction are not processed, so a second contradiction among them may pass unseen. */
  lemma VotesBehindAReportAreLost(a: Ballot, b: Ballot, c: Ballot, d: Ballot, now: int)
    requires a.roundId == b.roundId && a.vote != b.vote
    requires c.roundId == d.roundId != a.roundId && c.vote != d.vote
    ensures !Consistent([c, d]) && Report([], Batch([a, b, c], now)).Some?
    ensures Report([Batch([a, b, c], now)], Batch([d], now)).None?
  {
    assert [c, d][0] == c && [c, d][1] == d;
    var h: map<string, VoteRecord> := map[a.roundId := Stored(a, now)];
    assert [a, b, c][1..] == [b, c] && [d][1..] == [];
    assert map[][a.roundId := Stored(a, now)] == h;
    assert Scan(h, [b, c], now) == Scanned(h, Some(Evidence(h[b.roundId], b)));
    assert Scan(map[], [a, b, c], now) == Scan(h, [b, c], now);
    var first := Batch([a, b, c], now);
    assert [first][..0] == [] && After([]) == map[];
    assert After([first]) == h;
    assert Scan(h, [d], now) == Scan(h[d.roundId := Stored(d, now)], [], now);
  }

  /** The record that this vote leaves when it is the first of its round, in a call at this time. */
  predicate MadeFrom(r: VoteRecord, b: Ballot, now: int) {
    && r.roundId == b.roundId && r.vote == b.vote
    && (match b.timestamp case Some(t) => r.timestamp == (if t == 0 then now else t) case None => r.timestamp == now)
    && (match b.signature case Some(s) => r.signature == s case None => r.signature == "")
  }

  ghost predicate MadeInRun(r: VoteRecord, batches: seq<Batch>) {
    exists k, i :: 0 <= k < |batches| && 0 <= i < |batches[k].votes| && MadeFrom(r, batches[k].votes[i], batches[k].now)
  }

  lemma {:induction false} ScanMakes(history: map<string, VoteRecord>, votes: seq<Ballot>, now: int)
    ensures var later := Scan(history, votes, now).history;
      forall id :: id in later ==>
        (id in history && later[id] == history[id]) || exists i :: 0 <= i < |votes| && MadeFrom(later[id], votes[i], now)
    decreases |votes|
  {
    if votes != [] {
      var b, rest := votes[0], votes[1..];
      var next := if b.roundId in history then history else history[b.roundId := Stored(b, now)];
      ScanMakes(next, rest, now);
      var later := Scan(history, votes, now).history;
      forall id | id in later
        ensures (id in history && later[id] == history[id]) || exists i :: 0 <= i < |votes| && MadeFrom(later[id], votes[i], now)
      {
        if i :| 0 <= i < |rest| && MadeFrom(later[id], rest[i], now) {
          assert votes[i + 1] == rest[i];
        } else if !(id in history && later[id] == history[id]) {
          assert MadeFrom(later[id], votes[0], now);
        }
      }
    }
  }

  /** Over every run each record is made from a vote that was handed in: its round, vote and signature, and its own time or,
      if it has none, that of the call. */
  lemma {:induction false} RecordsAreMade(batches: seq<Batch>)
    ensures forall id :: id in After(batches) ==> MadeInRun(After(batches)[id], batches)
  {
    hide Scan, MadeFrom;
    if batches != [] {
      var init, last := batches[..|batches| - 1], batches[|batches| - 1];
      RecordsAreMade(init);
      ScanMakes(After(init), last.votes, last.now);
      forall id | id in After(batches) ensures MadeInRun(After(batches)[id], batches) {
        var r := After(batches)[id];
        if id in After(init) && r == After(init)[id] {
          var k, i :| 0 <= k < |init| && 0 <= i < |init[k].votes| && MadeFrom(r, init[k].votes[i], init[k].now);
          assert batches[k] == init[k];
        } else {
          var i :| 0 <= i < |last.votes| && MadeFrom(r, last.votes[i], last.now);
          assert batches[|batches| - 1] == last;
        }
      }
    }
  }
}
