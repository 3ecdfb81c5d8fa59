/** The concrete scenarios the voting server's core is specified by, one lemma
    each, with the film titles its tests use.
 */
module CoreSpec {
  import opened Core
  import opened Ballots

  const Trainspotting: Entry := "Trainspotting"
  const TwentyEightDaysLater: Entry := "28 Days Later"
  const Sunshine: Entry := "Sunshine"
  const Millions: Entry := "Millions"
  const OneTwentySevenHours: Entry := "127 Hours"

  /** The pair every vote scenario is about. */
  const Pair: seq<Entry> := [Trainspotting, TwentyEightDaysLater]

  /** The titles are different entries. */
  lemma TitlesDiffer()
    ensures Trainspotting != TwentyEightDaysLater
    ensures Sunshine != Millions && Sunshine != OneTwentySevenHours && Millions != OneTwentySevenHours
  {
    assert Trainspotting[0] != TwentyEightDaysLater[0];
    assert Sunshine[0] != Millions[0] && Sunshine[0] != OneTwentySevenHours[0];
    assert Millions[0] != OneTwentySevenHours[0];
  }

  /** A tally giving `a` ballots to Trainspotting and `b` to 28 Days Later. */
  function PairVote(a: nat, b: nat): VoteState
  {
    VoteState(Pair, Some(map[Trainspotting := a, TwentyEightDaysLater := b]))
  }

  /** `SetEntries` turns the given list into the queue, in order. */
  lemma SetEntriesConverts()
    ensures SetEntries(Initial, [Trainspotting, TwentyEightDaysLater])
         == State(Some([Trainspotting, TwentyEightDaysLater]), None, None)
  {
  }

  /** `Next` puts the first two entries under vote. */
  lemma NextTakesTwoEntries()
    ensures Next(State(Some([Trainspotting, TwentyEightDaysLater, Sunshine]), None, None))
         == State(Some([Sunshine]), Some(VoteState(Pair, None)), None)
  {
    var q := [Trainspotting, TwentyEightDaysLater, Sunshine];
    NextOpensPair(State(Some(q), None, None));
    assert q[..2] == Pair && q[2..] == [Sunshine];
  }

  /** The winner of the current vote goes to the back of the queue. */
  lemma NextRequeuesWinnerScenario()
    ensures Next(State(Some([Sunshine, Millions, OneTwentySevenHours]), Some(PairVote(4, 2)), None))
         == State(Some([OneTwentySevenHours, Trainspotting]), Some(VoteState([Sunshine, Millions], None)), None)
  {
    var s := State(Some([Sunshine, Millions, OneTwentySevenHours]), Some(PairVote(4, 2)), None);
    TitlesDiffer();
    assert Votes(PairVote(4, 2), Trainspotting) == 4 && Votes(PairVote(4, 2), TwentyEightDaysLater) == 2;
    NextRequeuesLeader(s, Trainspotting);
    var r := Next(s);
    var line := [Sunshine, Millions, OneTwentySevenHours, Trainspotting];
    assert r.vote.value.pair + r.entries.value == line;
    assert r.vote.value.pair == line[..2] && r.entries.value == line[2..];
    assert line[2..] == [OneTwentySevenHours, Trainspotting];
    assert r.winner == None;
    assert line[..2] == [Sunshine, Millions];
    assert r.vote == Some(VoteState([Sunshine, Millions], None));
  }

  /** Both entries of a tied vote go to the back of the queue, in pair order. */
  lemma NextRequeuesTieScenario()
    ensures Next(State(Some([Sunshine, Millions, OneTwentySevenHours]), Some(PairVote(3, 3)), None))
         == State(Some([OneTwentySevenHours, Trainspotting, TwentyEightDaysLater]),
                  Some(VoteState([Sunshine, Millions], None)), None)
  {
    var s := State(Some([Sunshine, Millions, OneTwentySevenHours]), Some(PairVote(3, 3)), None);
    TitlesDiffer();
    assert Votes(PairVote(3, 3), Trainspotting) == 3 && Votes(PairVote(3, 3), TwentyEightDaysLater) == 3;
    NextRequeuesTie(s);
    var r := Next(s);
    var line := [Sunshine, Millions, OneTwentySevenHours, Trainspotting, TwentyEightDaysLater];
    assert r.vote.value.pair + r.entries.value == line;
    assert r.vote.value.pair == line[..2] && r.entries.value == line[2..];
    assert line[2..] == [OneTwentySevenHours, Trainspotting, TwentyEightDaysLater];
    assert r.winner == None;
    assert line[..2] == [Sunshine, Millions];
    assert r.vote == Some(VoteState([Sunshine, Millions], None));
  }

  /** With no entry left to pair against, the leader of the last pair wins. */
  lemma NextMarksWinner()
    ensures Next(State(Some([]), Some(PairVote(4, 2)), None)) == State(None, None, Some(Trainspotting))
  {
    TitlesDiffer();
    assert Votes(PairVote(4, 2), Trainspotting) == 4 && Votes(PairVote(4, 2), TwentyEightDaysLater) == 2;
    NextCrownsLeader(State(Some([]), Some(PairVote(4, 2)), None), Trainspotting);
  }

  /** The first ballot creates a tally for the voted entry. */
  lemma VoteCreatesTallyScenario()
    ensures Vote(VoteState(Pair, None), Trainspotting)
         == VoteState(Pair, Some(map[Trainspotting := 1]))
  {
    VoteCreatesTally(VoteState(Pair, None), Trainspotting);
  }

  /** A later ballot adds to the voted entry's existing count. */
  lemma VoteAddsToTally()
    ensures Vote(PairVote(3, 2), Trainspotting) == PairVote(4, 2)
  {
    var r := Vote(PairVote(3, 2), Trainspotting);
    TitlesDiffer();
    assert Votes(PairVote(3, 2), Trainspotting) == 3 && Votes(PairVote(3, 2), TwentyEightDaysLater) == 2;
    assert Votes(r, Trainspotting) == 4 && Votes(r, TwentyEightDaysLater) == 2;
    var m := map[Trainspotting := 4, TwentyEightDaysLater := 2];
    assert r.tally.value.Keys == m.Keys;
    assert r.tally.value[Trainspotting] == Votes(r, Trainspotting);
    assert r.tally.value[TwentyEightDaysLater] == Votes(r, TwentyEightDaysLater);
    assert r.tally.value == m;
  }

  /** Ballots for A, A and B give A two votes and B one, in whatever order they arrive. */
  lemma CastTwoToOne(ballots: seq<Entry>)
    requires multiset(ballots) == multiset{Trainspotting, Trainspotting, TwentyEightDaysLater}
    ensures ForPair(VoteState(Pair, None), ballots)
    ensures Cast(VoteState(Pair, None), ballots) == PairVote(2, 1)
  {
    var v := VoteState(Pair, None);
    TitlesDiffer();
    var canonical := [Trainspotting, Trainspotting, TwentyEightDaysLater];
    CastOrderIrrelevant(v, canonical, ballots);
    var r := Cast(v, canonical);
    CastKeys(v, canonical);
    assert (set b | b in canonical) == {Trainspotting, TwentyEightDaysLater};
    CastCounts(v, canonical, Trainspotting);
    CastCounts(v, canonical, TwentyEightDaysLater);
    assert Votes(r, Trainspotting) == 2 && Votes(r, TwentyEightDaysLater) == 1;
    var m := map[Trainspotting := 2, TwentyEightDaysLater := 1];
    assert r.tally.value.Keys == m.Keys;
    assert r.tally.value[Trainspotting] == Votes(r, Trainspotting);
    assert r.tally.value[TwentyEightDaysLater] == Votes(r, TwentyEightDaysLater);
    assert r.tally.value == m;
  }
}
