/** Ballots arrive one at a time and each is applied with `Vote`. This module
    folds a whole run of ballots into a vote and shows that the resulting
    tally depends only on how many ballots each entry received, not on the
    order in which they arrived.
 */
module Ballots {
  import opened Core

  /** Every ballot names a member of the pair. */
  predicate ForPair(v: VoteState, ballots: seq<Entry>)
  {
    forall b :: b in ballots ==> b in v.pair
  }

  /** Applies `Vote` for each ballot in turn, first to last. */
  function Cast(v: VoteState, ballots: seq<Entry>): (r: VoteState)
    requires ForPair(v, ballots)
    ensures r.pair == v.pair
    ensures ballots != [] ==> r.tally.Some?
    ensures r.tally.None? ==> r == v
    decreases |ballots|
  {
    if ballots == [] then v else Cast(Vote(v, ballots[0]), ballots[1..])
  }

  /** After a run of ballots, each entry's count is its count before plus the
      number of ballots that named it. */
  lemma {:induction false} CastCounts(v: VoteState, ballots: seq<Entry>, e: Entry)
    requires ForPair(v, ballots)
    ensures Votes(Cast(v, ballots), e) == Votes(v, e) + multiset(ballots)[e]
    decreases |ballots|
  {
    if ballots != [] {
      var b, rest := ballots[0], ballots[1..];
      assert ballots == [b] + rest;
      CastCounts(Vote(v, b), rest, e);
    }
  }

  /** After a non-empty run of ballots, the tally holds the entries it held
      before and every entry some ballot named, and no other. */
  lemma {:induction false} CastKeys(v: VoteState, ballots: seq<Entry>)
    requires ForPair(v, ballots) && ballots != []
    ensures Cast(v, ballots).tally.value.Keys == Tally(v).Keys + set b | b in ballots
    decreases |ballots|
  {
    var b, rest := ballots[0], ballots[1..];
    var u := Vote(v, b);
    assert ballots == [b] + rest;
    if rest == [] {
      assert (set x | x in ballots) == {b};
    } else {
      CastKeys(u, rest);
      assert (set x | x in ballots) == {b} + set x | x in rest;
    }
  }

  /** Two runs holding the same ballots, in any order, give the same vote. */
  lemma CastOrderIrrelevant(v: VoteState, ballots: seq<Entry>, shuffled: seq<Entry>)
    requires ForPair(v, ballots) && multiset(shuffled) == multiset(ballots)
    ensures ForPair(v, shuffled) && Cast(v, shuffled) == Cast(v, ballots)
  {
    forall b | b in shuffled ensures b in v.pair {
      assert b in multiset(shuffled);
    }
    if ballots == [] {
      assert shuffled == [];
    } else {
      assert shuffled != [] by {
        assert |shuffled| == |multiset(ballots)| > 0;
      }
      var r1, r2 := Cast(v, ballots), Cast(v, shuffled);
      CastKeys(v, ballots);
      CastKeys(v, shuffled);
      assert (set b | b in ballots) == set b | b in shuffled by {
        forall b ensures b in ballots <==> b in shuffled {
          assert b in ballots <==> b in multiset(ballots);
          assert b in shuffled <==> b in multiset(shuffled);
        }
      }
      forall e | e in r1.tally.value
        ensures r2.tally.value[e] == r1.tally.value[e]
      {
        CastCounts(v, ballots, e);
        CastCounts(v, shuffled, e);
        assert Votes(r1, e) == r1.tally.value[e] && Votes(r2, e) == r2.tally.value[e];
      }
      assert r1.tally.value == r2.tally.value;
    }
  }
}
