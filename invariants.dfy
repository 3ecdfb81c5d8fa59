/** What every step of the voting state machine keeps: the shape of the
    record, the pair of two distinct entries that are not also queued, a tally
    that counts only members of the pair and only positive numbers; and which
    candidates are still in the running after each step.
 */
module CoreInvariants {
  import opened Core

  /** No entry occurs twice. */
  predicate Distinct(q: seq<Entry>)
  {
    forall i, j :: 0 <= i < j < |q| ==> q[i] != q[j]
  }

  /** A vote in progress: two members, and a tally that holds only members of
      the pair, each with at least one ballot. */
  predicate ValidVote(v: VoteState)
  {
    && |v.pair| == 2
    && (v.tally.Some? ==> forall e :: e in v.tally.value ==> e in v.pair && v.tally.value[e] >= 1)
  }

  /** A meaningful state: either the terminal record holding only the winner,
      or a queue of entries, possibly with a vote in progress, in which no
      candidate appears twice (so no member of the pair is also queued). */
  predicate Valid(s: State)
  {
    if s.winner.Some? then
      IsFinished(s)
    else
      && s.entries.Some?
      && (s.vote.Some? ==> ValidVote(s.vote.value))
      && Distinct(Line(s))
  }

  /** The candidates still in the running, counted with multiplicity: those in
      line, or the winner once the process is over. */
  function Standing(s: State): multiset<Entry>
  {
    multiset(Line(s)) + if IsFinished(s) then multiset{s.winner.value} else multiset{}
  }

  /** A queue is free of repeats exactly when both of its parts are and they
      share no entry. */
  lemma {:induction false} DistinctConcat(a: seq<Entry>, b: seq<Entry>)
    ensures Distinct(a + b) <==> Distinct(a) && Distinct(b) && forall x :: x in a ==> x !in b
  {
    var ab := a + b;
    if Distinct(ab) {
      forall i, j | 0 <= i < j < |a| ensures a[i] != a[j] {
        assert a[i] == ab[i] && a[j] == ab[j];
      }
      forall i, j | 0 <= i < j < |b| ensures b[i] != b[j] {
        assert b[i] == ab[|a| + i] && b[j] == ab[|a| + j];
      }
      forall i, j | 0 <= i < |a| && 0 <= j < |b| ensures a[i] != b[j] {
        assert a[i] == ab[i] && b[j] == ab[|a| + j];
      }
    }
    if Distinct(a) && Distinct(b) && forall x :: x in a ==> x !in b {
      forall i, j | 0 <= i < j < |ab| ensures ab[i] != ab[j] {
        if j < |a| {
          assert ab[i] == a[i] && ab[j] == a[j];
        } else if i >= |a| {
          assert ab[i] == b[i - |a|] && ab[j] == b[j - |a|];
        } else {
          assert ab[i] == a[i] && a[i] in a;
          assert ab[j] == b[j - |a|] && b[j - |a|] in b;
        }
      }
    }
  }

  /** Seeding an empty state with entries free of repeats gives a valid state. */
  lemma SetEntriesValid(entries: seq<Entry>)
    requires Distinct(entries)
    ensures Valid(SetEntries(Initial, entries))
  {
    assert Line(SetEntries(Initial, entries)) == [] + entries;
  }

  /** `Vote` keeps the tally within the pair and positive. */
  lemma VoteKeepsValid(v: VoteState, entry: Entry)
    requires ValidVote(v) && entry in v.pair
    ensures ValidVote(Vote(v, entry))
  {
    var r := Vote(v, entry);
    forall e | e in r.tally.value
      ensures e in r.pair && r.tally.value[e] >= 1
    {
      assert Votes(r, e) == r.tally.value[e];
      if e != entry {
        assert e in Tally(v) && Votes(v, e) == Tally(v)[e];
      }
    }
  }

  /** `Next` keeps the state valid: the survivors it appends were in the pair,
      so they were not already queued. */
  lemma NextKeepsValid(s: State)
    requires Valid(s) && CanAdvance(s)
    ensures Valid(Next(s))
  {
    var r := Next(s);
    var q := s.entries.value;
    if r.vote.Some? {
      assert s.winner.None?;
      if s.vote.None? {
        assert Line(s) == q;
        assert Line(r) == q by {
          assert Resolved(s) == [];
          assert q + [] == q;
        }
      } else {
        var v := s.vote.value;
        var w := Winners(v);
        assert Line(s) == v.pair + q;
        DistinctConcat(v.pair, q);
        forall x | x in w ensures x !in q {
          assert x in v.pair;
        }
        assert Distinct(w);
        DistinctConcat(q, w);
      }
    }
  }

  /** A finished state has no further step. */
  lemma FinishedIsTerminal(s: State)
    requires Valid(s) && s.winner.Some?
    ensures !CanAdvance(s)
  {
  }

  /** A pair of two different members holds each of them once. */
  lemma PairMultiset(pair: seq<Entry>, x: Entry, y: Entry)
    requires |pair| == 2 && x in pair && y in pair && x != y
    ensures multiset(pair) == multiset{x, y}
  {
    assert pair == [pair[0], pair[1]];
  }

  /** Resolving a pair that has a leader eliminates exactly the other member
      of the pair; every other candidate stays in the running. */
  lemma NextEliminatesLoser(s: State, leader: Entry, loser: Entry)
    requires CanAdvance(s) && s.vote.Some?
    requires Leads(s.vote.value, leader) && loser in s.vote.value.pair && loser != leader
    ensures Standing(Next(s)) == Standing(s) - multiset{loser}
    ensures |Standing(Next(s))| == |Standing(s)| - 1
  {
    var v, q, r := s.vote.value, s.entries.value, Next(s);
    LeaderIsSoleWinner(v, leader);
    PairMultiset(v.pair, leader, loser);
    assert Line(s) == v.pair + q;
    assert Standing(s) == multiset{leader, loser} + multiset(q);
    if q == [] {
      NextCrownsLeader(s, leader);
      assert Standing(r) == multiset{leader};
    } else {
      assert Line(r) == q + [leader];
      assert Standing(r) == multiset(q) + multiset{leader};
    }
  }

  /** Opening a pair, or resolving a tie, eliminates nobody. */
  lemma NextKeepsEveryone(s: State)
    requires CanAdvance(s)
    requires s.vote.Some? ==> IsTie(s.vote.value)
    ensures Standing(Next(s)) == Standing(s)
  {
    var q, r := s.entries.value, Next(s);
    if s.vote.None? {
      assert Line(s) == [] + q;
      assert Line(r) == q + [];
    } else {
      var v := s.vote.value;
      assert Line(s) == v.pair + q;
      assert Line(r) == q + v.pair;
    }
  }
}
