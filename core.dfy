/** The pairwise-elimination voting state machine of the voting server.

    The application state is an immutable record whose keys are all optional:
    a queue of `entries` waiting to be paired, the `vote` in progress (a `pair`
    and, once a ballot has been cast, a `tally`), and, at the end, the `winner`.
    `SetEntries`, `Next` and `Vote` each return a new value; nothing is updated
    in place.
 */
module Core {

  /** A candidate (for instance a film title), compared by value. */
  type Entry = string

  datatype Option<T> = None | Some(value: T)

  /** The `vote` sub-record: the two entries under vote and, present only once
      a ballot has been cast, the number of ballots each has received. */
  datatype VoteState = VoteState(pair: seq<Entry>, tally: Option<map<Entry, nat>>)

  /** The whole application state; a key the record does not hold is `None`. */
  datatype State = State(entries: Option<seq<Entry>>, vote: Option<VoteState>, winner: Option<Entry>)

  /** The state before anything has happened: a record with no keys. */
  const Initial: State := State(None, None, None)

  /** Seeds the queue of entries, in the order given; the rest of the state is kept. */
  function SetEntries(s: State, entries: seq<Entry>): (r: State)
    ensures r.entries == Some(entries)
    ensures r.vote == s.vote && r.winner == s.winner
  {
    s.(entries := Some(entries))
  }

  /** The tally as a map; a vote with no tally yet has counted nobody. */
  function Tally(v: VoteState): map<Entry, nat>
  {
    if v.tally.Some? then v.tally.value else map[]
  }

  /** Ballots cast for `e`; an entry missing from the tally has none. */
  function Votes(v: VoteState, e: Entry): nat
  {
    if e in Tally(v) then Tally(v)[e] else 0
  }

  /** Both members of the pair have the same number of ballots. */
  predicate IsTie(v: VoteState)
    requires |v.pair| == 2
  {
    Votes(v, v.pair[0]) == Votes(v, v.pair[1])
  }

  /** The members of the pair that survive it: those with the most ballots,
      in pair order. A sole leader survives alone; on a tie both survive. */
  function Winners(v: VoteState): (w: seq<Entry>)
    requires |v.pair| == 2
    ensures IsTie(v) ==> w == v.pair
    ensures !IsTie(v) ==> |w| == 1 && w[0] in v.pair
    ensures !IsTie(v) ==> forall e :: e in v.pair && e != w[0] ==> Votes(v, e) < Votes(v, w[0])
  {
    var a, b := v.pair[0], v.pair[1];
    if Votes(v, a) > Votes(v, b) then [a]
    else if Votes(v, a) < Votes(v, b) then [b]
    else [a, b]
  }

  /** `e` is the member of the pair with strictly more ballots than the other. */
  predicate Leads(v: VoteState, e: Entry)
    requires |v.pair| == 2
  {
    || (e == v.pair[0] && Votes(v, v.pair[1]) < Votes(v, e))
    || (e == v.pair[1] && Votes(v, v.pair[0]) < Votes(v, e))
  }

  /** A pair either is tied or has a leader, and then the leader alone survives it. */
  lemma LeaderIsSoleWinner(v: VoteState, leader: Entry)
    requires |v.pair| == 2
    ensures Leads(v, leader) <==> !IsTie(v) && Winners(v) == [leader]
  {
  }

  /** What the pair in progress feeds back into the queue (nothing when no vote is in progress). */
  function Resolved(s: State): seq<Entry>
    requires s.vote.Some? ==> |s.vote.value.pair| == 2
  {
    if s.vote.Some? then Winners(s.vote.value) else []
  }

  /** The states on which `Next` is defined: the entries queue is present;
      without a vote it holds at least two entries; with a vote the pair has
      two members, and a tie leaves some other entry to pair against. */
  predicate CanAdvance(s: State)
  {
    && s.entries.Some?
    && match s.vote
       case None => |s.entries.value| >= 2
       case Some(v) => |v.pair| == 2 && (IsTie(v) ==> s.entries.value != [])
  }

  /** The candidates still in play, in the order they will be paired:
      the pair under vote first, then the queued entries. */
  function Line(s: State): seq<Entry>
  {
    (if s.vote.Some? then s.vote.value.pair else []) + (if s.entries.Some? then s.entries.value else [])
  }

  /** The terminal form: a record holding a winner and nothing else. */
  predicate IsFinished(s: State)
  {
    s.entries.None? && s.vote.None? && s.winner.Some?
  }

  /** Advances the process by one step: resolves the pair in progress, if any,
      by appending its survivors to the back of the queue; then either opens
      the next pair from the front of that queue, with no tally, or, when a
      single entry is left, declares it the winner and drops everything else. */
  function Next(s: State): (r: State)
    requires CanAdvance(s)
    ensures r.vote.None? <==> s.vote.Some? && s.entries.value == [] && !IsTie(s.vote.value)
    ensures r.vote.None? ==> r == State(None, None, Some(Winners(s.vote.value)[0]))
    ensures r.vote.Some? ==> r.vote.value.tally.None? && |r.vote.value.pair| == 2
    ensures r.vote.Some? ==> r.entries.Some? && r.winner == s.winner
    ensures r.vote.Some? ==> Line(r) == s.entries.value + Resolved(s)
  {
    var queue := s.entries.value + Resolved(s);
    if |queue| == 1 then
      State(None, None, Some(queue[0]))
    else
      s.(vote := Some(VoteState(queue[..2], None)), entries := Some(queue[2..]))
  }

  /** Casts one ballot for `entry`: its count goes up by one (starting a tally
      if there was none) and nothing else changes. */
  function Vote(v: VoteState, entry: Entry): (r: VoteState)
    requires entry in v.pair
    ensures r.pair == v.pair && r.tally.Some?
    ensures r.tally.value.Keys == Tally(v).Keys + {entry}
    ensures Votes(r, entry) == Votes(v, entry) + 1
    ensures forall e :: e != entry ==> Votes(r, e) == Votes(v, e)
  {
    VoteState(v.pair, Some(Tally(v)[entry := Votes(v, entry) + 1]))
  }

  // ---------------------------------------------------------------------
  // The behaviour of each operation, stated for all inputs.

  /** Seeding an empty state gives a record holding only the entries, in order. */
  lemma SetEntriesOnInitial(entries: seq<Entry>)
    ensures SetEntries(Initial, entries) == State(Some(entries), None, None)
  {
  }

  /** With no vote in progress, the first two entries, in order, become the
      pair, and the remaining entries stay queued in their original order. */
  lemma NextOpensPair(s: State)
    requires CanAdvance(s) && s.vote.None?
    ensures Next(s).vote == Some(VoteState(s.entries.value[..2], None))
    ensures Next(s).entries == Some(s.entries.value[2..])
  {
    var r := Next(s);
    var q := s.entries.value;
    assert Line(r) == r.vote.value.pair + r.entries.value == q;
    assert r.vote.value.pair == q[..2];
  }

  /** After seeding at least two entries, `Next` pairs the first two and queues the rest. */
  lemma SetEntriesThenNext(entries: seq<Entry>)
    requires |entries| >= 2
    ensures Next(SetEntries(Initial, entries))
         == State(Some(entries[2..]), Some(VoteState(entries[..2], None)), None)
  {
    NextOpensPair(SetEntries(Initial, entries));
  }

  /** A sole leader of the pair goes alone to the back of a non-empty queue,
      its opponent is dropped, and the next pair is opened from the front. */
  lemma NextRequeuesLeader(s: State, leader: Entry)
    requires CanAdvance(s) && s.vote.Some? && Leads(s.vote.value, leader) && s.entries.value != []
    ensures Next(s).vote.Some? && Next(s).vote.value.tally.None? && Next(s).entries.Some?
    ensures Next(s).vote.value.pair + Next(s).entries.value == s.entries.value + [leader]
  {
    var v := s.vote.value;
    LeaderIsSoleWinner(v, leader);
  }

  /** On a tie both members of the pair go to the back of the queue, in pair
      order, after every entry already queued; the next pair is then opened. */
  lemma NextRequeuesTie(s: State)
    requires CanAdvance(s) && s.vote.Some? && IsTie(s.vote.value)
    ensures var r := Next(s);
      && r.vote.Some? && r.vote.value.tally.None?
      && r.vote.value.pair + r.entries.value == s.entries.value + s.vote.value.pair
  {
  }

  /** `Next` declares a winner exactly when the pair has a sole leader and no
      other entry is queued; the winner is that leader and the state then
      holds nothing else. */
  lemma NextDeclaresWinner(s: State)
    requires CanAdvance(s)
    ensures IsFinished(Next(s)) <==> s.vote.Some? && s.entries.value == [] && !IsTie(s.vote.value)
  {
  }

  /** The winner `Next` declares is the leader of the last pair. */
  lemma NextCrownsLeader(s: State, leader: Entry)
    requires CanAdvance(s) && s.vote.Some? && Leads(s.vote.value, leader) && s.entries.value == []
    ensures Next(s) == State(None, None, Some(leader))
  {
    LeaderIsSoleWinner(s.vote.value, leader);
  }

  /** The pair `Next` opens never inherits a tally: every ballot of the
      resolved pair is discarded. */
  lemma NextStartsWithoutTally(s: State)
    requires CanAdvance(s)
    ensures Next(s).vote.Some? ==> forall e :: Votes(Next(s).vote.value, e) == 0
  {
  }

  /** A first ballot creates a tally holding only the chosen entry, with one vote. */
  lemma VoteCreatesTally(v: VoteState, entry: Entry)
    requires entry in v.pair && v.tally.None?
    ensures Vote(v, entry) == VoteState(v.pair, Some(map[entry := 1]))
  {
    var r := Vote(v, entry);
    assert r.tally.value.Keys == {entry};
    assert r.tally.value[entry] == 1;
  }
}
