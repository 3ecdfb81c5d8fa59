# Voting server core: pairwise-elimination voting state machine

This project models the application logic of the voting server in Dafny. It
runs a single-elimination contest over a list of candidate entries, such as
film titles. The state is an immutable record with three optional keys:

- `entries`: the queue of candidates waiting to be paired;
- `vote`: the pair under vote, plus a `tally` once a ballot has been cast;
- `winner`: present once the contest is over.

Three pure functions move the contest forward:

- `setEntries` seeds the queue.
- `vote` adds one ballot for a member of the current pair.
- `next` resolves the current pair. The leader goes to the back of the queue; on a tie, both members go there in pair order. `next` then opens the next pair from the front of the queue. When only one entry is left, it declares that entry the winner and drops everything else.

The implementation module `voting-server/src/core` is not part of this model.
Its behaviour comes from the expectations in `voting-server/test/core_spec.js`,
stated for all inputs. The model's `Next` appends the pair's survivors to the
queue. A queue of one entry makes that entry the winner. Otherwise the first
two entries in the queue become the new pair. This rule gives every expected
value in those tests.

Files and modules:

- `core.dfy`, module `Core`: the data model (`State`, `VoteState`, `Option`), the three operations (`SetEntries`, `Next`, `Vote`), pair resolution (`Votes`, `IsTie`, `Leads`, `Winners`), and the all-inputs lemmas for each branch of `Next` and `Vote`.
- `invariants.dfy`, module `CoreInvariants`: the well-formedness invariant `Valid` and its preservation by every step. `Valid` means a pair of two entries, no candidate both paired and queued or queued twice, and a tally of positive counts for pair members only. The module also proves that a step with a leader eliminates exactly the loser and every other step eliminates nobody.
- `ballots.dfy`, module `Ballots`: a run of ballots applied with `Vote` one after another. The counts are the old counts plus each entry's number of ballots, and the order of arrival does not change the result.
- `core_spec.dfy`, module `CoreSpec`: each concrete scenario of the test file as a lemma, with the same titles and tallies.

## Model

| member | source | states |
|---|---|---|
| `Core.SetEntries` | voting-server/test/core_spec.js:11-18 | the queue becomes the given list in the same order; the other keys of the state are kept |
| `Core.SetEntriesOnInitial` | voting-server/test/core_spec.js:12-17 | seeding the empty record gives a record that holds only `entries` |
| `Core.Winners` | voting-server/test/core_spec.js:35-73 | on a tie both pair members survive in pair order; otherwise one member survives, and it has strictly more ballots than the other (an absent tally counts 0) |
| `Core.LeaderIsSoleWinner` | voting-server/test/core_spec.js:35-53 | a member leads the pair exactly when the pair is not tied and that member is the only survivor |
| `Core.Next` | voting-server/test/core_spec.js:21-91 | the record becomes winner-only exactly when a vote is in progress, the queue is empty and the pair is not tied; otherwise a new pair opens with no tally, and new pair + queue = old queue + the survivors of the old pair |
| `Core.NextOpensPair` | voting-server/test/core_spec.js:22-33 | with no vote in progress, the first two entries in order become the pair, with no tally, and the rest stay queued in order |
| `Core.SetEntriesThenNext` | voting-server/test/core_spec.js:11-33 | for at least two seeded entries, `Next` after `SetEntries` pairs the first two and queues the remainder |
| `Core.NextRequeuesLeader` | voting-server/test/core_spec.js:35-53 | when a member leads and other entries are queued, only the leader is appended after them; the next pair is taken from the front with no tally |
| `Core.NextRequeuesTie` | voting-server/test/core_spec.js:55-73 | on a tie both members are appended after the queued entries in pair order; the next pair is taken from the front with no tally |
| `Core.NextDeclaresWinner` | voting-server/test/core_spec.js:75-90 | `Next` yields a winner-only record if and only if the pair has a leader and no other entry is queued |
| `Core.NextCrownsLeader` | voting-server/test/core_spec.js:75-90 | with an empty queue, the leader of the pair becomes the winner, and `vote` and `entries` are removed |
| `Core.NextStartsWithoutTally` | voting-server/test/core_spec.js:47-52 | a pair opened by `Next` has zero ballots for every entry; the old tally is never carried over |
| `Core.Vote` | voting-server/test/core_spec.js:107-123 | the chosen entry's count goes up by exactly one; every other count and the pair are unchanged; the tally keys are the old keys plus the chosen entry |
| `Core.VoteCreatesTally` | voting-server/test/core_spec.js:94-105 | a first ballot creates a tally that maps only the chosen entry to 1, with the pair unchanged |
| `CoreInvariants.SetEntriesValid` | voting-server/test/core_spec.js:11-18 | seeding the empty record with entries free of repeats gives a valid state |
| `CoreInvariants.VoteKeepsValid` | voting-server/test/core_spec.js:93-124 | a ballot for a pair member keeps the tally within the pair and its counts positive |
| `CoreInvariants.NextKeepsValid` | voting-server/test/core_spec.js:21-91 | every step of `Next` keeps the state valid: a two-member pair, no candidate both paired and queued, no repeats |
| `CoreInvariants.FinishedIsTerminal` | voting-server/test/core_spec.js:75-90 | a valid state holding a winner admits no further `Next` |
| `CoreInvariants.NextEliminatesLoser` | voting-server/test/core_spec.js:35-53 | resolving a pair with a leader removes exactly the other member from the candidates still standing, so their number drops by one |
| `CoreInvariants.NextKeepsEveryone` | voting-server/test/core_spec.js:22-73 | opening a pair, or resolving a tie, leaves the multiset of candidates still standing unchanged |
| `Ballots.Cast` | voting-server/test/core_spec.js:93-124 | applying a run of ballots keeps the pair, and a non-empty run always leaves a tally |
| `Ballots.CastCounts` | voting-server/test/core_spec.js:107-123 | after a run of ballots, each entry's count is its old count plus the number of ballots naming it |
| `Ballots.CastKeys` | voting-server/test/core_spec.js:94-123 | after a non-empty run, the tally's keys are the old keys plus every entry some ballot named |
| `Ballots.CastOrderIrrelevant` | voting-server/test/core_spec.js:93-124 | two runs with the same ballots in any order give the same vote record |
| `CoreSpec.SetEntriesConverts` | voting-server/test/core_spec.js:11-18 | seeding Trainspotting and 28 Days Later gives exactly that queue |
| `CoreSpec.NextTakesTwoEntries` | voting-server/test/core_spec.js:22-33 | three entries: the first two are paired and Sunshine stays queued |
| `CoreSpec.NextRequeuesWinnerScenario` | voting-server/test/core_spec.js:35-53 | tally 4 to 2: Sunshine and Millions are paired; the queue is 127 Hours, then Trainspotting |
| `CoreSpec.NextRequeuesTieScenario` | voting-server/test/core_spec.js:55-73 | tally 3 to 3: Sunshine and Millions are paired; the queue is 127 Hours, then Trainspotting, then 28 Days Later |
| `CoreSpec.NextMarksWinner` | voting-server/test/core_spec.js:75-90 | tally 4 to 2 with an empty queue: the record holds only the winner, Trainspotting |
| `CoreSpec.VoteCreatesTallyScenario` | voting-server/test/core_spec.js:94-105 | a first ballot for Trainspotting gives the tally {Trainspotting: 1} |
| `CoreSpec.VoteAddsToTally` | voting-server/test/core_spec.js:107-123 | a ballot for Trainspotting on a 3 to 2 tally gives 4 to 2 |
| `CoreSpec.CastTwoToOne` | voting-server/test/core_spec.js:93-124 | two ballots for Trainspotting and one for 28 Days Later, in any order, give the tally {Trainspotting: 2, 28 Days Later: 1} |

## Left out

- The Immutable.js `List` and `Map` collections are modelled by Dafny `seq`, `map` and datatypes, with structural equality. A key missing from a record is `None`.
- The chai/mocha harness (`describe`, `it`, `expect`) is not modelled. Its scenarios are lemmas in `CoreSpec`.
- The server, socket transport, store and UI are not part of this model. They only call these functions and pass on the result.
- `voting-server/src/core` is not part of this model. Where the tests assert nothing, the model sets a precondition rather than guessing an outcome.
- Next: a tie when no other entry is queued is excluded by its precondition `CanAdvance`. The tests fix no outcome for this case. The same queue rule would simply pair the two tied entries again.
- Next: a state with no vote in progress and fewer than two queued entries is excluded by `CanAdvance`. So is a state without an `entries` key, such as the finished record.
- Vote: a ballot for an entry outside the current pair is excluded by its precondition.
- Entries are strings; the source accepts any value with value equality. `setEntries` takes a sequence, so converting a non-list argument is not modelled.
