# Voting contract — a verified Dafny model

The repository is one PyTeal smart contract for the Algorand Virtual Machine (AVM). It is a
ballot state machine. A creator opens a registration window and a voting window, both given as
round numbers. Accounts opt in (register) during the first window and cast one vote each during
the second. Each vote adds one to a tally kept in the application's global key-value store under
the raw choice the voter supplies. An account that leaves by close-out or clear-state before the
voting window ends has its vote taken back off the tally. Delete and update calls are
authorised only for the creator.

The model has five modules:

- `Avm` (`avm.dfy`) holds the parts of the AVM the contract relies on. Byte strings are
  characters below 256. A value is an integer or a byte string. The global store is a map. An
  absent key reads as the integer 0, and a byte string used in arithmetic panics. `btoi` decodes
  big-endian and fails on more than 8 bytes; `btoi` undoes `itob`.
- `Contract` (`contract.dfy`) gives each program branch as a pure function: `Creation`,
  `IsCreator`, `Register`, `Vote`, and `Retraction`, the conditional retraction shared by
  `on_closeout` and the clear-state program. `Approval` is the first-match `Cond` dispatch.
  `Execute` is the host running one call. It commits a program's writes only on approval,
  creates the caller's local record on an approved opt-in, and removes it on an approved
  close-out and on every clear-state call. It refuses a creation call whose completion is
  close-out or clear-state, since the creator holds no local record of the new application.
- `Transitions` (`transitions.dfy`) holds lemmas about `Execute`, call kind by call kind, and
  about calls in sequence.
- `Tally` (`tally.dfy`) holds the invariant that every recorded vote is backed by its tally. Every
  call after creation preserves it. So close-out and clear-state never fail on any ledger that a
  creation call and later calls lead to, as long as the contract stays installed. The model
  treats an approved delete or update as leaving the state as it was. On-chain, a close-out
  after a delete fails, and after an update a different program runs. For every choice that
  is not a configuration key, the tally equals the number of accounts that recorded it,
  provided every voter who exits does so no later than VoteEnd.
- `VotingApp` (`application.dfy`) has the class `Application`. Its fields are the global store
  and the local records, and its methods follow the `Seq` blocks step by step. Writes go to
  working copies and are stored back only on approval, which is how the AVM discards a failed
  call. Each method's postcondition equates the outcome and the new state with the matching
  `Contract` function.

Three outcomes are distinguished. `Approve` is `Return(1)`. `Reject` is `Return(0)` or a refusal
by the host. `Panic` is a failed `Assert` or an AVM runtime error. The AVM runtime errors modelled
are an argument index out of range, `btoi` of more than 8 bytes, `+ 1` past 2^64 - 1, `- 1` below
0, arithmetic or `==` between a byte string and an integer, and `App.localPut` for an account
that has not opted in.

The round, the sender and the arguments are parameters of each call. Choices are raw keys of
the one global map, as in the source. So a vote for `"VoteEnd"` moves the end of the voting
window by one round, and a vote for `"Creator"` panics when Creator holds a byte string, as on
every ledger after creation (`ChoiceCollidesWithConfiguration`).

Where the source's comments promise more than its code does, the model follows the code:

- The comment at `voting_contract.py:30` says a delete call retracts the sender's vote. The
  delete branch at line 87 only checks the creator and retracts nothing.
- The comment at line 45 and the final `Return(1)` of both exit programs say that exits always
  approve. The retraction can still panic, when the tally of the recorded choice is 0 or is a
  byte string. The model keeps those panics. `Tally.ExitNeverFails` proves they cannot occur on
  any ledger reached from a creation call.
- The window order `RegBegin <= RegEnd <= VoteBegin <= VoteEnd` is not checked at creation. No
  whitelist of candidates exists. The model adds neither.
- One would expect each tally to equal the number of accounts holding that choice. Two things
  break this. A choice can be a configuration key, such as "VoteEnd", whose value also holds a
  round. And an exit after VoteEnd removes the voter but keeps the vote. Under neither,
  `Tally.TallyCountsVoters` proves the equality; in general `Tally.Inv` proves the lower bound
  that the exit guarantee needs.

## Model

| member | source | states |
|---|---|---|
| Avm.Btoi | voting_contract.py:13-19 | `btoi` succeeds iff the argument has at most 8 bytes; the result is its big-endian value and fits in 64 bits |
| Avm.BtoiItob | voting_contract.py:13-19 | a round encoded with `itob` is decoded by `btoi` to the same number |
| Contract.Creation | voting_contract.py:4-21 | creation succeeds iff there are exactly four arguments of at most 8 bytes. It then stores the name, the sender as Creator and the four decoded arguments in order as RegBegin, RegEnd, VoteBegin, VoteEnd; it adds exactly the configuration keys and leaves every other key as it was |
| Contract.IsCreator | voting_contract.py:25 | approves iff Creator holds the sender's bytes; panics when Creator is absent or an integer |
| Contract.Register | voting_contract.py:51-56 | opt-in approves iff RegBegin and RegEnd read as integers and RegBegin <= round <= RegEnd |
| Contract.Vote | voting_contract.py:58-83 | a vote that is not approved changes nothing. An approved vote comes from an opted-in sender with no recorded vote, adds one to the integer tally of `args[1]`, and records `args[1]` for the sender |
| Avm.GlobalUint | voting_contract.py:37-42 | `App.globalGet` read as an integer: an absent key reads as 0, a stored integer as itself, and a byte string makes the arithmetic or comparison panic (also at lines 53-54, 61, 69-70) |
| Contract.VotedOf | voting_contract.py:28 | `App.localGetEx` of "voted" (also line 99) has a value iff the sender is opted in and has recorded a choice, and then that value is the choice |
| Contract.Approval | voting_contract.py:85-92 | the `Cond` dispatch: a program that does not approve writes nothing; no program changes another account's record or adds or removes a record; delete, update and opt-in write nothing. Per-branch behaviour is stated by the `Transitions` lemmas |
| Contract.ClearStateProgram | voting_contract.py:97-118 | the clear-state program never returns 0, writes no local record, changes nothing when it panics, and otherwise changes at most the tally of the sender's recorded choice. `Transitions.ExitPathsAgree` and `Tally.ExitApproved` state the rest |
| Contract.Execute | voting_contract.py:85-118 | the host running one call: a close-out or clear-state creation call is refused and changes nothing; a call that is not approved changes nothing, except that a clear-state call still removes the local record; it never changes global state; no call changes another account's record. The `Transitions` and `Tally` lemmas state each call kind |
| Contract.Retraction | voting_contract.py:31-47 | the retraction, the same in close-out and clear-state, changes at most the recorded choice's key and keeps every other key |
| Transitions.CreationStoresConfiguration | voting_contract.py:4-21 | a close-out or clear-state creation call is refused by the host and changes nothing; any other creation call is approved iff there are four arguments of at most 8 bytes. It then stores Creator and the four windows in order, adds no tally key and leaves local records alone. Otherwise it panics and nothing persists |
| Transitions.CreationWithEncodedRounds | voting_contract.py:11-19 | creating with four `itob`-encoded rounds is approved and stores exactly those rounds, unless the completion is close-out or clear-state, which the host refuses |
| Transitions.RegistrationWindow | voting_contract.py:51-56 | opt-in is approved iff the account is new and RegBegin <= round <= RegEnd. It then only adds an empty local record; a refused opt-in changes nothing |
| Transitions.VoteOutsideWindowAborts | voting_contract.py:67-72 | a vote outside [VoteBegin, VoteEnd] panics and leaves global and local state unchanged |
| Transitions.SecondVoteRejected | voting_contract.py:74-76 | inside the window, a sender who already voted gets `Return(0)`; tallies and the recorded choice are unchanged |
| Transitions.VoteCountsOnce | voting_contract.py:58-83 | a vote is approved iff it is in the window, the sender is opted in and has not voted, a choice is given, and its tally is an integer below 2^64 - 1. It raises that tally by exactly one (an absent key counts as 0), records the choice, and changes no other key and no other account |
| Transitions.CloseOutRetracts | voting_contract.py:31-47 | close-out by an opted-in account, with any arguments, is approved iff VoteEnd reads as an integer and, when a retraction applies, the tally to lower is an integer >= 1; otherwise it panics and changes nothing. When approved it removes the local record. With round <= VoteEnd and a recorded vote `v` it lowers `global[v]` by exactly one; otherwise the global store is unchanged |
| Transitions.ExitPathsAgree | voting_contract.py:97-118 | the clear-state call has the same outcome as close-out and, when approved, the same resulting state. When the retraction panics, the clear-state call still removes the local record |
| Transitions.AdministrationNeedsCreator | voting_contract.py:85-88 | delete and update are approved iff the sender equals the stored Creator; neither changes any state |
| Transitions.UnmatchedCallFails | voting_contract.py:85-92 | a NoOp call without "vote" as first argument matches no branch, fails, and changes nothing |
| Transitions.VoteThenCloseOutRestores | voting_contract.py:31-83 | an approved vote followed by close-out at a round <= VoteEnd is approved. It restores the choice's tally to its pre-vote value and every other key, and removes the account |
| Transitions.ChoiceCollidesWithConfiguration | voting_contract.py:58-78 | a vote for "VoteEnd" raises VoteEnd by one; a vote for "Creator" is never approved when Creator holds a byte string, as on every ledger after creation |
| Transitions.ScenarioSetUp | voting_contract.py:4-56 | Create(1, 5, 6, 10) is approved, and registering in round 3 is approved and yields a fresh ballot |
| Transitions.ScenarioVoteAndExit | voting_contract.py:31-83 | on that ballot: a vote in round 4 aborts, "X" in round 7 gives tally 1, a second vote in round 9 is refused, and closing out in round 8 gives tally 0 and removes the voter |
| Tally.RetractionSucceeds | voting_contract.py:40-43 | when every vote is backed, the retraction for an opted-in account never panics |
| Tally.VotingKeepsInv | voting_contract.py:78-80 | a vote adds one voter and one to the same tally, so every vote stays backed |
| Tally.ExecuteKeepsInv | voting_contract.py:85-92 | every call to an existing application keeps every recorded vote backed by its tally |
| Tally.ReplayKeepsInv | voting_contract.py:85-118 | any sequence of calls after creation keeps every recorded vote backed |
| Tally.ExitApproved | voting_contract.py:97-118 | when every vote is backed, close-out and clear-state calls by an opted-in account are approved |
| Tally.ExitNeverFails | voting_contract.py:31-47 | after creation and any calls (an approved delete or update counts as keeping the program installed), an opted-in account's close-out and clear-state calls are always approved |
| Tally.CreationStartsCount | voting_contract.py:4-21 | a creation call on a fresh application leaves every vote backed and every tally exact |
| Tally.LeavingKeepsCount | voting_contract.py:31-47 | an exit no later than VoteEnd takes the voter's vote off exactly the tally it was added to, so tallies stay exact |
| Tally.VotingKeepsCount | voting_contract.py:78-80 | a vote adds one voter and one to the same tally, so tallies stay exact |
| Tally.ExecuteKeepsCount | voting_contract.py:85-118 | every call to an existing application keeps every non-configuration tally equal to its number of voters, provided a voter's exit is no later than VoteEnd |
| Tally.ReplayKeepsCount | voting_contract.py:85-118 | any sequence of such calls keeps the tallies exact |
| Tally.TallyCountsVoters | voting_contract.py:58-118 | after creation and any calls whose voter exits are no later than VoteEnd, each non-configuration tally equals the number of opted-in accounts that recorded that choice |
| VotingApp.Application.OnCreation | voting_contract.py:4-21 | the step-by-step creation ends with the outcome and store of `Contract.Creation`, and nothing persists on a panic |
| VotingApp.Application.OnVote | voting_contract.py:64-83 | the step-by-step vote ends with the outcome and state of `Contract.Vote` |
| VotingApp.Application.RetractVote | voting_contract.py:97-118 | the step-by-step retraction ends with the outcome and store of `Contract.Retraction` |
| VotingApp.Application.ApprovalProgram | voting_contract.py:85-92 | the `Cond` dispatch ends with the outcome and state of `Contract.Approval` |
| VotingApp.Application.Submit | voting_contract.py:85-118 | one call ends as `Contract.Execute` says, keeps every vote backed, and approves the exit calls of opted-in accounts |

## Left out

- The `__main__` block, which compiles both programs to TEAL and writes the `.teal` files
  (`voting_contract.py:121-128`). This is file I/O and a foreign compiler.
- PyTeal's compilation to TEAL and AVM bytecode. The model follows the meaning of each
  expression.
- The code replacement done by an approved update call and the removal done by an approved
  delete call. Only the authorisation decision is modelled, and the state is left as it was.
- Host behaviour beyond the local record: fees, signatures, rekeying, minimum balances and
  transaction groups. Round assignment is also left out; the round is a parameter and its
  monotonicity is not needed by any proof.
- Host limits: the global and local schema sizes fixed at creation, key and value length limits,
  and the opcode budget. A vote that would add a global key beyond the schema fails on-chain but
  is approved in the model.
- A creation call whose completion is OptIn also opts the creator in on-chain. The model applies
  only the program's global writes for a creation call.
