/**
  What one application call does to the ledger, call kind by call kind, and how calls combine:
  creation, registration, voting, the two exit paths, the administrative calls and the
  calls no branch of the dispatch accepts.
 */
module Transitions {
  import opened Avm
  import opened Contract

  /** The voting window as stored, when both bounds read as integers. */
  predicate InVoteWindow(g: Store, round: nat)
  {
    GlobalUint(g, KeyVoteBegin).Some? && GlobalUint(g, KeyVoteEnd).Some? &&
    GlobalUint(g, KeyVoteBegin).value <= round <= GlobalUint(g, KeyVoteEnd).value
  }

  /**
    A close-out or clear-state creation call is refused by the host. Any other creation call
    is accepted exactly when four arguments of at most 8 bytes are supplied; it then records
    the sender as creator and the four decoded arguments, in order, as RegBegin, RegEnd,
    VoteBegin and VoteEnd, and writes no other key. Otherwise nothing persists.
   */
  lemma CreationStoresConfiguration(s: State, txn: Txn, round: nat)
    requires txn.appId == 0
    ensures var r := Execute(s, txn, round);
      && (txn.onCompletion in {CloseOut, ClearState} ==> r == Step(Reject, s))
      && (r.outcome == Approve <==>
            && txn.onCompletion !in {CloseOut, ClearState}
            && |txn.args| == 4 && forall i | 0 <= i < 4 :: |txn.args[i]| <= 8)
      && (r.outcome != Approve && txn.onCompletion !in {CloseOut, ClearState} ==> r.outcome == Panic)
      && (r.outcome != Approve ==> r.state == s)
      && (r.outcome == Approve ==>
            && r.state.locals == s.locals
            && r.state.global.Keys == s.global.Keys + ConfigKeys
            && r.state.global[KeyCreator] == Raw(txn.sender)
            && r.state.global[KeyRegBegin] == UInt(BigEndian(txn.args[0]))
            && r.state.global[KeyRegEnd] == UInt(BigEndian(txn.args[1]))
            && r.state.global[KeyVoteBegin] == UInt(BigEndian(txn.args[2]))
            && r.state.global[KeyVoteEnd] == UInt(BigEndian(txn.args[3]))
            && forall k | k in s.global && k !in ConfigKeys :: r.state.global[k] == s.global[k])
  {
  }

  /**
    A client that encodes four rounds with `itob` gets exactly those rounds stored, whatever the
    completion of its creation call, except close-out and clear-state, which the host refuses.
   */
  lemma CreationWithEncodedRounds(s: State, sender: Address, onCompletion: OnComplete, round: nat,
                                  regBegin: nat, regEnd: nat, voteBegin: nat, voteEnd: nat)
    requires regBegin <= MaxUint64 && regEnd <= MaxUint64 && voteBegin <= MaxUint64 && voteEnd <= MaxUint64
    ensures var r := Execute(s, Txn(0, onCompletion, sender, [Itob(regBegin), Itob(regEnd), Itob(voteBegin), Itob(voteEnd)]), round);
      && (onCompletion in {CloseOut, ClearState} ==> r.outcome == Reject)
      && (onCompletion !in {CloseOut, ClearState} ==>
            && r.outcome == Approve
            && GlobalUint(r.state.global, KeyRegBegin) == Some(regBegin)
            && GlobalUint(r.state.global, KeyRegEnd) == Some(regEnd)
            && GlobalUint(r.state.global, KeyVoteBegin) == Some(voteBegin)
            && GlobalUint(r.state.global, KeyVoteEnd) == Some(voteEnd))
  {
    BtoiItob(regBegin);
    BtoiItob(regEnd);
    BtoiItob(voteBegin);
    BtoiItob(voteEnd);
  }

  /**
    An opt-in is accepted iff the account is not yet opted in and RegBegin <= round <= RegEnd;
    it then creates an empty local record and changes nothing else. A refused opt-in changes nothing.
   */
  lemma RegistrationWindow(s: State, txn: Txn, round: nat)
    requires txn.appId != 0 && txn.onCompletion == OptIn
    ensures var r := Execute(s, txn, round);
      && (r.outcome == Approve <==>
            && txn.sender !in s.locals
            && GlobalUint(s.global, KeyRegBegin).Some? && GlobalUint(s.global, KeyRegEnd).Some?
            && GlobalUint(s.global, KeyRegBegin).value <= round <= GlobalUint(s.global, KeyRegEnd).value)
      && (r.outcome == Approve ==> r.state == State(s.global, s.locals[txn.sender := None]))
      && (r.outcome != Approve ==> r.state == s)
  {
    var rb, re := GlobalUint(s.global, KeyRegBegin), GlobalUint(s.global, KeyRegEnd);
    if txn.sender !in s.locals && rb.Some? && re.Some? && rb.value <= round <= re.value {
      assert Register(s.global, round) == Approve;
    }
  }

  /** A vote call: a NoOp call whose first argument is "vote". */
  predicate IsVoteCall(txn: Txn)
  {
    txn.appId != 0 && txn.onCompletion == NoOp && |txn.args| >= 1 && txn.args[0] == VoteTag
  }

  /** A vote outside the voting window aborts and leaves global and local state as they were. */
  lemma VoteOutsideWindowAborts(s: State, txn: Txn, round: nat)
    requires IsVoteCall(txn) && !InVoteWindow(s.global, round)
    ensures Execute(s, txn, round) == Step(Panic, s)
  {
  }

  /**
    A second vote inside the window is refused with `Return(0)`: the tallies and the recorded
    choice stay as they were.
   */
  lemma SecondVoteRejected(s: State, txn: Txn, round: nat, earlier: Bytes)
    requires IsVoteCall(txn) && InVoteWindow(s.global, round)
    requires txn.sender in s.locals && s.locals[txn.sender] == Some(earlier)
    ensures Execute(s, txn, round) == Step(Reject, s)
  {
  }

  /**
    A vote is accepted iff it is inside the window, the sender is opted in and has not voted,
    a choice is given and its tally is an integer below 2^64 - 1. It then adds exactly one to
    the tally of the choice (an absent key counting as 0), records the choice for the sender,
    and changes no other global key and no other account.
   */
  lemma VoteCountsOnce(s: State, txn: Txn, round: nat)
    requires IsVoteCall(txn)
    ensures var r := Execute(s, txn, round);
      && (r.outcome == Approve <==>
            && InVoteWindow(s.global, round)
            && txn.sender in s.locals && s.locals[txn.sender] == None
            && |txn.args| >= 2
            && GlobalUint(s.global, txn.args[1]).Some?
            && GlobalUint(s.global, txn.args[1]).value < MaxUint64)
      && (r.outcome != Approve ==> r.state == s)
      && (r.outcome == Approve ==>
            && GlobalUint(r.state.global, txn.args[1]).Some?
            && GlobalUint(r.state.global, txn.args[1]).value == GlobalUint(s.global, txn.args[1]).value + 1
            && r.state.global.Keys == s.global.Keys + {txn.args[1]}
            && (forall k | k in s.global && k != txn.args[1] :: r.state.global[k] == s.global[k])
            && r.state.locals.Keys == s.locals.Keys
            && r.state.locals[txn.sender] == Some(txn.args[1])
            && forall a | a in s.locals && a != txn.sender :: r.state.locals[a] == s.locals[a])
  {
  }

  /**
    A close-out by an opted-in account removes its local record. While the round is at most
    VoteEnd, a recorded vote `v` takes exactly one off `global[v]`; otherwise the global state
    is unchanged. It is approved unless VoteEnd or the tally to lower is not an integer, or that
    tally is already 0; those panics change nothing.
   */
  lemma CloseOutRetracts(s: State, appId: nat, sender: Address, args: seq<Bytes>, round: nat)
    requires appId != 0 && sender in s.locals
    ensures var r := Execute(s, Txn(appId, CloseOut, sender, args), round);
      && (r.outcome == Approve || (r.outcome == Panic && r.state == s))
      && (r.outcome == Approve <==>
            && GlobalUint(s.global, KeyVoteEnd).Some?
            && (round <= GlobalUint(s.global, KeyVoteEnd).value && s.locals[sender].Some? ==>
                  GlobalUint(s.global, s.locals[sender].value).Some? &&
                  GlobalUint(s.global, s.locals[sender].value).value >= 1))
      && (r.outcome == Approve ==>
            && r.state.locals == s.locals - {sender}
            && if round <= GlobalUint(s.global, KeyVoteEnd).value && s.locals[sender].Some? then
                 var v := s.locals[sender].value;
                 r.state.global == s.global[v := UInt(GlobalUint(s.global, v).value - 1)]
               else
                 r.state.global == s.global)
  {
  }

  /**
    The two exit paths agree: whenever close-out is approved, the clear-state call is approved
    and leaves the same state. When the retraction panics, close-out changes nothing while the
    clear-state call still removes the local record.
   */
  lemma ExitPathsAgree(s: State, appId: nat, sender: Address, closeArgs: seq<Bytes>, clearArgs: seq<Bytes>, round: nat)
    requires appId != 0 && sender in s.locals
    ensures var closeOut := Execute(s, Txn(appId, CloseOut, sender, closeArgs), round);
            var clear := Execute(s, Txn(appId, ClearState, sender, clearArgs), round);
      && closeOut.outcome == clear.outcome
      && (closeOut.outcome == Approve ==> clear.state == closeOut.state)
      && (closeOut.outcome != Approve ==> clear.state == State(s.global, s.locals - {sender}))
  {
  }

  /**
    Delete and update calls are approved iff the sender is the stored creator; neither changes
    the tallies or any local record.
   */
  lemma AdministrationNeedsCreator(s: State, txn: Txn, round: nat)
    requires txn.appId != 0 && txn.onCompletion in {DeleteApplication, UpdateApplication}
    ensures Execute(s, txn, round).state == s
    ensures Execute(s, txn, round).outcome == Approve <==> KeyCreator in s.global && s.global[KeyCreator] == Raw(txn.sender)
  {
  }

  /** A NoOp call whose first argument is missing or is not "vote" matches no branch and fails. */
  lemma UnmatchedCallFails(s: State, txn: Txn, round: nat)
    requires txn.appId != 0 && txn.onCompletion == NoOp && (|txn.args| == 0 || txn.args[0] != VoteTag)
    ensures Execute(s, txn, round) == Step(Panic, s)
  {
  }

  /**
    Voting and then closing out at a round no later than VoteEnd is undone: the tally of the
    choice is back to its value before the vote (an absent key now holds 0), every other key is
    as before, and the account has left.
   */
  lemma VoteThenCloseOutRestores(s: State, txn: Txn, round: nat, exitArgs: seq<Bytes>, exitRound: nat)
    requires IsVoteCall(txn) && |txn.args| >= 2
    requires Execute(s, txn, round).outcome == Approve
    requires GlobalUint(s.global, KeyVoteEnd).Some? && exitRound <= GlobalUint(s.global, KeyVoteEnd).value
    ensures var choice := txn.args[1];
            var voted := Execute(s, txn, round).state;
            var r := Execute(voted, Txn(txn.appId, CloseOut, txn.sender, exitArgs), exitRound);
      && r.outcome == Approve
      && GlobalUint(r.state.global, choice) == GlobalUint(s.global, choice)
      && r.state.global == s.global[choice := UInt(GlobalUint(s.global, choice).value)]
      && r.state.locals == s.locals - {txn.sender}
  {
    var choice := txn.args[1];
    var voted := Execute(s, txn, round).state;
    VoteCountsOnce(s, txn, round);
    // a vote for "VoteEnd" itself moves VoteEnd up by one, so the exit round is still inside
    assert GlobalUint(voted.global, KeyVoteEnd).value >= GlobalUint(s.global, KeyVoteEnd).value;
    CloseOutRetracts(voted, txn.appId, txn.sender, exitArgs, exitRound);
    assert (voted.locals - {txn.sender}) == s.locals - {txn.sender};
  }

  /**
    Choices are raw keys of the global store: a vote for "VoteEnd" extends the voting window by
    one round, and a vote for "Creator" (a byte string) panics.
   */
  lemma ChoiceCollidesWithConfiguration(s: State, txn: Txn, round: nat)
    requires IsVoteCall(txn) && |txn.args| >= 2
    ensures txn.args[1] == KeyVoteEnd && Execute(s, txn, round).outcome == Approve ==>
      GlobalUint(Execute(s, txn, round).state.global, KeyVoteEnd).value == GlobalUint(s.global, KeyVoteEnd).value + 1
    ensures txn.args[1] == KeyCreator && KeyCreator in s.global && s.global[KeyCreator].Raw? ==>
      Execute(s, txn, round).outcome != Approve
  {
    VoteCountsOnce(s, txn, round);
  }

  /** A ballot with registration in rounds 1..5 and voting in rounds 6..10, one registered voter and no votes. */
  predicate FreshBallot(s: State, voter: Address)
  {
    && GlobalUint(s.global, KeyRegBegin) == Some(1) && GlobalUint(s.global, KeyRegEnd) == Some(5)
    && GlobalUint(s.global, KeyVoteBegin) == Some(6) && GlobalUint(s.global, KeyVoteEnd) == Some(10)
    && s.global.Keys == ConfigKeys
    && s.locals == map[voter := None]
  }

  /** Creating a ballot with rounds 1, 5, 6, 10 and registering in round 3 succeed. */
  lemma ScenarioSetUp(creator: Address, voter: Address)
    ensures var created := Execute(Empty, Txn(0, NoOp, creator, [Itob(1), Itob(5), Itob(6), Itob(10)]), 0);
            var registered := Execute(created.state, Txn(1, OptIn, voter, []), 3);
      && created.outcome == Approve
      && registered.outcome == Approve
      && FreshBallot(registered.state, voter)
  {
    var created := Execute(Empty, Txn(0, NoOp, creator, [Itob(1), Itob(5), Itob(6), Itob(10)]), 0);
    CreationWithEncodedRounds(Empty, creator, NoOp, 0, 1, 5, 6, 10);
    CreationStoresConfiguration(Empty, Txn(0, NoOp, creator, [Itob(1), Itob(5), Itob(6), Itob(10)]), 0);
    RegistrationWindow(created.state, Txn(1, OptIn, voter, []), 3);
  }

  /**
    On that ballot the voter cannot vote in round 4, votes "X" in round 7, cannot vote again
    in round 9, and closing out in round 8 takes the vote back off the tally.
   */
  lemma ScenarioVoteAndExit(s: State, voter: Address)
    requires FreshBallot(s, voter)
    ensures var x: Bytes := "X";
            var voted := Execute(s, Txn(1, NoOp, voter, [VoteTag, x]), 7);
            var left := Execute(voted.state, Txn(1, CloseOut, voter, []), 8);
      && Execute(s, Txn(1, NoOp, voter, [VoteTag, x]), 4) == Step(Panic, s)
      && voted.outcome == Approve && GlobalUint(voted.state.global, x) == Some(1)
      && Execute(voted.state, Txn(1, NoOp, voter, [VoteTag, "B"]), 9) == Step(Reject, voted.state)
      && left.outcome == Approve && GlobalUint(left.state.global, x) == Some(0)
      && voter !in left.state.locals
  {
    var x: Bytes := "X";
    assert x !in ConfigKeys;
    VoteOutsideWindowAborts(s, Txn(1, NoOp, voter, [VoteTag, x]), 4);
    var voted := Execute(s, Txn(1, NoOp, voter, [VoteTag, x]), 7);
    VoteCountsOnce(s, Txn(1, NoOp, voter, [VoteTag, x]), 7);
    assert voted.state.global == s.global[x := UInt(1)];
    assert voted.state.locals == map[voter := Some(x)];
    SecondVoteRejected(voted.state, Txn(1, NoOp, voter, [VoteTag, "B"]), 9, x);
    CloseOutRetracts(voted.state, 1, voter, [], 8);
  }
}
