/**
  Every recorded vote is backed by its tally: for each choice, the tally reads as an integer at
  least as large as the number of opted-in accounts whose "voted" entry is that choice. Every
  call after creation keeps this, so on every ledger a creation call leads to, the two exit
  paths cannot panic: close-out and clear-state calls are always approved. Outside the
  configuration keys the bound is an equality as long as voters exit no later than VoteEnd.
 */
module Tally {
  import opened Avm
  import opened Contract

  /** How many opted-in accounts recorded `choice`. */
  function VotersFor(locals: Locals, choice: Bytes): nat
  {
    |set a | a in locals && VotedOf(locals, a) == Some(choice)|
  }

  lemma VotersWithout(locals: Locals, a: Address, choice: Bytes)
    ensures VotersFor(locals, choice) ==
      VotersFor(locals - {a}, choice) + (if a in locals && locals[a] == Some(choice) then 1 else 0)
  {
    var all := set x | x in locals && VotedOf(locals, x) == Some(choice);
    var rest := set x | x in locals - {a} && VotedOf(locals - {a}, x) == Some(choice);
    assert rest == all - {a};
  }

  /** The tally of `choice` covers every account that recorded it. */
  predicate Backed(s: State, choice: Bytes)
  {
    VotersFor(s.locals, choice) == 0 ||
    (GlobalUint(s.global, choice).Some? && VotersFor(s.locals, choice) <= GlobalUint(s.global, choice).value)
  }

  ghost predicate Inv(s: State)
  {
    GlobalUint(s.global, KeyVoteEnd).Some? && forall choice :: Backed(s, choice)
  }

  /** The retraction never panics on an account whose vote is backed. */
  lemma RetractionSucceeds(s: State, sender: Address, round: nat)
    requires Inv(s) && sender in s.locals
    ensures Retraction(s.global, VotedOf(s.locals, sender), round).Some?
  {
    if s.locals[sender].Some? {
      var v := s.locals[sender].value;
      VotersWithout(s.locals, sender, v);
      assert Backed(s, v);
    }
  }

  /** Removing an account whose own vote, if retracted, is taken off its tally keeps every vote backed. */
  lemma LeavingKeepsInv(s: State, sender: Address, round: nat, g: Store)
    requires Inv(s) && sender in s.locals
    requires g == s.global || Retraction(s.global, VotedOf(s.locals, sender), round) == Some(g)
    ensures Inv(State(g, s.locals - {sender}))
  {
    var s' := State(g, s.locals - {sender});
    forall choice ensures Backed(s', choice) {
      VotersWithout(s.locals, sender, choice);
      assert Backed(s, choice);
    }
  }

  /** An opt-in adds an account with no vote: nobody's vote changes. */
  lemma JoiningKeepsInv(s: State, sender: Address)
    requires Inv(s) && sender !in s.locals
    ensures Inv(State(s.global, s.locals[sender := None]))
  {
    var s' := State(s.global, s.locals[sender := None]);
    forall choice ensures Backed(s', choice) {
      VotersWithout(s.locals, sender, choice);
      VotersWithout(s'.locals, sender, choice);
      assert s'.locals - {sender} == s.locals - {sender};
      assert Backed(s, choice);
    }
  }

  /** An accepted vote adds one voter and one to the same tally. */
  lemma VotingKeepsInv(s: State, sender: Address, args: seq<Bytes>, round: nat)
    requires Inv(s)
    ensures Inv(Vote(s, sender, args, round).state)
  {
    var r := Vote(s, sender, args, round);
    if r.outcome == Approve {
      var choice := args[1];
      var s' := r.state;
      forall c ensures Backed(s', c) {
        VotersWithout(s.locals, sender, c);
        VotersWithout(s'.locals, sender, c);
        assert s'.locals - {sender} == s.locals - {sender};
        assert Backed(s, c);
      }
    }
  }

  /** Every call to an existing application keeps every recorded vote backed. */
  lemma ExecuteKeepsInv(s: State, txn: Txn, round: nat)
    requires Inv(s) && txn.appId != 0
    ensures Inv(Execute(s, txn, round).state)
  {
    var sender := txn.sender;
    var r := Execute(s, txn, round);
    if r.outcome == Approve {
      match txn.onCompletion
      case ClearState =>
        LeavingKeepsInv(s, sender, round, r.state.global);
      case CloseOut =>
        LeavingKeepsInv(s, sender, round, r.state.global);
      case OptIn =>
        JoiningKeepsInv(s, sender);
      case NoOp =>
        VotingKeepsInv(s, sender, txn.args, round);
      case _ =>
    } else if txn.onCompletion == ClearState && sender in s.locals {
      LeavingKeepsInv(s, sender, round, s.global);
    }
  }

  /** A call and the round the host runs it at. */
  datatype Call = Call(txn: Txn, round: nat)

  /** The ledger after running `calls` in order. */
  function Replay(s: State, calls: seq<Call>): State
    decreases |calls|
  {
    if calls == [] then s
    else Replay(Execute(s, calls[0].txn, calls[0].round).state, calls[1..])
  }

  lemma {:induction false} ReplayKeepsInv(s: State, calls: seq<Call>)
    requires Inv(s)
    requires forall i | 0 <= i < |calls| :: calls[i].txn.appId != 0
    ensures Inv(Replay(s, calls))
    decreases |calls|
  {
    if calls != [] {
      ExecuteKeepsInv(s, calls[0].txn, calls[0].round);
      ReplayKeepsInv(Execute(s, calls[0].txn, calls[0].round).state, calls[1..]);
    }
  }

  /** On a ledger where every vote is backed, an opted-in account's exit calls are approved. */
  lemma ExitApproved(s: State, txn: Txn, round: nat)
    requires Inv(s) && txn.appId != 0 && txn.sender in s.locals
    requires txn.onCompletion == CloseOut || txn.onCompletion == ClearState
    ensures Execute(s, txn, round).outcome == Approve
  {
    RetractionSucceeds(s, txn.sender, round);
  }

  /** Outside the configuration keys, the tally of `choice` is exactly its number of voters. */
  predicate Counted(s: State, choice: Bytes)
  {
    choice in ConfigKeys || GlobalUint(s.global, choice) == Some(VotersFor(s.locals, choice))
  }

  ghost predicate Exact(s: State)
  {
    forall choice :: Counted(s, choice)
  }

  /** The ledger a creation call leaves on a fresh application has no votes and no tallies. */
  lemma CreationStartsCount(creation: Txn, createdAt: nat)
    requires creation.appId == 0
    ensures Inv(Execute(Empty, creation, createdAt).state)
    ensures Exact(Execute(Empty, creation, createdAt).state)
  {
    var created := Execute(Empty, creation, createdAt);
    assert created.state.locals == map[];
    assert created.state.global.Keys <= ConfigKeys;
    forall choice ensures Backed(created.state, choice) && Counted(created.state, choice) {
      assert (set a | a in created.state.locals && VotedOf(created.state.locals, a) == Some(choice)) == {};
    }
  }

  /** An exit call by an account with a recorded vote comes no later than VoteEnd. */
  predicate TimelyExit(s: State, txn: Txn, round: nat)
  {
    (txn.onCompletion == CloseOut || txn.onCompletion == ClearState) && VotedOf(s.locals, txn.sender).Some? ==>
      GlobalUint(s.global, KeyVoteEnd).Some? && round <= GlobalUint(s.global, KeyVoteEnd).value
  }

  /** A timely exit takes its vote off the tally it was added to. */
  lemma LeavingKeepsCount(s: State, sender: Address, round: nat, g: Store)
    requires Exact(s) && sender in s.locals
    requires Retraction(s.global, VotedOf(s.locals, sender), round) == Some(g)
    requires s.locals[sender].Some? ==> GlobalUint(s.global, KeyVoteEnd).Some? && round <= GlobalUint(s.global, KeyVoteEnd).value
    ensures Exact(State(g, s.locals - {sender}))
  {
    var s' := State(g, s.locals - {sender});
    forall choice ensures Counted(s', choice) {
      VotersWithout(s.locals, sender, choice);
      assert Counted(s, choice);
    }
  }

  /** An opt-in adds an account with no vote: no tally and no count changes. */
  lemma JoiningKeepsCount(s: State, sender: Address)
    requires Exact(s) && sender !in s.locals
    ensures Exact(State(s.global, s.locals[sender := None]))
  {
    var s' := State(s.global, s.locals[sender := None]);
    forall choice ensures Counted(s', choice) {
      VotersWithout(s.locals, sender, choice);
      VotersWithout(s'.locals, sender, choice);
      assert s'.locals - {sender} == s.locals - {sender};
      assert Counted(s, choice);
    }
  }

  /** An accepted vote adds one voter and one to the same tally. */
  lemma VotingKeepsCount(s: State, sender: Address, args: seq<Bytes>, round: nat)
    requires Exact(s)
    ensures Exact(Vote(s, sender, args, round).state)
  {
    var r := Vote(s, sender, args, round);
    if r.outcome == Approve {
      var s' := r.state;
      forall c ensures Counted(s', c) {
        VotersWithout(s.locals, sender, c);
        VotersWithout(s'.locals, sender, c);
        assert s'.locals - {sender} == s.locals - {sender};
        assert Counted(s, c);
      }
    }
  }

  /** Every call to an existing application keeps the tallies exact, provided a voter's exit is timely. */
  lemma ExecuteKeepsCount(s: State, txn: Txn, round: nat)
    requires Inv(s) && Exact(s) && txn.appId != 0 && TimelyExit(s, txn, round)
    ensures Exact(Execute(s, txn, round).state)
  {
    var sender := txn.sender;
    var r := Execute(s, txn, round);
    if (txn.onCompletion == CloseOut || txn.onCompletion == ClearState) && sender in s.locals {
      ExitApproved(s, txn, round);
      LeavingKeepsCount(s, sender, round, r.state.global);
    } else if r.outcome == Approve && txn.onCompletion == OptIn {
      JoiningKeepsCount(s, sender);
    } else if r.outcome == Approve && txn.onCompletion == NoOp {
      VotingKeepsCount(s, sender, txn.args, round);
    }
  }

  /** Every exit call in `calls` by an account with a recorded vote comes no later than VoteEnd. */
  ghost predicate TimelyRun(s: State, calls: seq<Call>)
    decreases |calls|
  {
    calls == [] ||
    (TimelyExit(s, calls[0].txn, calls[0].round) &&
     TimelyRun(Execute(s, calls[0].txn, calls[0].round).state, calls[1..]))
  }

  lemma {:induction false} ReplayKeepsCount(s: State, calls: seq<Call>)
    requires Inv(s) && Exact(s) && TimelyRun(s, calls)
    requires forall i | 0 <= i < |calls| :: calls[i].txn.appId != 0
    ensures Exact(Replay(s, calls))
    decreases |calls|
  {
    if calls != [] {
      ExecuteKeepsInv(s, calls[0].txn, calls[0].round);
      ExecuteKeepsCount(s, calls[0].txn, calls[0].round);
      ReplayKeepsCount(Execute(s, calls[0].txn, calls[0].round).state, calls[1..]);
    }
  }

  /**
    Each recorded choice matches one increment not yet retracted: after creation and any calls
    whose exits by voters come no later than VoteEnd, the tally of every choice other than a
    configuration key equals the number of opted-in accounts that recorded it.
   */
  lemma TallyCountsVoters(creation: Txn, createdAt: nat, calls: seq<Call>, choice: Bytes)
    requires creation.appId == 0
    requires forall i | 0 <= i < |calls| :: calls[i].txn.appId != 0
    requires TimelyRun(Execute(Empty, creation, createdAt).state, calls)
    requires choice !in ConfigKeys
    ensures var s := Replay(Execute(Empty, creation, createdAt).state, calls);
      GlobalUint(s.global, choice) == Some(VotersFor(s.locals, choice))
  {
    var created := Execute(Empty, creation, createdAt);
    CreationStartsCount(creation, createdAt);
    ReplayKeepsCount(created.state, calls);
    assert Counted(Replay(created.state, calls), choice);
  }

  /**
    Exit is a guaranteed escape hatch: after a creation call on a fresh application and any
    sequence of calls to it, an opted-in account's close-out and clear-state calls are approved.
    Approved delete and update calls leave the state as it was, so the sequence is read as
    running against the same installed program.
   */
  lemma ExitNeverFails(creation: Txn, createdAt: nat, calls: seq<Call>, exit: Txn, round: nat)
    requires creation.appId == 0
    requires forall i | 0 <= i < |calls| :: calls[i].txn.appId != 0
    requires exit.appId != 0 && (exit.onCompletion == CloseOut || exit.onCompletion == ClearState)
    ensures var s := Replay(Execute(Empty, creation, createdAt).state, calls);
      exit.sender in s.locals ==> Execute(s, exit, round).outcome == Approve
  {
    var created := Execute(Empty, creation, createdAt);
    CreationStartsCount(creation, createdAt);
    ReplayKeepsInv(created.state, calls);
    var s := Replay(created.state, calls);
    if exit.sender in s.locals {
      ExitApproved(s, exit, round);
    }
  }
}
