/**
  The contract as the host runs it on one application: the global store and the local records
  are fields, and each program updates them step by step as its `Seq` block does. Writes go to
  working copies that are stored back only when the program approves, which is how the AVM
  discards the effects of a rejected or failed call.
 */
module VotingApp {
  import opened Avm
  import opened Contract
  import Tally

  class Application {
    var global: Store
    var locals: Locals

    /** A freshly allocated application, before its creation call. */
    constructor ()
      ensures Current() == Empty
    {
      global := map[];
      locals := map[];
    }

    function Current(): State
      reads this
    {
      State(global, locals)
    }

    /** `on_creation`. */
    method OnCreation(sender: Address, args: seq<Bytes>) returns (outcome: Outcome)
      modifies this
      ensures Step(outcome, Current()) == GlobalStep(old(Current()), Creation(old(global), sender, args))
    {
      var g := global;
      g := g[KeyAppName := Raw(AppNameValue)];
      g := g[KeyCreator := Raw(sender)];
      if |args| != 4 {
        return Panic;
      }
      var regBegin := Btoi(args[0]);
      if regBegin.None? {
        return Panic;
      }
      g := g[KeyRegBegin := UInt(regBegin.value)];
      var regEnd := Btoi(args[1]);
      if regEnd.None? {
        return Panic;
      }
      g := g[KeyRegEnd := UInt(regEnd.value)];
      var voteBegin := Btoi(args[2]);
      if voteBegin.None? {
        return Panic;
      }
      g := g[KeyVoteBegin := UInt(voteBegin.value)];
      var voteEnd := Btoi(args[3]);
      if voteEnd.None? {
        return Panic;
      }
      g := g[KeyVoteEnd := UInt(voteEnd.value)];
      global := g;
      outcome := Approve;
    }

    /** `on_vote`. */
    method OnVote(sender: Address, args: seq<Bytes>, round: nat) returns (outcome: Outcome)
      modifies this
      ensures Step(outcome, Current()) == Vote(old(Current()), sender, args, round)
    {
      var voteBegin, voteEnd := GlobalUint(global, KeyVoteBegin), GlobalUint(global, KeyVoteEnd);
      if voteBegin.None? || voteEnd.None? || !(round >= voteBegin.value && round <= voteEnd.value) {
        return Panic;
      }
      if VotedOf(locals, sender).Some? {
        return Reject;
      }
      if |args| < 2 {
        return Panic;
      }
      var choice := args[1];
      var tally := GlobalUint(global, choice);
      if tally.None? || tally.value + 1 > MaxUint64 {
        return Panic;
      }
      var g := global[choice := UInt(tally.value + 1)];
      // App.localPut fails for an account that has not opted in
      if sender !in locals {
        return Panic;
      }
      global, locals := g, locals[sender := Some(choice)];
      outcome := Approve;
    }

    /** The retraction of `on_closeout` and of the clear-state program, both ending in `Return(1)`. */
    method RetractVote(sender: Address, round: nat) returns (outcome: Outcome)
      modifies this
      ensures Step(outcome, Current()) == GlobalStep(old(Current()), Retraction(old(global), VotedOf(old(locals), sender), round))
    {
      var voted := VotedOf(locals, sender);
      var voteEnd := GlobalUint(global, KeyVoteEnd);
      if voteEnd.None? {
        return Panic;
      }
      if round <= voteEnd.value && voted.Some? {
        var tally := GlobalUint(global, voted.value);
        if tally.None? || tally.value == 0 {
          return Panic;
        }
        global := global[voted.value := UInt(tally.value - 1)];
      }
      outcome := Approve;
    }

    /** The approval program's `Cond`: the first branch whose condition holds runs. */
    method ApprovalProgram(txn: Txn, round: nat) returns (outcome: Outcome)
      modifies this
      ensures Step(outcome, Current()) == Approval(old(Current()), txn, round)
    {
      if txn.appId == 0 {
        outcome := OnCreation(txn.sender, txn.args);
      } else if txn.onCompletion == DeleteApplication || txn.onCompletion == UpdateApplication {
        outcome := IsCreator(global, txn.sender);
      } else if txn.onCompletion == CloseOut {
        outcome := RetractVote(txn.sender, round);
      } else if txn.onCompletion == OptIn {
        outcome := Register(global, round);
      } else if |txn.args| == 0 {
        outcome := Panic;
      } else if txn.args[0] == VoteTag {
        outcome := OnVote(txn.sender, txn.args, round);
      } else {
        outcome := Panic;
      }
    }

    /**
      One call run by the host. After creation, every call keeps every recorded vote backed by
      its tally, and on such a ledger the exit calls of an opted-in account are approved.
     */
    method Submit(txn: Txn, round: nat) returns (outcome: Outcome)
      modifies this
      ensures Step(outcome, Current()) == Execute(old(Current()), txn, round)
      ensures txn.appId != 0 && old(Tally.Inv(Current())) ==> Tally.Inv(Current())
      ensures (txn.appId != 0 && old(Tally.Inv(Current())) && txn.sender in old(locals) &&
               (txn.onCompletion == CloseOut || txn.onCompletion == ClearState)) ==> outcome == Approve
    {
      ghost var before := Current();
      var sender := txn.sender;
      if txn.onCompletion == ClearState {
        if txn.appId == 0 || sender !in locals {
          return Reject;
        }
        outcome := RetractVote(sender, round);
        // the host clears the local record whatever the program returns
        locals := locals - {sender};
      } else if txn.appId != 0 && txn.onCompletion == OptIn && sender in locals {
        return Reject;
      } else if txn.onCompletion == CloseOut && (txn.appId == 0 || sender !in locals) {
        return Reject;
      } else {
        outcome := ApprovalProgram(txn, round);
        if outcome == Approve && txn.appId != 0 && txn.onCompletion == OptIn {
          locals := locals[sender := None];
        } else if outcome == Approve && txn.appId != 0 && txn.onCompletion == CloseOut {
          locals := locals - {sender};
        }
      }
      if txn.appId != 0 && Tally.Inv(before) {
        Tally.ExecuteKeepsInv(before, txn, round);
        if sender in before.locals && (txn.onCompletion == CloseOut || txn.onCompletion == ClearState) {
          Tally.ExitApproved(before, txn, round);
        }
      }
    }
  }
}
