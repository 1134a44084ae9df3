/**
  The voting contract as pure functions: each branch of the approval program, the clear-state
  program, the first-match dispatch, and the host's handling of one application call
  (`Execute`), which commits a program's writes only when it approves and creates or removes
  the caller's local record for opt-in, close-out and clear-state calls.
 */
module Contract {
  import opened Avm

  /** An account address, compared byte for byte. */
  type Address = Bytes

  const KeyAppName: Bytes := "AppName"
  const AppNameValue: Bytes := "Community 1 Governance Application"
  const KeyCreator: Bytes := "Creator"
  const KeyRegBegin: Bytes := "RegBegin"
  const KeyRegEnd: Bytes := "RegEnd"
  const KeyVoteBegin: Bytes := "VoteBegin"
  const KeyVoteEnd: Bytes := "VoteEnd"
  /** The first argument that selects the vote branch of a NoOp call. */
  const VoteTag: Bytes := "vote"

  /** The global keys the creation call writes; tallies live in the same map. */
  const ConfigKeys: set<Bytes> := {KeyAppName, KeyCreator, KeyRegBegin, KeyRegEnd, KeyVoteBegin, KeyVoteEnd}

  datatype OnComplete = NoOp | OptIn | CloseOut | ClearState | UpdateApplication | DeleteApplication

  /** An application call: `appId == 0` is the creation call. */
  datatype Txn = Txn(appId: nat, onCompletion: OnComplete, sender: Address, args: seq<Bytes>)

  /**
    The local state of every opted-in account: its only key, "voted", holds the recorded
    choice once the account has voted.
   */
  type Locals = map<Address, Option<Bytes>>

  datatype State = State(global: Store, locals: Locals)

  /** The result of running a program or a whole call: how it ended and the state after it. */
  datatype Step = Step(outcome: Outcome, state: State)

  /** A freshly allocated application, before its creation call. */
  const Empty: State := State(map[], map[])

  /** `App.localGetEx(0, App.id(), "voted")`: no value when the sender has not voted or is not opted in. */
  function VotedOf(locals: Locals, sender: Address): (r: Option<Bytes>)
    ensures r.Some? <==> sender in locals && locals[sender].Some?
    ensures r.Some? ==> locals[sender] == r
  {
    if sender in locals then locals[sender] else None
  }

  /**
    `on_creation`: stores the name and the creator, asserts exactly four arguments and stores
    them, decoded with `btoi`, as the two windows. `None` when the program panics.
   */
  function Creation(g: Store, sender: Address, args: seq<Bytes>): (r: Option<Store>)
    ensures r.Some? <==> |args| == 4 && forall i | 0 <= i < 4 :: |args[i]| <= 8
    ensures r.Some? ==>
      && r.value.Keys == g.Keys + ConfigKeys
      && r.value[KeyAppName] == Raw(AppNameValue)
      && r.value[KeyCreator] == Raw(sender)
      && r.value[KeyRegBegin] == UInt(BigEndian(args[0]))
      && r.value[KeyRegEnd] == UInt(BigEndian(args[1]))
      && r.value[KeyVoteBegin] == UInt(BigEndian(args[2]))
      && r.value[KeyVoteEnd] == UInt(BigEndian(args[3]))
      && forall k | k in g && k !in ConfigKeys :: r.value[k] == g[k]
  {
    if |args| != 4 then None
    else
      match (Btoi(args[0]), Btoi(args[1]), Btoi(args[2]), Btoi(args[3]))
      case (Some(regBegin), Some(regEnd), Some(voteBegin), Some(voteEnd)) =>
        Some(g[KeyAppName := Raw(AppNameValue)][KeyCreator := Raw(sender)]
              [KeyRegBegin := UInt(regBegin)][KeyRegEnd := UInt(regEnd)]
              [KeyVoteBegin := UInt(voteBegin)][KeyVoteEnd := UInt(voteEnd)])
      case _ => None
  }

  /** `is_creator`: the sender compared with the stored creator; bytes compared with an integer panic. */
  function IsCreator(g: Store, sender: Address): (r: Outcome)
    ensures r == Approve <==> KeyCreator in g && g[KeyCreator] == Raw(sender)
    ensures r == Panic <==> KeyCreator !in g || g[KeyCreator].UInt?
  {
    if KeyCreator !in g then Panic
    else match g[KeyCreator]
      case UInt(_) => Panic
      case Raw(creator) => if sender == creator then Approve else Reject
  }

  /** `on_register`: approves exactly inside the registration window. */
  function Register(g: Store, round: nat): (r: Outcome)
    ensures r == Approve <==>
      exists regBegin, regEnd ::
        GlobalUint(g, KeyRegBegin) == Some(regBegin) && GlobalUint(g, KeyRegEnd) == Some(regEnd) &&
        regBegin <= round <= regEnd
  {
    var regBegin, regEnd := GlobalUint(g, KeyRegBegin), GlobalUint(g, KeyRegEnd);
    if regBegin.None? || regEnd.None? then Panic
    else if round >= regBegin.value && round <= regEnd.value then Approve
    else Reject
  }

  /**
    `on_vote`: asserts the voting window, returns 0 on a second vote, and otherwise adds one
    to the tally stored under the raw choice `args[1]` and records the choice locally.
   */
  function Vote(s: State, sender: Address, args: seq<Bytes>, round: nat): (r: Step)
    ensures r.outcome != Approve ==> r.state == s
    ensures r.outcome == Approve ==>
      && |args| >= 2 && sender in s.locals && s.locals[sender] == None
      && GlobalUint(s.global, args[1]).Some?
      && r.state.global == s.global[args[1] := UInt(GlobalUint(s.global, args[1]).value + 1)]
      && r.state.locals == s.locals[sender := Some(args[1])]
  {
    var voteBegin, voteEnd := GlobalUint(s.global, KeyVoteBegin), GlobalUint(s.global, KeyVoteEnd);
    if voteBegin.None? || voteEnd.None? || !(round >= voteBegin.value && round <= voteEnd.value) then
      Step(Panic, s)
    else if VotedOf(s.locals, sender).Some? then
      Step(Reject, s)
    else if |args| < 2 then
      Step(Panic, s)
    else
      var choice := args[1];
      var tally := GlobalUint(s.global, choice);
      if tally.None? || tally.value + 1 > MaxUint64 || sender !in s.locals then
        Step(Panic, s)
      else
        Step(Approve, State(s.global[choice := UInt(tally.value + 1)], s.locals[sender := Some(choice)]))
  }

  /**
    The retraction shared by `on_closeout` and the clear-state program: while the round is at
    most VoteEnd, a recorded vote takes one off its tally. `None` when the AVM panics (VoteEnd
    or the tally is a byte string, or the tally is already 0).
   */
  function Retraction(g: Store, voted: Option<Bytes>, round: nat): (r: Option<Store>)
    ensures r.Some? && r.value != g ==> voted.Some? && r.value.Keys == g.Keys + {voted.value}
    ensures r.Some? ==> forall k | k in g && (voted.None? || k != voted.value) :: r.value[k] == g[k]
  {
    var voteEnd := GlobalUint(g, KeyVoteEnd);
    if voteEnd.None? then None
    else if round <= voteEnd.value && voted.Some? then
      var tally := GlobalUint(g, voted.value);
      if tally.None? || tally.value == 0 then None
      else Some(g[voted.value := UInt(tally.value - 1)])
    else Some(g)
  }

  /** A program that only changes the global store, given as the store it leaves or `None` on a panic. */
  function GlobalStep(s: State, g: Option<Store>): Step
  {
    match g
    case Some(g') => Step(Approve, State(g', s.locals))
    case None => Step(Panic, s)
  }

  /**
    The approval program: the first-match `Cond`; no matching branch is an error. A program
    that does not approve writes nothing; only a vote writes a local record, and only the
    sender's; delete, update and opt-in calls write nothing.
   */
  function Approval(s: State, txn: Txn, round: nat): (r: Step)
    ensures r.outcome != Approve ==> r.state == s
    ensures forall a | a != txn.sender :: VotedOf(r.state.locals, a) == VotedOf(s.locals, a)
    ensures r.state.locals.Keys == s.locals.Keys
    ensures txn.appId != 0 && txn.onCompletion in {DeleteApplication, UpdateApplication, OptIn} ==> r.state == s
  {
    if txn.appId == 0 then
      GlobalStep(s, Creation(s.global, txn.sender, txn.args))
    else if txn.onCompletion == DeleteApplication || txn.onCompletion == UpdateApplication then
      Step(IsCreator(s.global, txn.sender), s)
    else if txn.onCompletion == CloseOut then
      GlobalStep(s, Retraction(s.global, VotedOf(s.locals, txn.sender), round))
    else if txn.onCompletion == OptIn then
      Step(Register(s.global, round), s)
    else if |txn.args| == 0 then
      Step(Panic, s)
    else if txn.args[0] == VoteTag then
      Vote(s, txn.sender, txn.args, round)
    else
      Step(Panic, s)
  }

  /** The clear-state program: the same conditional retraction, then `Return(1)`. */
  function ClearStateProgram(s: State, sender: Address, round: nat): (r: Step)
    ensures r.outcome != Reject
    ensures r.state.locals == s.locals
    ensures r.outcome == Panic ==> r.state == s
    ensures r.outcome == Approve && r.state.global != s.global ==>
      exists v :: VotedOf(s.locals, sender) == Some(v) && r.state.global.Keys == s.global.Keys + {v}
  {
    GlobalStep(s, Retraction(s.global, VotedOf(s.locals, sender), round))
  }

  /**
    The host running one call at a given round. An opt-in by an account already opted in, and
    a close-out or clear-state call by an account that is not, are refused; so are a close-out
    and a clear-state creation call, since no account holds a local record of an application
    that does not exist yet. A clear-state call
    removes the local record whatever its program decides, and keeps its global writes only on
    approval. Every other call keeps all of its program's writes on approval and none otherwise;
    an approved opt-in creates an empty local record and an approved close-out removes it.
   */
  function Execute(s: State, txn: Txn, round: nat): (r: Step)
    ensures txn.appId == 0 && txn.onCompletion in {CloseOut, ClearState} ==> r == Step(Reject, s)
    ensures r.outcome != Approve && !(txn.appId != 0 && txn.onCompletion == ClearState) ==> r.state == s
    ensures r.outcome != Approve ==> r.state.global == s.global
    ensures forall a | a != txn.sender ::
      (a in r.state.locals <==> a in s.locals) && VotedOf(r.state.locals, a) == VotedOf(s.locals, a)
  {
    var sender := txn.sender;
    if txn.onCompletion == ClearState then
      if txn.appId == 0 || sender !in s.locals then Step(Reject, s)
      else
        var p := ClearStateProgram(s, sender, round);
        var g := if p.outcome == Approve then p.state.global else s.global;
        Step(p.outcome, State(g, s.locals - {sender}))
    else if txn.appId != 0 && txn.onCompletion == OptIn && sender in s.locals then
      Step(Reject, s)
    else if txn.onCompletion == CloseOut && (txn.appId == 0 || sender !in s.locals) then
      Step(Reject, s)
    else
      var p := Approval(s, txn, round);
      if p.outcome != Approve then Step(p.outcome, s)
      else if txn.appId != 0 && txn.onCompletion == OptIn then
        Step(Approve, State(p.state.global, p.state.locals[sender := None]))
      else if txn.appId != 0 && txn.onCompletion == CloseOut then
        Step(Approve, State(p.state.global, p.state.locals - {sender}))
      else p
  }
}
