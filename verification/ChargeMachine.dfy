/**
 The life of an agent charge: the guard of `shared/stateMachineGuards.ts`, the database
 trigger that is meant to mirror it, and what holds of every run the guard accepts.
 */
module ChargeMachine {
  import opened Wrappers

  /** The closed set of statuses, and anything else a caller might pass. */
  datatype Status =
    | Proposed
    | PendingApproval
    | Approved
    | Executed
    | Succeeded
    | Failed
    | Blocked
    | Denied
    | Disputed
    | ShadowSettled
    | Refunded
    | Unrecognised(text: string)

  datatype Caller =
    | ChargeRouter
    | StripeWebhook
    | TimeoutJob
    | WorkerCompletion
    | ApprovalExpiryJob
    | RetentionPurge

  // ------------------------------------------------------------------ the guard

  predicate IsAllowed(from: Status, to: Status, caller: Caller) {
    match from
    case Proposed => to == Blocked || to == PendingApproval || to == Approved
    case PendingApproval => to == Approved || to == Denied
    case Approved => to == Blocked || to == Executed || to == ShadowSettled
    case Executed => to == Succeeded || to == Failed
    case Succeeded => to == Refunded || to == Disputed
    case Disputed => to == Succeeded || to == Refunded
    case Failed => to == Succeeded && caller == StripeWebhook
    case _ => false
  }

  datatype Verdict = Accepted | UnknownTarget | Forbidden

  /** `assertValidAgentChargeTransition`: same-state writes pass, then the target is checked, then the table. */
  function Assert(from: Status, to: Status, caller: Caller): Verdict {
    if from == to then Accepted
    else if to.Unrecognised? then UnknownTarget
    else if IsAllowed(from, to, caller) then Accepted
    else Forbidden
  }

  /** Which of the two refusals a write meets: an unknown target is refused as such, whatever the table says. */
  lemma Refusals(from: Status, to: Status, caller: Caller)
    ensures Assert(from, from, caller) == Accepted
    ensures Assert(from, to, caller) == UnknownTarget <==> to.Unrecognised? && to != from
    ensures Assert(from, to, caller) == Forbidden <==>
            !to.Unrecognised? && to != from && !TriggerPasses(from, to, Some(caller))
  {
  }

  // ------------------------------------------------------------------ the trigger

  /** The setting the trigger reads; it may be unset. */
  predicate TriggerCase(old_: Status, new_: Status, caller: Option<Caller>) {
    if old_ == Proposed && new_ in {Blocked, PendingApproval, Approved} then true
    else if old_ == PendingApproval && new_ in {Approved, Denied} then true
    else if old_ == Approved && new_ in {Blocked, Executed, ShadowSettled} then true
    else if old_ == Executed && new_ in {Succeeded, Failed} then true
    else if old_ == Succeeded && new_ in {Refunded, Disputed} then true
    else if old_ == Disputed && new_ in {Succeeded, Refunded} then true
    else if old_ == Failed && new_ == Succeeded then caller == Some(StripeWebhook)
    else false
  }

  /** The status part of the trigger: it looks at the transition only when the status changes. */
  predicate TriggerPasses(from: Status, to: Status, caller: Option<Caller>) {
    from == to || TriggerCase(from, to, caller)
  }

  /** Guard and trigger agree on every transition from a column value, for every caller. */
  lemma GuardMirrorsTrigger(from: Status, to: Status, caller: Caller)
    requires !from.Unrecognised?
    ensures Assert(from, to, caller) == Accepted <==> TriggerPasses(from, to, Some(caller))
  {
  }

  /** With the caller unset, the trigger passes exactly what the guard accepts from every caller. */
  lemma UnsetCallerIsLeast(from: Status, to: Status)
    requires !from.Unrecognised?
    ensures TriggerPasses(from, to, None) <==> forall c :: Assert(from, to, c) == Accepted
  {
    GuardMirrorsTrigger(from, to, ChargeRouter);
    forall c ensures TriggerPasses(from, to, None) ==> TriggerPasses(from, to, Some(c)) {}
    assert TriggerPasses(from, to, Some(ChargeRouter)) ==> TriggerPasses(from, to, None);
    if TriggerPasses(from, to, None) {
      forall c ensures Assert(from, to, c) == Accepted { GuardMirrorsTrigger(from, to, c); }
    }
  }

  // ------------------------------------------------------------------ runs

  /** A status write: the new status and who asked for it. */
  datatype Move = Move(to: Status, caller: Caller)

  /** The statuses of a charge that makes the moves from `from`, all of them accepted. */
  predicate AcceptedRun(from: Status, moves: seq<Move>)
    decreases |moves|
  {
    moves == [] || (Assert(from, moves[0].to, moves[0].caller) == Accepted && AcceptedRun(moves[0].to, moves[1..]))
  }

  function StatusAt(from: Status, moves: seq<Move>, i: nat): Status
    requires i <= |moves|
  {
    if i == 0 then from else moves[i - 1].to
  }

  /** One step of the run is accepted. */
  lemma {:induction false} StepAccepted(from: Status, moves: seq<Move>, i: nat)
    requires AcceptedRun(from, moves) && i < |moves|
    ensures Assert(StatusAt(from, moves, i), moves[i].to, moves[i].caller) == Accepted
    decreases |moves|
  {
    if i > 0 {
      StepAccepted(moves[0].to, moves[1..], i - 1);
    }
  }

  /** The status was held at some point no later than `i`. */
  ghost predicate Held(from: Status, moves: seq<Move>, i: nat, s: Status)
    requires i <= |moves|
  {
    exists k :: 0 <= k <= i && StatusAt(from, moves, k) == s
  }

  lemma HeldEarlier(from: Status, moves: seq<Move>, i: nat, j: nat, s: Status)
    requires i <= j <= |moves| && Held(from, moves, i, s)
    ensures Held(from, moves, j, s)
  {
  }

  predicate AfterApproval(s: Status) {
    s == Executed || s == ShadowSettled || s == Succeeded || s == Failed || s == Disputed || s == Refunded
  }

  predicate AfterExecution(s: Status) { s == Succeeded || s == Failed || s == Disputed || s == Refunded }

  /** Nothing is executed or settled that was not approved, and nothing succeeds or fails that was not executed. */
  lemma {:induction false} NoMoneyWithoutApproval(moves: seq<Move>, i: nat)
    requires AcceptedRun(Proposed, moves) && i <= |moves|
    ensures AfterApproval(StatusAt(Proposed, moves, i)) ==> Held(Proposed, moves, i, Approved)
    ensures AfterExecution(StatusAt(Proposed, moves, i)) ==> Held(Proposed, moves, i, Executed)
  {
    if i > 0 {
      NoMoneyWithoutApproval(moves, i - 1);
      StepAccepted(Proposed, moves, i - 1);
      var was := StatusAt(Proposed, moves, i - 1);
      assert StatusAt(Proposed, moves, i) == moves[i - 1].to;
      if Held(Proposed, moves, i - 1, Approved) { HeldEarlier(Proposed, moves, i - 1, i, Approved); }
      if Held(Proposed, moves, i - 1, Executed) { HeldEarlier(Proposed, moves, i - 1, i, Executed); }
      if was == Approved { assert Held(Proposed, moves, i, Approved); }
      if StatusAt(Proposed, moves, i) == Executed { assert Held(Proposed, moves, i, Executed); }
    }
  }

  /** How far along a charge is. */
  function Rank(s: Status): nat {
    match s
    case Proposed => 0
    case PendingApproval => 1
    case Approved => 2
    case Executed => 3
    case Failed => 4
    case Succeeded => 5
    case Disputed => 5
    case _ => 6
  }

  /** Every accepted step that changes the status raises the rank, or goes between succeeded and disputed. */
  lemma StepsRise(from: Status, to: Status, caller: Caller)
    requires Assert(from, to, caller) == Accepted && from != to
    ensures Rank(from) < Rank(to) || (from == Succeeded && to == Disputed) || (from == Disputed && to == Succeeded)
  {
  }

  lemma {:induction false} RanksNeverFall(from: Status, moves: seq<Move>, i: nat, j: nat)
    requires AcceptedRun(from, moves) && i <= j <= |moves|
    ensures Rank(StatusAt(from, moves, i)) <= Rank(StatusAt(from, moves, j))
    decreases j
  {
    if i < j {
      RanksNeverFall(from, moves, i, j - 1);
      StepAccepted(from, moves, j - 1);
      var was := StatusAt(from, moves, j - 1);
      if was != moves[j - 1].to { StepsRise(was, moves[j - 1].to, moves[j - 1].caller); }
    }
  }

  /** The step at `i` leaves the status. */
  predicate Leaves(from: Status, moves: seq<Move>, i: nat, s: Status)
    requires i < |moves|
  {
    StatusAt(from, moves, i) == s && moves[i].to != s
  }

  /** A failed charge is revived at most once, only into succeeded, and only by the payment webhook. */
  lemma FailedIsLeftOnce(moves: seq<Move>, i: nat, from: Status)
    requires AcceptedRun(from, moves) && i < |moves| && Leaves(from, moves, i, Failed)
    ensures moves[i].caller == StripeWebhook && moves[i].to == Succeeded
    ensures forall j :: 0 <= j < |moves| && j != i ==> !Leaves(from, moves, j, Failed)
    ensures forall j :: i < j <= |moves| ==> StatusAt(from, moves, j) != Failed
  {
    StepAccepted(from, moves, i);
    forall j | i < j <= |moves| ensures StatusAt(from, moves, j) != Failed {
      RanksNeverFall(from, moves, i + 1, j);
    }
    forall j | 0 <= j < i ensures !Leaves(from, moves, j, Failed) {
      if Leaves(from, moves, j, Failed) {
        StepAccepted(from, moves, j);
        RanksNeverFall(from, moves, j + 1, i);
        assert false;
      }
    }
  }

  /** The number of steps that change the status, other than between succeeded and disputed. */
  function Rises(from: Status, moves: seq<Move>): nat
    decreases |moves|
  {
    if moves == [] then 0
    else
      var to := moves[0].to;
      (if from != to && Rank(from) != Rank(to) then 1 else 0) + Rises(to, moves[1..])
  }

  /** Retries aside, a charge makes at most six steps, not counting the moves in and out of dispute. */
  lemma {:induction false} FewRises(from: Status, moves: seq<Move>)
    requires AcceptedRun(from, moves)
    ensures Rank(from) + Rises(from, moves) <= 6
    decreases |moves|
  {
    if moves != [] {
      var to := moves[0].to;
      FewRises(to, moves[1..]);
      if from != to { StepsRise(from, to, moves[0].caller); }
    }
  }

  predicate Final(s: Status) { s == Blocked || s == Denied || s == ShadowSettled || s == Refunded }

  /** Blocked, denied, shadow-settled and refunded are for good, and they are the only statuses that are. */
  lemma FinalIsForGood(s: Status)
    requires !s.Unrecognised?
    ensures Final(s) <==> forall to, c :: Assert(s, to, c) == Accepted ==> to == s
  {
    match s {
      case Proposed => assert Assert(s, Blocked, ChargeRouter) == Accepted;
      case PendingApproval => assert Assert(s, Denied, ChargeRouter) == Accepted;
      case Approved => assert Assert(s, Blocked, ChargeRouter) == Accepted;
      case Executed => assert Assert(s, Failed, ChargeRouter) == Accepted;
      case Succeeded => assert Assert(s, Refunded, ChargeRouter) == Accepted;
      case Disputed => assert Assert(s, Refunded, ChargeRouter) == Accepted;
      case Failed => assert Assert(s, Succeeded, StripeWebhook) == Accepted;
      case _ =>
    }
  }

  /** An accepted run from a known status never reaches an unknown one. */
  lemma {:induction false} StaysKnown(from: Status, moves: seq<Move>, i: nat)
    requires AcceptedRun(from, moves) && i <= |moves| && !from.Unrecognised?
    ensures !StatusAt(from, moves, i).Unrecognised?
  {
    if i > 0 {
      StaysKnown(from, moves, i - 1);
      StepAccepted(from, moves, i - 1);
    }
  }

  ghost predicate Reachable(s: Status) {
    exists moves :: AcceptedRun(Proposed, moves) && StatusAt(Proposed, moves, |moves|) == s
  }

  lemma {:induction false} AcceptedOneMore(from: Status, moves: seq<Move>, m: Move)
    requires AcceptedRun(from, moves) && Assert(StatusAt(from, moves, |moves|), m.to, m.caller) == Accepted
    ensures AcceptedRun(from, moves + [m])
    decreases |moves|
  {
    if moves == [] {
      assert [m][1..] == [];
    } else {
      assert (moves + [m])[0] == moves[0] && (moves + [m])[1..] == moves[1..] + [m];
      AcceptedOneMore(moves[0].to, moves[1..], m);
    }
  }

  lemma ReachNext(s: Status, to: Status, c: Caller)
    requires Reachable(s) && Assert(s, to, c) == Accepted
    ensures Reachable(to)
  {
    var moves :| AcceptedRun(Proposed, moves) && StatusAt(Proposed, moves, |moves|) == s;
    AcceptedOneMore(Proposed, moves, Move(to, c));
    assert StatusAt(Proposed, moves + [Move(to, c)], |moves| + 1) == to;
  }

  /** Every known status can be reached from `proposed`. */
  lemma EveryStatusReachable(s: Status)
    requires !s.Unrecognised?
    ensures Reachable(s)
  {
    ExecutedReachable();
    match s
    case Denied => ReachNext(PendingApproval, Denied, ChargeRouter);
    case Blocked => ReachNext(Approved, Blocked, ChargeRouter);
    case ShadowSettled => ReachNext(Approved, ShadowSettled, ChargeRouter);
    case Failed => ReachNext(Executed, Failed, ChargeRouter);
    case Disputed => ReachNext(Succeeded, Disputed, ChargeRouter);
    case Refunded => ReachNext(Succeeded, Refunded, ChargeRouter);
    case _ =>
  }

  lemma ExecutedReachable()
    ensures Reachable(Proposed) && Reachable(PendingApproval) && Reachable(Approved)
    ensures Reachable(Executed) && Reachable(Succeeded)
  {
    assert AcceptedRun(Proposed, []) && StatusAt(Proposed, [], 0) == Proposed;
    ReachNext(Proposed, PendingApproval, ChargeRouter);
    ReachNext(PendingApproval, Approved, ChargeRouter);
    ReachNext(Approved, Executed, ChargeRouter);
    ReachNext(Executed, Succeeded, ChargeRouter);
  }

  /** The webhook can still turn a failed charge into a successful one, and a dispute can be lost or won. */
  lemma LateMoves()
    ensures forall c :: Assert(Failed, Succeeded, c) == Accepted <==> c == StripeWebhook
    ensures forall c :: Assert(Disputed, Succeeded, c) == Accepted && Assert(Disputed, Refunded, c) == Accepted
    ensures forall c :: Assert(Proposed, Blocked, c) == Accepted && Assert(Proposed, Approved, c) == Accepted
    ensures forall c :: Assert(Succeeded, Refunded, c) == Accepted
  {
  }
}
