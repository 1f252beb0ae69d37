/** The manual approval and the automatic-release worker paying the same milestones. */
module MilestonePayouts {
  import opened Options
  import opened MilestoneLifecycle
  import opened MilestoneProtocol
  import opened SetSizes

  // ------------------------------------------------------------------ withdrawal rows

  /** No milestone has both a manual claim, and so no manual submission, and an automatic withdrawal row. */
  ghost predicate PathsApart(s: System) {
    forall i | 0 <= i < |s.db.withdrawals| && !s.db.withdrawals[i].manual ::
      !Marked(s.claims, s.db.withdrawals[i].milestone)
  }

  /** The worker finalises a release whose attempt was handed back and whose milestone was then claimed manually. */
  ghost predicate Overtakes(s: System, e: Event) {
    && e.WorkerFinalize? && e.id in s.landed && e.id in s.db.attempts && s.db.attempts[e.id] == Failed
    && e.id in s.db.rows && s.db.rows[e.id].status != Released
    && Marked(s.claims, e.id)
  }

  lemma MarkedNext(marks: seq<Mark>, m: Mark, id: Id)
    ensures Marked(marks + [m], id) <==> Marked(marks, id) || m.id == id
  {
    assert m in marks + [m];
  }

  /** A claimed milestone has not been paid automatically: a paid one is released and cannot be claimed. */
  lemma ClaimKeepsApart(s: System, id: Id, p: nat)
    requires Inv(s) && Claimable(s.db, id)
    ensures forall i | 0 <= i < |s.db.withdrawals| && !s.db.withdrawals[i].manual ::
              Marked(s.claims + [Mark(p, id)], s.db.withdrawals[i].milestone) ==> Marked(s.claims, s.db.withdrawals[i].milestone)
  {
    assert RowInv(s.db, id);
    forall i | 0 <= i < |s.db.withdrawals| && !s.db.withdrawals[i].manual
      ensures Marked(s.claims + [Mark(p, id)], s.db.withdrawals[i].milestone) ==> Marked(s.claims, s.db.withdrawals[i].milestone)
    {
      MarkedNext(s.claims, Mark(p, id), s.db.withdrawals[i].milestone);
      assert Paid(s.db, s.db.withdrawals[i].milestone);
    }
  }

  /** A finalisation that writes a row for a claimed milestone meets a failed attempt. */
  lemma FinalizeOfClaimed(s: System, e: Event)
    requires Inv(s) && e.WorkerFinalize? && e.id in s.landed && Finalizes(s.db, e.id)
    ensures Overtakes(s, e) <==> Marked(s.claims, e.id)
  {
    if Marked(s.claims, e.id) {
      var m :| m in s.claims && m.id == e.id;
      assert MarkInv(s.db, m);
    }
  }

  lemma StepPathsApart(s: System, e: Event)
    requires Inv(s)
    ensures PathsApart(Step(s, e)) <==> PathsApart(s) && !Overtakes(s, e)
  {
    HistoriesGrow(s, e);
    hide Step, Inv, DbInv;
    var s' := Step(s, e);
    var n := |s.db.withdrawals|;
    if s'.claims != s.claims {
      ClaimKeepsApart(s, s.At(e.p).id, e.p);
      if PathsApart(s') {
        forall i | 0 <= i < n && !s.db.withdrawals[i].manual ensures !Marked(s.claims, s.db.withdrawals[i].milestone) {
          MarkedNext(s.claims, Mark(e.p, s.At(e.p).id), s.db.withdrawals[i].milestone);
        }
      }
    } else {
      if e.WorkerFinalize? && e.id in s.landed && Finalizes(s.db, e.id) {
        FinalizeOfClaimed(s, e);
        assert s'.db.withdrawals[n] == Withdrawal(e.id, false);
      }
      assert forall i | 0 <= i < n :: s'.db.withdrawals[i] == s.db.withdrawals[i];
    }
  }

  ghost predicate NoneOvertakes(events: seq<Event>) {
    forall i | 0 <= i < |events| :: !Overtakes(Run(events[..i]), events[i])
  }

  lemma {:induction false} NoneOvertakesNext(events: seq<Event>, e: Event)
    ensures NoneOvertakes(events + [e]) <==> NoneOvertakes(events) && !Overtakes(Run(events), e)
  {
    hide Run, Overtakes;
    var all := events + [e];
    assert all[..|events|] == events && all[|events|] == e;
    forall i | 0 <= i < |events|
      ensures Overtakes(Run(all[..i]), all[i]) <==> Overtakes(Run(events[..i]), events[i])
    {
      assert all[..i] == events[..i];
    }
  }

  /**
    In any run, a milestone is both claimed for a manual payout and paid by the worker exactly when at some step
    the worker finalised a failed attempt of a milestone that was claimed manually and not yet released.
  */
  lemma {:induction false} PathsApartIff(events: seq<Event>)
    ensures PathsApart(Run(events)) <==> NoneOvertakes(events)
    decreases |events|
  {
    if events != [] {
      var front, e := events[..|events| - 1], events[|events| - 1];
      hide Run, Step, Inv, PathsApart, Overtakes, NoneOvertakes;
      assert events == front + [e];
      PathsApartIff(front);
      RunInv(front);
      RunNext(front, e);
      StepPathsApart(Run(front), e);
      NoneOvertakesNext(front, e);
    }
  }

  // ------------------------------------------------------------------ payments on the ledger

  /** The worker hands an attempt back although its envelope has landed, or the envelope lands once it was handed back. */
  ghost predicate HandsBackLanded(s: System, e: Event) {
    || (e.WorkerFail? && e.id in s.landed && e.id in s.db.attempts && s.db.attempts[e.id] == Live)
    || (e.EnvelopeLands? && e.id in s.db.attempts && s.db.attempts[e.id] == Failed)
  }

  ghost predicate NoneHandsBackLanded(events: seq<Event>)
    decreases |events|
  {
    events == [] ||
    (NoneHandsBackLanded(events[..|events| - 1])
     && !HandsBackLanded(Run(events[..|events| - 1]), events[|events| - 1]))
  }

  /** A landed release is still the worker's, or final; no approval has claimed it. */
  ghost predicate LandedOk(s: System, id: Id) {
    && id in s.db.attempts && s.db.attempts[id] != Failed
    && !Marked(s.claims, id)
  }

  ghost predicate LandedInv(s: System) {
    && (forall id :: id in s.landed ==> LandedOk(s, id))
    && (forall id :: id in s.db.attempts && s.db.attempts[id] == Confirmed ==> id in s.landed && Has(s.db, id, Released))
    && (forall i | 0 <= i < |s.db.withdrawals| && !s.db.withdrawals[i].manual :: s.db.withdrawals[i].milestone in s.landed)
  }

  lemma LandedMoves(s: System, e: Event)
    ensures Step(s, e).landed == if e.EnvelopeLands? && e.id in s.db.attempts then s.landed + {e.id} else s.landed
  {
    hide Submit, Reject, EnableAuto, DisableAuto, Halt, WebhookReview, ReplacePlan, Add, Claim, Record, AutoClaim, AutoFail, AutoFinalize;
  }

  lemma FinalizedIsReleased(s: System, e: Event)
    requires e.WorkerFinalize? && e.id in s.landed && e.id in s.db.attempts && e.id in s.db.rows
    requires s.db.attempts[e.id] != Confirmed
    ensures Has(Step(s, e).db, e.id, Released)
  {}

  lemma AttemptsChange(s: System, e: Event)
    ensures Step(s, e).db.attempts ==
            if e.WorkerClaim? && AutoClaimable(s.db, e.id) then s.db.attempts[e.id := Live]
            else if e.WorkerFail? && e.id in s.db.attempts && s.db.attempts[e.id] == Live then s.db.attempts[e.id := Failed]
            else if e.WorkerFinalize? && e.id in s.landed && e.id in s.db.attempts && e.id in s.db.rows
            then s.db.attempts[e.id := Confirmed]
            else s.db.attempts
  {
    hide Inserted, Paid, Fresh;
  }

  /** How one step moves the attempts. */
  lemma AttemptsMove(s: System, e: Event)
    ensures Step(s, e).landed == if e.EnvelopeLands? && e.id in s.db.attempts then s.landed + {e.id} else s.landed
    ensures Step(s, e).db.attempts ==
            if e.WorkerClaim? && AutoClaimable(s.db, e.id) then s.db.attempts[e.id := Live]
            else if e.WorkerFail? && e.id in s.db.attempts && s.db.attempts[e.id] == Live then s.db.attempts[e.id := Failed]
            else if e.WorkerFinalize? && e.id in s.landed && e.id in s.db.attempts && e.id in s.db.rows
            then s.db.attempts[e.id := Confirmed]
            else s.db.attempts
    ensures (e.WorkerFinalize? && e.id in s.landed && e.id in s.db.attempts && e.id in s.db.rows
             && s.db.attempts[e.id] != Confirmed) ==> Has(Step(s, e).db, e.id, Released)
  {
    LandedMoves(s, e);
    AttemptsChange(s, e);
    if e.WorkerFinalize? && e.id in s.landed && e.id in s.db.attempts && e.id in s.db.rows && s.db.attempts[e.id] != Confirmed {
      FinalizedIsReleased(s, e);
    }
    hide Step, Has, AutoClaimable;
  }

  lemma LiveIsUnmarked(s: System, id: Id)
    requires Inv(s) && id in s.db.attempts && s.db.attempts[id] == Live
    ensures !Marked(s.claims, id)
  {
    forall m | m in s.claims ensures m.id != id {
      assert MarkInv(s.db, m);
    }
  }

  lemma LandedStays(s: System, e: Event, id: Id)
    requires Inv(s) && LandedInv(s) && !HandsBackLanded(s, e) && id in Step(s, e).landed
    ensures LandedOk(Step(s, e), id)
  {
    AttemptsMove(s, e);
    HistoriesGrow(s, e);
    hide Step;
    if id in s.landed {
      assert LandedOk(s, id);
    } else {
      LiveIsUnmarked(s, id);
    }
    if Step(s, e).claims != s.claims {
      assert RowInv(s.db, s.At(e.p).id);
      MarkedNext(s.claims, Mark(e.p, s.At(e.p).id), id);
    }
  }

  lemma ReleasedStays(s: System, e: Event, id: Id)
    requires Inv(s) && Has(s.db, id, Released)
    ensures Has(Step(s, e).db, id, Released)
  {
    StepKeepsInv(s, e);
    hide Step, Inv, DbInv;
    assert RowStep(s.db, Step(s, e).db, id);
  }

  lemma ConfirmedStays(s: System, e: Event, id: Id)
    requires Inv(s) && LandedInv(s)
    requires id in Step(s, e).db.attempts && Step(s, e).db.attempts[id] == Confirmed
    ensures id in Step(s, e).landed && Has(Step(s, e).db, id, Released)
  {
    AttemptsMove(s, e);
    if id in s.db.attempts && s.db.attempts[id] == Confirmed {
      ReleasedStays(s, e, id);
    }
    hide Step, Inv, LandedOk, Has, AutoClaimable;
  }

  lemma StepKeepsLanded(s: System, e: Event)
    requires Inv(s) && LandedInv(s) && !HandsBackLanded(s, e)
    ensures LandedInv(Step(s, e))
  {
    AttemptsMove(s, e);
    HistoriesGrow(s, e);
    var s' := Step(s, e);
    hide Step, Inv, LandedOk, HandsBackLanded;
    forall id | id in s'.landed ensures LandedOk(s', id) { LandedStays(s, e, id); }
    forall id | id in s'.db.attempts && s'.db.attempts[id] == Confirmed ensures id in s'.landed && Has(s'.db, id, Released) {
      ConfirmedStays(s, e, id);
    }
  }

  lemma {:induction false} RunKeepsLanded(events: seq<Event>)
    requires NoneHandsBackLanded(events)
    ensures LandedInv(Run(events))
    decreases |events|
  {
    if events != [] {
      var front := events[..|events| - 1];
      RunKeepsLanded(front);
      RunInv(front);
      StepKeepsLanded(Run(front), events[|events| - 1]);
    }
  }

  function SubmissionsOf(s: System, id: Id): (r: set<nat>)
    ensures forall i: nat :: i in r <==> i < |s.submissions| && s.submissions[i].id == id
    ensures r == {} <==> !Marked(s.submissions, id)
  {
    var r := set i | 0 <= i < |s.submissions| && s.submissions[i].id == id;
    assert forall i | 0 <= i < |s.submissions| :: s.submissions[i] in s.submissions && (s.submissions[i].id == id ==> i in r);
    r
  }

  lemma OneSubmission(events: seq<Event>, id: Id)
    ensures |SubmissionsOf(Run(events), id)| <= 1
  {
    RunInv(events);
    var s := Run(events);
    hide Run, DbInv;
    forall i: nat, j: nat | i in SubmissionsOf(s, id) && j in SubmissionsOf(s, id) ensures i == j {
      assert i < |s.submissions| && j < |s.submissions|;
      assert s.submissions[i].id == id && s.submissions[j].id == id;
    }
    AtMostOne(SubmissionsOf(s, id));
  }

  /**
    While the worker hands back only attempts whose envelope never lands, every milestone is paid at most once on the
    ledger, by at most one approval or by the worker's envelope, and the withdrawal rows say which.
  */
  lemma PaidOnceOnLedger(events: seq<Event>, id: Id)
    requires NoneHandsBackLanded(events)
    ensures var s := Run(events);
            && (if id in s.landed then 1 else 0) + |SubmissionsOf(s, id)| <= 1
            && (id in s.landed ==> !Marked(s.claims, id))
            && PathsApart(s)
            && (Withdrawal(id, false) in s.db.withdrawals ==> id in s.landed)
            && (Withdrawal(id, true) in s.db.withdrawals ==> Marked(s.submissions, id))
  {
    RunKeepsLanded(events);
    OneManualPayoutPerMilestone(events);
    OneSubmission(events, id);
    var s := Run(events);
    hide Run, NoneHandsBackLanded, SubmissionsOf;
    if id in s.landed {
      assert LandedOk(s, id);
      assert Marked(s.submissions, id) ==> Marked(s.claims, id);
    }
    forall i | 0 <= i < |s.db.withdrawals| && !s.db.withdrawals[i].manual
      ensures !Marked(s.claims, s.db.withdrawals[i].milestone)
    {
      assert LandedOk(s, s.db.withdrawals[i].milestone);
    }
  }

  /** A fresh approval of an unclaimed milestone under review may go through. */
  lemma FreshApproval(s: System, p: nat, id: Id)
    requires Claimable(s.db, id) && s.db.rows[id].evidence.Some? && s.db.rows[id].destination.Some? && s.At(p).Idle?
    ensures var paid := Step(Step(Step(s, ReadForApproval(p, id)), ClaimApproval(p)), SubmitToStellar(p, true));
            paid.landed == s.landed && paid.submissions == s.submissions + [Mark(p, id)]
  {
    var s1 := Step(s, ReadForApproval(p, id));
    assert s1 == s.Goto(p, Checked(id)) && s1.At(p) == Checked(id);
    var s2 := Step(s1, ClaimApproval(p));
    assert s2.At(p) == Claimer(id) && s2.submissions == s.submissions && s2.landed == s.landed;
  }

  /**
    And the condition is needed: once a landed release has been handed back to review, any fresh approval of it is
    claimed and may be accepted, and the milestone is paid twice.
  */
  lemma HandedBackMayBePaidTwice(s: System, p: nat, id: Id)
    requires Inv(s) && id in s.landed && id in s.db.attempts && s.db.attempts[id] == Failed
    requires Has(s.db, id, PendingReview) && !s.db.rows[id].claimed && s.At(p).Idle?
    ensures var paid := Step(Step(Step(s, ReadForApproval(p, id)), ClaimApproval(p)), SubmitToStellar(p, true));
            id in paid.landed && Marked(paid.submissions, id)
  {
    assert RowInv(s.db, id);
    hide Inv;
    FreshApproval(s, p, id);
    assert Mark(p, id) in s.submissions + [Mark(p, id)];
  }

  // ------------------------------------------------------------------ a run in which both paths pay

  /** The row under review with an automatic attempt in some state. */
  function Reviewed(auto: AutoConfig, autoStatus: AutoStatus, claimed: bool): Milestone {
    Milestone(0, PendingReview, Some("e"), Some("d"), claimed, true, auto, Some(autoStatus))
  }

  function HandedBack(auto: AutoConfig, claimed: bool): Db {
    Db(map[0 := Reviewed(auto, AutoFailed, claimed)], map[0 := Failed], [])
  }

  function HandBackRun(auto: AutoConfig): seq<Event> {
    [AddMilestone(0, 0, Some(auto))] + [SubmitEvidence(0, "e", "d", true)] + [WorkerClaim(0)] + [EnvelopeLands(0)] + [WorkerFail(0)]
  }

  function ApprovalRun(auto: AutoConfig): seq<Event> {
    HandBackRun(auto) + [ReadForApproval(0, 0)] + [ClaimApproval(0)] + [SubmitToStellar(0, true)]
  }

  function BothPathsRun(auto: AutoConfig): seq<Event> {
    ApprovalRun(auto) + [WorkerFinalize(0)] + [RecordApproval(0, true)]
  }

  function Attempted(auto: AutoConfig): System {
    System(Db(map[0 := Reviewed(auto, Releasing, true)], map[0 := Live], []), map[], {0}, [], [], {})
  }

  function Scheduling(auto: AutoConfig): System {
    System(Db(map[0 := Reviewed(auto, Scheduled, false)], map[], []), map[], {0}, [], [], {})
  }

  lemma SchedulingSteps(auto: AutoConfig)
    ensures var added := System(Db(map[0 := NewRow(0, Some(auto))], map[], []), map[], {0}, [], [], {});
            && Step(System(Db(map[], map[], []), map[], {}, [], [], {}), AddMilestone(0, 0, Some(auto))) == added
            && Step(added, SubmitEvidence(0, "e", "d", true)) == Scheduling(auto)
  {}

  lemma AttemptSteps(auto: AutoConfig)
    ensures Step(Scheduling(auto), WorkerClaim(0)) == Attempted(auto)
    ensures Step(Attempted(auto), EnvelopeLands(0)) == Attempted(auto).(landed := {0})
  {}

  lemma FailStep(auto: AutoConfig)
    ensures Step(Attempted(auto).(landed := {0}), WorkerFail(0)) == System(HandedBack(auto, false), map[], {0}, [], [], {0})
  {}

  lemma AttemptIsHandedBack(auto: AutoConfig)
    ensures Run(HandBackRun(auto)) == System(HandedBack(auto, false), map[], {0}, [], [], {0})
  {
    SchedulingSteps(auto);
    AttemptSteps(auto);
    FailStep(auto);
    hide Step, Reviewed, HandedBack, Attempted, Scheduling;
    var a1 := [AddMilestone(0, 0, Some(auto))];
    var a2 := a1 + [SubmitEvidence(0, "e", "d", true)];
    var a3 := a2 + [WorkerClaim(0)];
    var a4 := a3 + [EnvelopeLands(0)];
    assert Run([]) == System(Db(map[], map[], []), map[], {}, [], [], {});
    assert HandBackRun(auto) == a4 + [WorkerFail(0)];
    hide Run, HandBackRun;
    RunNext([], AddMilestone(0, 0, Some(auto)));
    assert [] + a1 == a1;
    RunNext(a1, SubmitEvidence(0, "e", "d", true));
    RunNext(a2, WorkerClaim(0));
    RunNext(a3, EnvelopeLands(0));
    RunNext(a4, WorkerFail(0));
  }

  lemma ApprovalIsAccepted(auto: AutoConfig)
    ensures Run(ApprovalRun(auto)) == System(HandedBack(auto, true), map[0 := Submitted(0)], {0}, [Mark(0, 0)], [Mark(0, 0)], {0})
  {
    AttemptIsHandedBack(auto);
    var a0 := HandBackRun(auto);
    var a1 := a0 + [ReadForApproval(0, 0)];
    var a2 := a1 + [ClaimApproval(0)];
    RunNext(a0, ReadForApproval(0, 0));
    RunNext(a1, ClaimApproval(0));
    RunNext(a2, SubmitToStellar(0, true));
    hide Run, HandBackRun;
    assert Run(a1) == System(HandedBack(auto, false), map[0 := Checked(0)], {0}, [], [], {0});
    assert Run(a2) == System(HandedBack(auto, true), map[0 := Claimer(0)], {0}, [Mark(0, 0)], [], {0});
  }

  /** A late finalisation of the failed attempt, and the approval's final write after it. */
  lemma LateSteps(auto: AutoConfig)
    ensures var s0 := System(HandedBack(auto, true), map[0 := Submitted(0)], {0}, [Mark(0, 0)], [Mark(0, 0)], {0});
            var s1 := Step(s0, WorkerFinalize(0));
            var s2 := Step(s1, RecordApproval(0, true));
            && s2.landed == {0} && s2.claims == s2.submissions == [Mark(0, 0)] && s2.db.withdrawals == [Withdrawal(0, false)]
  {
    var s0 := System(HandedBack(auto, true), map[0 := Submitted(0)], {0}, [Mark(0, 0)], [Mark(0, 0)], {0});
    var s1 := Step(s0, WorkerFinalize(0));
    assert s1.db.withdrawals == [Withdrawal(0, false)] && s1.At(0) == Submitted(0);
    assert s1.db.withdrawals[0].milestone == 0 && Paid(s1.db, 0);
  }

  /**
    Such a run exists: a landed release is handed back, an approval is claimed and accepted by Stellar, a late worker
    finalises the failed attempt, and the approval finds the release already recorded: two payments, one row.
  */
  lemma BothPathsCanPay(auto: AutoConfig)
    ensures var s := Run(BothPathsRun(auto));
            && 0 in s.landed && s.submissions == [Mark(0, 0)] && s.db.withdrawals == [Withdrawal(0, false)] && !PathsApart(s)
  {
    var a0 := ApprovalRun(auto);
    var a1 := a0 + [WorkerFinalize(0)];
    assert BothPathsRun(auto) == a1 + [RecordApproval(0, true)];
    hide Run, ApprovalRun, BothPathsRun, Step;
    ApprovalIsAccepted(auto);
    RunNext(a0, WorkerFinalize(0));
    RunNext(a1, RecordApproval(0, true));
    LateSteps(auto);
    var s := Run(BothPathsRun(auto));
    assert s.db.withdrawals[0] == Withdrawal(0, false) && Mark(0, 0) in s.claims;
    assert Marked(s.claims, 0);
  }
}
