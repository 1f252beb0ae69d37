/** The status of a milestone row: which steps change it, and to what. */
module MilestoneTransitions {
  import opened Options
  import opened MilestoneLifecycle
  import opened MilestoneProtocol

  lemma NewRowsArePending(s: System, e: Event, id: Id)
    requires Inv(s) && id !in s.db.rows && id in Step(s, e).db.rows
    ensures Step(s, e).db.rows[id].status == Pending
  {
    if e.ReplaceMilestones? && Fresh(s, e.ids) && PlanOpen(s.db, e.campaign) {
      InsertedRows(map x | x in s.db.rows && s.db.rows[x].campaign != e.campaign :: s.db.rows[x], e.campaign, e.ids);
    }
  }

  lemma ReplacedStatus(s: System, e: Event, id: Id)
    requires s.db.rows.Keys <= s.used && e.ReplaceMilestones? && id in s.db.rows && id in Step(s, e).db.rows
    ensures Step(s, e).db.rows[id].status == s.db.rows[id].status
  {
    if Fresh(s, e.ids) && PlanOpen(s.db, e.campaign) {
      InsertedRows(map x | x in s.db.rows && s.db.rows[x].campaign != e.campaign :: s.db.rows[x], e.campaign, e.ids);
      assert forall i | 0 <= i < |e.ids| :: e.ids[i] !in s.used;
    }
  }

  /** The steps of the worker and of the final write. */
  lemma ReleaseStatus(s: System, e: Event, id: Id)
    requires id in s.db.rows && (e.WorkerClaim? || e.WorkerFail? || e.WorkerFinalize? || e.RecordApproval?)
    requires s.db.rows[id].status == Released <==> Paid(s.db, id)
    ensures id in Step(s, e).db.rows
    ensures Step(s, e).db.rows[id].status ==
              if e.WorkerFinalize? && e.id == id && id in s.landed && id in s.db.attempts && s.db.attempts[id] != Confirmed
              then Released
              else if e.RecordApproval? && e.commits && s.At(e.p) == Submitted(id) && !Paid(s.db, id)
              then Released
              else s.db.rows[id].status
  {
    hide Paid;
  }

  /** The steps that review, configure or claim. */
  lemma ReviewStatus(s: System, e: Event, id: Id)
    requires id in s.db.rows && s.db.rows.Keys <= s.used && !e.ReplaceMilestones?
    requires !(e.WorkerClaim? || e.WorkerFail? || e.WorkerFinalize? || e.RecordApproval?)
    ensures id in Step(s, e).db.rows
    ensures var m := s.db.rows[id];
            Step(s, e).db.rows[id].status ==
              if e.SubmitEvidence? && e.id == id && e.evidence != "" && e.destination != "" && m.status in {Pending, Rejected}
              then PendingReview
              else if e.RejectEvidence? && e.id == id && m.status == PendingReview && m.autoStatus != Some(Releasing)
              then Rejected
              else if e.Webhook? && e.id == id && m.status == PendingReview
              then (if e.approved then Approved else Rejected)
              else m.status
  {
    hide Inserted, Paid, Fresh, ReplacePlan, Record, AutoClaim, AutoFail, AutoFinalize;
  }

  lemma StatusStep(s: System, e: Event, id: Id)
    requires Inv(s) && id in s.db.rows && id in Step(s, e).db.rows && RowInv(s.db, id)
    ensures var m := s.db.rows[id];
            Step(s, e).db.rows[id].status ==
              if e.SubmitEvidence? && e.id == id && e.evidence != "" && e.destination != "" && m.status in {Pending, Rejected}
              then PendingReview
              else if e.RejectEvidence? && e.id == id && m.status == PendingReview && m.autoStatus != Some(Releasing)
              then Rejected
              else if e.Webhook? && e.id == id && m.status == PendingReview
              then (if e.approved then Approved else Rejected)
              else if e.WorkerFinalize? && e.id == id && id in s.landed && id in s.db.attempts && s.db.attempts[id] != Confirmed
              then Released
              else if e.RecordApproval? && e.commits && s.At(e.p) == Submitted(id)
                      && (forall i | 0 <= i < |s.db.withdrawals| :: s.db.withdrawals[i].milestone != id)
              then Released
              else m.status
  {
    assert Paid(s.db, id) <==> !forall i | 0 <= i < |s.db.withdrawals| :: s.db.withdrawals[i].milestone != id;
    assert s.db.rows[id].status == Released <==> Paid(s.db, id);
    hide Step, DbInv, RowInv, Paid;
    if e.ReplaceMilestones? {
      ReplacedStatus(s, e, id);
    } else if e.WorkerClaim? || e.WorkerFail? || e.WorkerFinalize? || e.RecordApproval? {
      ReleaseStatus(s, e, id);
    } else {
      ReviewStatus(s, e, id);
    }
  }

  /**
    From every reachable state and for every step, the status a row has next: submission of a pending or rejected row,
    rejection of a reviewed one that is not releasing, the webhook's review, a release by either path; otherwise none.
  */
  lemma NextStatus(events: seq<Event>, e: Event, id: Id)
    requires id in Run(events).db.rows && id in Step(Run(events), e).db.rows
    ensures var s := Run(events);
            var m := s.db.rows[id];
            Step(s, e).db.rows[id].status ==
              if e.SubmitEvidence? && e.id == id && e.evidence != "" && e.destination != "" && m.status in {Pending, Rejected}
              then PendingReview
              else if e.RejectEvidence? && e.id == id && m.status == PendingReview && m.autoStatus != Some(Releasing)
              then Rejected
              else if e.Webhook? && e.id == id && m.status == PendingReview
              then (if e.approved then Approved else Rejected)
              else if e.WorkerFinalize? && e.id == id && id in s.landed && id in s.db.attempts && s.db.attempts[id] != Confirmed
              then Released
              else if e.RecordApproval? && e.commits && s.At(e.p) == Submitted(id)
                      && (forall i | 0 <= i < |s.db.withdrawals| :: s.db.withdrawals[i].milestone != id)
              then Released
              else m.status
  {
    RunInv(events);
    var s := Run(events);
    hide Run;
    assert RowInv(s.db, id);
    StatusStep(s, e, id);
  }

  lemma ReleaseClaims(s: System, e: Event, id: Id)
    requires id in s.db.rows && (e.WorkerClaim? || e.WorkerFail? || e.WorkerFinalize? || e.RecordApproval?)
    ensures id in Step(s, e).db.rows
    ensures var (m, after) := (s.db.rows[id], Step(s, e).db.rows[id]);
            && after.claimed ==
                 (if e.WorkerClaim? && e.id == id && m.status == PendingReview && m.autoStatus == Some(Scheduled)
                     && !m.claimed && id !in s.db.attempts then true
                  else if e.WorkerFail? && e.id == id && id in s.db.attempts && s.db.attempts[id] == Live
                          && m.status == PendingReview then false
                  else m.claimed)
            && after.autoEnabled == m.autoEnabled && after.config == m.config
            && after.evidence == m.evidence && after.destination == m.destination && after.campaign == m.campaign
  {
    hide Paid;
  }

  lemma ReviewClaims(s: System, e: Event, id: Id)
    requires id in s.db.rows && s.db.rows.Keys <= s.used && !e.ReplaceMilestones?
    requires !(e.WorkerClaim? || e.WorkerFail? || e.WorkerFinalize? || e.RecordApproval?)
    ensures id in Step(s, e).db.rows
    ensures var (m, after) := (s.db.rows[id], Step(s, e).db.rows[id]);
            && after.claimed ==
                 (m.claimed || (e.ClaimApproval? && s.At(e.p) == Checked(id) && m.status == PendingReview))
            && after.config == (if e.Enable? && e.id == id && m.status in {Pending, Rejected} then e.config else m.config)
            && after.autoEnabled ==
                 (if e.Enable? && e.id == id && m.status in {Pending, Rejected} then true
                  else if e.Disable? && e.id == id && m.autoStatus !in {Some(Releasing), Some(AutoReleased)} then false
                  else m.autoEnabled)
            && (after.evidence, after.destination) ==
                 (if e.SubmitEvidence? && e.id == id && e.evidence != "" && e.destination != "" && m.status in {Pending, Rejected}
                  then (Some(e.evidence), Some(e.destination)) else (m.evidence, m.destination))
            && after.campaign == m.campaign
  {
    hide Inserted, Paid, Fresh, ReplacePlan, Record, AutoClaim, AutoFail, AutoFinalize;
  }

  /**
    The other columns: a claim is taken by an approval or the worker and given back only by a failed attempt, the
    configuration changes only by configuring, evidence and destination only by submitting.
  */
  lemma NextColumns(events: seq<Event>, e: Event, id: Id)
    requires id in Run(events).db.rows && !e.ReplaceMilestones?
    ensures id in Step(Run(events), e).db.rows
    ensures var s := Run(events);
            var (m, after) := (s.db.rows[id], Step(s, e).db.rows[id]);
            && after.claimed ==
                 (if e.ClaimApproval? && s.At(e.p) == Checked(id) && m.status == PendingReview then true
                  else if e.WorkerClaim? && e.id == id && m.status == PendingReview && m.autoStatus == Some(Scheduled)
                          && id !in s.db.attempts then true
                  else if e.WorkerFail? && e.id == id && id in s.db.attempts && s.db.attempts[id] == Live
                          && m.status == PendingReview then false
                  else m.claimed)
            && after.config == (if e.Enable? && e.id == id && m.status in {Pending, Rejected} then e.config else m.config)
            && after.autoEnabled ==
                 (if e.Enable? && e.id == id && m.status in {Pending, Rejected} then true
                  else if e.Disable? && e.id == id && m.autoStatus !in {Some(Releasing), Some(AutoReleased)} then false
                  else m.autoEnabled)
            && (after.evidence, after.destination) ==
                 (if e.SubmitEvidence? && e.id == id && e.evidence != "" && e.destination != "" && m.status in {Pending, Rejected}
                  then (Some(e.evidence), Some(e.destination)) else (m.evidence, m.destination))
  {
    RunInv(events);
    var s := Run(events);
    hide Run, Step, DbInv;
    if e.WorkerClaim? || e.WorkerFail? || e.WorkerFinalize? || e.RecordApproval? {
      ReleaseClaims(s, e, id);
    } else {
      ReviewClaims(s, e, id);
    }
  }

  /** A row is Approved only by a webhook step that approved it. */
  lemma {:induction false} ApprovedOnlyByWebhook(events: seq<Event>, id: Id)
    requires Has(Run(events).db, id, Approved)
    ensures Webhook(id, true) in events
    decreases |events|
  {
    if events != [] {
      var front, e := events[..|events| - 1], events[|events| - 1];
      assert events == front + [e];
      if Has(Run(front).db, id, Approved) {
        ApprovedOnlyByWebhook(front, id);
      } else if id in Run(front).db.rows {
        NextStatus(front, e, id);
      } else {
        RunInv(front);
        NewRowsArePending(Run(front), e, id);
      }
    }
  }

  /** A rejected row accepts a new submission, which goes to review with the new evidence and destination. */
  lemma RejectedMayResubmit(s: System, id: Id, evidence: string, destination: string, verified: bool)
    requires Has(s.db, id, Rejected) && evidence != "" && destination != ""
    ensures var t := Step(s, SubmitEvidence(id, evidence, destination, verified));
            && Has(t.db, id, PendingReview)
            && t.db.rows[id].evidence == Some(evidence) && t.db.rows[id].destination == Some(destination)
  {}
}
