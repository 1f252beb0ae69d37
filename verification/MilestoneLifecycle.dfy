/**
  The milestone rows and every transaction that writes them: evidence submission, review, automatic-release
  configuration, plan replacement, the manual approval's claim and final write, and the automatic-release
  worker's claim, failure and finalisation.
*/
module MilestoneLifecycle {
  import opened Options

  type Id = nat
  type CampaignId = nat

  datatype Status = Pending | PendingReview | Rejected | Approved | Released

  datatype AutoStatus =
    | AwaitingEvidence | Scheduled | Halted | Ineligible | Releasing | AutoReleased | AutoFailed | Cancelled | Superseded

  /** auto_release_rule, auto_release_rule_config, auto_release_window_seconds. */
  datatype AutoConfig = AutoConfig(rule: Option<string>, ruleConfig: string, window: Option<nat>)

  datatype Milestone = Milestone(
    campaign: CampaignId,
    status: Status,
    evidence: Option<string>,
    destination: Option<string>,
    claimed: bool,
    autoEnabled: bool,
    config: AutoConfig,
    autoStatus: Option<AutoStatus>)

  const NO_AUTO := AutoConfig(None, "{}", None)

  function NewRow(campaign: CampaignId, auto: Option<AutoConfig>): Milestone {
    if auto.Some? then Milestone(campaign, Pending, None, None, false, true, auto.value, Some(AwaitingEvidence))
    else Milestone(campaign, Pending, None, None, false, false, NO_AUTO, None)
  }

  /** milestone_auto_release_attempts; claimed, prepared and submitted attempts are all `Live`. */
  datatype Attempt = Live | Confirmed | Failed

  datatype Withdrawal = Withdrawal(milestone: Id, manual: bool)

  datatype Db = Db(rows: map<Id, Milestone>, attempts: map<Id, Attempt>, withdrawals: seq<Withdrawal>)

  predicate Has(db: Db, id: Id, status: Status) {
    id in db.rows && db.rows[id].status == status
  }

  predicate Paid(db: Db, id: Id) {
    exists i | 0 <= i < |db.withdrawals| :: db.withdrawals[i].milestone == id
  }

  // ------------------------------------------------------------------ transactions

  /** The UPDATE of `POST /:id/submit` and scheduleOnSubmission in its transaction. */
  function Submit(db: Db, id: Id, evidence: string, destination: string, verified: bool): Db {
    if evidence == "" || destination == "" || !(Has(db, id, Pending) || Has(db, id, Rejected)) then db
    else
      var m := db.rows[id].(status := PendingReview, evidence := Some(evidence), destination := Some(destination));
      var auto := if !m.autoEnabled then m.autoStatus
                  else if verified && id !in db.attempts then Some(Scheduled)
                  else Some(Ineligible);
      db.(rows := db.rows[id := m.(autoStatus := auto)])
  }

  predicate Rejectable(db: Db, id: Id) {
    Has(db, id, PendingReview) && db.rows[id].autoStatus != Some(Releasing)
  }

  function Reject(db: Db, id: Id): Db {
    if !Rejectable(db, id) then db
    else
      var m := db.rows[id];
      db.(rows := db.rows[id := m.(status := Rejected,
                                   autoStatus := if m.autoEnabled then Some(AwaitingEvidence) else m.autoStatus)])
  }

  /** `PUT /:id/auto-release` with enabled true. */
  function EnableAuto(db: Db, id: Id, config: AutoConfig): Db {
    if !(Has(db, id, Pending) || Has(db, id, Rejected)) then db
    else db.(rows := db.rows[id := db.rows[id].(autoEnabled := true, config := config, autoStatus := Some(AwaitingEvidence))])
  }

  /** `PUT /:id/auto-release` with enabled false. */
  function DisableAuto(db: Db, id: Id): Db {
    if id !in db.rows || db.rows[id].autoStatus in {Some(Releasing), Some(AutoReleased)} then db
    else
      var m := db.rows[id];
      db.(rows := db.rows[id := m.(autoEnabled := false,
                                   autoStatus := if m.autoStatus.None? then None else Some(Cancelled))])
  }

  /** A dispute halts every scheduled automatic release of the campaign. */
  function Halt(db: Db, campaign: CampaignId): Db {
    db.(rows := map id | id in db.rows ::
                  var m := db.rows[id];
                  if m.campaign == campaign && m.autoStatus == Some(Scheduled) then m.(autoStatus := Some(Halted)) else m)
  }

  /** A creator's webhook event reviews the milestone. */
  function WebhookReview(db: Db, id: Id, approved: bool): Db {
    if !Has(db, id, PendingReview) then db
    else db.(rows := db.rows[id := db.rows[id].(status := if approved then Approved else Rejected)])
  }

  predicate PlanOpen(db: Db, campaign: CampaignId) {
    forall id | id in db.rows && db.rows[id].campaign == campaign :: db.rows[id].status == Pending
  }

  function Inserted(rows: map<Id, Milestone>, campaign: CampaignId, ids: seq<Id>): map<Id, Milestone> {
    if ids == [] then rows
    else Inserted(rows, campaign, ids[..|ids| - 1])[ids[|ids| - 1] := NewRow(campaign, None)]
  }

  /** `POST /campaigns/:id/milestones`, one atomic transaction. */
  function ReplacePlan(db: Db, campaign: CampaignId, ids: seq<Id>): Db {
    if !PlanOpen(db, campaign) then db
    else
      var kept := map id | id in db.rows && db.rows[id].campaign != campaign :: db.rows[id];
      db.(rows := Inserted(kept, campaign, ids))
  }

  function Add(db: Db, id: Id, campaign: CampaignId, auto: Option<AutoConfig>): Db {
    db.(rows := db.rows[id := NewRow(campaign, auto)])
  }

  predicate Claimable(db: Db, id: Id) {
    Has(db, id, PendingReview) && !db.rows[id].claimed
  }

  /** The conditional UPDATE of claimed_at in the approval handler. */
  function Claim(db: Db, id: Id): Db {
    if !Claimable(db, id) then db else db.(rows := db.rows[id := db.rows[id].(claimed := true)])
  }

  /** The approval's final transaction, whose UPDATE has no status condition. */
  function Record(db: Db, id: Id): Db {
    if Paid(db, id) || id !in db.rows then db
    else
      var m := db.rows[id];
      db.(rows := db.rows[id := m.(status := Released,
                                   autoStatus := if m.autoStatus.None? then None else Some(Superseded))],
          withdrawals := db.withdrawals + [Withdrawal(id, true)])
  }

  predicate AutoClaimable(db: Db, id: Id) {
    && Has(db, id, PendingReview) && db.rows[id].autoStatus == Some(Scheduled)
    && !db.rows[id].claimed && id !in db.attempts
  }

  function AutoClaim(db: Db, id: Id): Db {
    if !AutoClaimable(db, id) then db
    else db.(rows := db.rows[id := db.rows[id].(autoStatus := Some(Releasing), claimed := true)],
             attempts := db.attempts[id := Live])
  }

  /** failAttempt hands the milestone back to manual review. */
  function AutoFail(db: Db, id: Id): Db {
    if id !in db.attempts || db.attempts[id] != Live then db
    else
      Db(if Has(db, id, PendingReview)
         then db.rows[id := db.rows[id].(autoStatus := Some(AutoFailed), claimed := false)] else db.rows,
         db.attempts[id := Failed], db.withdrawals)
  }

  /** The attempt may be finalised with a payout; a failed one still may. */
  predicate Finalizes(db: Db, id: Id) {
    id in db.attempts && db.attempts[id] != Confirmed && id in db.rows && db.rows[id].status != Released
  }

  /** finalizeRelease, which stops only at confirmed attempts and released milestones. */
  function AutoFinalize(db: Db, id: Id): Db {
    if id !in db.attempts || db.attempts[id] == Confirmed || id !in db.rows then db
    else if !Finalizes(db, id) then db.(attempts := db.attempts[id := Confirmed])
    else Db(db.rows[id := db.rows[id].(status := Released, autoStatus := Some(AutoReleased))],
            db.attempts[id := Confirmed], db.withdrawals + [Withdrawal(id, false)])
  }

  lemma {:induction false} InsertedRows(rows: map<Id, Milestone>, campaign: CampaignId, ids: seq<Id>)
    ensures Inserted(rows, campaign, ids).Keys == rows.Keys + set id | id in ids
    ensures forall id :: id in Inserted(rows, campaign, ids) ==>
              Inserted(rows, campaign, ids)[id] == if id in ids then NewRow(campaign, None) else rows[id]
  {
    if ids != [] {
      var init, last := ids[..|ids| - 1], ids[|ids| - 1];
      InsertedRows(rows, campaign, init);
      assert ids == init + [last];
      assert (set id | id in ids) == (set id | id in init) + {last};
    }
  }

  // ------------------------------------------------------------------ the handlers' SQL, as they run it

  class MilestoneTables {
    var rows: map<Id, Milestone>
    var attempts: map<Id, Attempt>
    var withdrawals: seq<Withdrawal>

    function View(): Db
      reads this
    {
      Db(rows, attempts, withdrawals)
    }

    constructor ()
      ensures View() == Db(map[], map[], [])
    {
      rows, attempts, withdrawals := map[], map[], [];
    }

    method SubmitEvidence(id: Id, evidence: string, destination: string, verified: bool) returns (ok: bool)
      modifies this
      ensures View() == Submit(old(View()), id, evidence, destination, verified)
      ensures ok <==> evidence != "" && destination != "" && id in old(rows) && old(rows)[id].status in {Pending, Rejected}
      ensures attempts == old(attempts) && withdrawals == old(withdrawals)
      ensures !ok ==> rows == old(rows)
      ensures ok ==>
                var before := old(rows)[id];
                rows == old(rows)[id := before.(
                  status := PendingReview, evidence := Some(evidence), destination := Some(destination),
                  autoStatus := if !before.autoEnabled then before.autoStatus
                                else if verified && id !in attempts then Some(Scheduled) else Some(Ineligible))]
    {
      if evidence == "" || destination == "" { return false; }
      if id !in rows { return false; }
      var m := rows[id];
      if m.status != Pending && m.status != Rejected { return false; }
      m := m.(status := PendingReview, evidence := Some(evidence), destination := Some(destination));
      rows := rows[id := m];
      if m.autoEnabled {
        if verified && id !in attempts {
          rows := rows[id := m.(autoStatus := Some(Scheduled))];
        } else {
          rows := rows[id := m.(autoStatus := Some(Ineligible))];
        }
      }
      return true;
    }

    method RejectMilestone(id: Id) returns (ok: bool)
      modifies this
      ensures View() == Reject(old(View()), id)
      ensures ok <==> id in old(rows) && old(rows)[id].status == PendingReview && old(rows)[id].autoStatus != Some(Releasing)
      ensures attempts == old(attempts) && withdrawals == old(withdrawals)
      ensures !ok ==> rows == old(rows)
      ensures ok ==>
                var before := old(rows)[id];
                rows == old(rows)[id := before.(
                  status := Rejected,
                  autoStatus := if before.autoEnabled then Some(AwaitingEvidence) else before.autoStatus)]
    {
      if id !in rows || rows[id].status != PendingReview || rows[id].autoStatus == Some(Releasing) { return false; }
      var m := rows[id].(status := Rejected);
      if m.autoEnabled { m := m.(autoStatus := Some(AwaitingEvidence)); }
      rows := rows[id := m];
      return true;
    }

    method ConfigureAutoRelease(id: Id, config: Option<AutoConfig>)
      modifies this
      ensures config.Some? ==> View() == EnableAuto(old(View()), id, config.value)
      ensures config.None? ==> View() == DisableAuto(old(View()), id)
      ensures attempts == old(attempts) && withdrawals == old(withdrawals)
      ensures rows ==
              if id !in old(rows) then old(rows)
              else
                var before := old(rows)[id];
                if config.Some? then
                  if before.status in {Pending, Rejected} then
                    old(rows)[id := before.(autoEnabled := true, config := config.value, autoStatus := Some(AwaitingEvidence))]
                  else old(rows)
                else if before.autoStatus in {Some(Releasing), Some(AutoReleased)} then old(rows)
                else old(rows)[id := before.(
                  autoEnabled := false, autoStatus := if before.autoStatus == None then None else Some(Cancelled))]
    {
      if id !in rows { return; }
      var m := rows[id];
      if config.Some? {
        if m.status == Pending || m.status == Rejected {
          rows := rows[id := m.(autoEnabled := true, config := config.value, autoStatus := Some(AwaitingEvidence))];
        }
      } else if m.autoStatus != Some(Releasing) && m.autoStatus != Some(AutoReleased) {
        rows := rows[id := m.(autoEnabled := false, autoStatus := if m.autoStatus.None? then None else Some(Cancelled))];
      }
    }

    method ReplaceCampaignPlan(campaign: CampaignId, ids: seq<Id>) returns (ok: bool)
      modifies this
      ensures View() == ReplacePlan(old(View()), campaign, ids)
      ensures ok <==> forall id | id in old(rows) && old(rows)[id].campaign == campaign :: old(rows)[id].status == Pending
      ensures attempts == old(attempts) && withdrawals == old(withdrawals)
      ensures !ok ==> rows == old(rows)
      ensures ok ==>
                && (forall id :: id in rows <==> id in ids || (id in old(rows) && old(rows)[id].campaign != campaign))
                && (forall id | id in rows && id !in ids :: rows[id] == old(rows)[id])
                && forall id | id in ids ::
                     rows[id] == Milestone(campaign, Pending, None, None, false, false, AutoConfig(None, "{}", None), None)
    {
      if exists id | id in rows && rows[id].campaign == campaign :: rows[id].status != Pending { return false; }
      rows := map id | id in rows && rows[id].campaign != campaign :: rows[id];
      ghost var kept := rows;
      for i := 0 to |ids|
        invariant rows == Inserted(kept, campaign, ids[..i])
        invariant attempts == old(attempts) && withdrawals == old(withdrawals)
      {
        assert ids[..i + 1][..i] == ids[..i];
        rows := rows[ids[i] := NewRow(campaign, None)];
      }
      assert ids[..|ids|] == ids;
      InsertedRows(kept, campaign, ids);
      return true;
    }

    method AddMilestone(id: Id, campaign: CampaignId, auto: Option<AutoConfig>)
      modifies this
      ensures View() == Add(old(View()), id, campaign, auto)
      ensures attempts == old(attempts) && withdrawals == old(withdrawals)
      ensures rows == old(rows)[id :=
                if auto.Some? then Milestone(campaign, Pending, None, None, false, true, auto.value, Some(AwaitingEvidence))
                else Milestone(campaign, Pending, None, None, false, false, AutoConfig(None, "{}", None), None)]
    {
      rows := rows[id := NewRow(campaign, auto)];
    }

    method ClaimForApproval(id: Id) returns (ok: bool)
      modifies this
      ensures View() == Claim(old(View()), id)
      ensures ok <==> id in old(rows) && old(rows)[id].status == PendingReview && !old(rows)[id].claimed
      ensures attempts == old(attempts) && withdrawals == old(withdrawals)
      ensures rows == if ok then old(rows)[id := old(rows)[id].(claimed := true)] else old(rows)
    {
      if id !in rows || rows[id].status != PendingReview || rows[id].claimed { return false; }
      rows := rows[id := rows[id].(claimed := true)];
      return true;
    }

    method RecordRelease(id: Id) returns (ok: bool)
      modifies this
      ensures View() == Record(old(View()), id)
      ensures ok <==> id in old(rows) && forall i | 0 <= i < |old(withdrawals)| :: old(withdrawals)[i].milestone != id
      ensures attempts == old(attempts)
      ensures !ok ==> rows == old(rows) && withdrawals == old(withdrawals)
      ensures ok ==>
                && withdrawals == old(withdrawals) + [Withdrawal(id, true)]
                && var before := old(rows)[id];
                   rows == old(rows)[id := before.(
                     status := Released, autoStatus := if before.autoStatus == None then None else Some(Superseded))]
    {
      for i := 0 to |withdrawals|
        invariant forall k | 0 <= k < i :: withdrawals[k].milestone != id
      {
        if withdrawals[i].milestone == id { return false; }
      }
      if id !in rows { return false; }
      withdrawals := withdrawals + [Withdrawal(id, true)];
      var m := rows[id].(status := Released);
      if m.autoStatus.Some? { m := m.(autoStatus := Some(Superseded)); }
      rows := rows[id := m];
      return true;
    }

    /** A creator's webhook event. */
    method ReviewByWebhook(id: Id, approved: bool) returns (ok: bool)
      modifies this
      ensures View() == WebhookReview(old(View()), id, approved)
      ensures ok <==> id in old(rows) && old(rows)[id].status == PendingReview
      ensures attempts == old(attempts) && withdrawals == old(withdrawals)
      ensures rows ==
              if ok then old(rows)[id := old(rows)[id].(status := if approved then Approved else Rejected)] else old(rows)
    {
      if id !in rows || rows[id].status != PendingReview { return false; }
      rows := rows[id := rows[id].(status := if approved then Approved else Rejected)];
      return true;
    }

    /** A dispute's halt of the campaign's scheduled releases. */
    method HaltScheduledReleases(campaign: CampaignId)
      modifies this
      ensures View() == Halt(old(View()), campaign)
      ensures attempts == old(attempts) && withdrawals == old(withdrawals) && rows.Keys == old(rows).Keys
      ensures forall id | id in rows ::
                var before := old(rows)[id];
                rows[id] == if before.campaign == campaign && before.autoStatus == Some(Scheduled)
                            then before.(autoStatus := Some(Halted)) else before
    {
      rows := map id | id in rows ::
        var m := rows[id];
        if m.campaign == campaign && m.autoStatus == Some(Scheduled) then m.(autoStatus := Some(Halted)) else m;
    }

    /** The worker's claim of a due release, and its first attempt. */
    method ClaimDue(id: Id) returns (ok: bool)
      modifies this
      ensures View() == AutoClaim(old(View()), id)
      ensures ok <==>
                && id in old(rows) && old(rows)[id].status == PendingReview && old(rows)[id].autoStatus == Some(Scheduled)
                && !old(rows)[id].claimed && id !in old(attempts)
      ensures withdrawals == old(withdrawals)
      ensures !ok ==> rows == old(rows) && attempts == old(attempts)
      ensures ok ==> attempts == old(attempts)[id := Live]
                     && rows == old(rows)[id := old(rows)[id].(autoStatus := Some(Releasing), claimed := true)]
    {
      if id !in rows || id in attempts { return false; }
      var m := rows[id];
      if m.status != PendingReview || m.autoStatus != Some(Scheduled) || m.claimed { return false; }
      rows := rows[id := m.(autoStatus := Some(Releasing), claimed := true)];
      attempts := attempts[id := Live];
      return true;
    }

    /** A live attempt is given up and its milestone handed back to review. */
    method FailAttempt(id: Id) returns (ok: bool)
      modifies this
      ensures View() == AutoFail(old(View()), id)
      ensures ok <==> id in old(attempts) && old(attempts)[id] == Live
      ensures withdrawals == old(withdrawals)
      ensures !ok ==> rows == old(rows) && attempts == old(attempts)
      ensures ok ==> attempts == old(attempts)[id := Failed]
      ensures ok && id in old(rows) && old(rows)[id].status == PendingReview ==>
                rows == old(rows)[id := old(rows)[id].(autoStatus := Some(AutoFailed), claimed := false)]
      ensures ok && !(id in old(rows) && old(rows)[id].status == PendingReview) ==> rows == old(rows)
    {
      if id !in attempts || attempts[id] != Live { return false; }
      attempts := attempts[id := Failed];
      if id in rows && rows[id].status == PendingReview {
        rows := rows[id := rows[id].(autoStatus := Some(AutoFailed), claimed := false)];
      }
      return true;
    }

    /** The bookkeeping of a landed release. */
    method FinalizeRelease(id: Id) returns (paid: bool)
      modifies this
      ensures View() == AutoFinalize(old(View()), id)
      ensures paid <==>
                && id in old(attempts) && old(attempts)[id] != Confirmed
                && id in old(rows) && old(rows)[id].status != Released
      ensures paid ==>
                && withdrawals == old(withdrawals) + [Withdrawal(id, false)]
                && rows == old(rows)[id := old(rows)[id].(status := Released, autoStatus := Some(AutoReleased))]
      ensures !paid ==> rows == old(rows) && withdrawals == old(withdrawals)
      ensures attempts == if id in old(attempts) && id in old(rows) then old(attempts)[id := Confirmed] else old(attempts)
    {
      if id !in attempts || attempts[id] == Confirmed || id !in rows { return false; }
      attempts := attempts[id := Confirmed];
      if rows[id].status == Released { return false; }
      withdrawals := withdrawals + [Withdrawal(id, false)];
      rows := rows[id := rows[id].(status := Released, autoStatus := Some(AutoReleased))];
      return true;
    }
  }
}
