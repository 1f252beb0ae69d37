/**
  Disputes and the withdrawals they hold.  Requests are serialised; a transaction that fails leaves no trace.
*/
module DisputeHolds {
  import opened Options

  datatype DisputeStatus = Open | UnderReview | ResolvedCreator | ResolvedContributor | Closed | Resolved
  datatype Dispute = Dispute(campaign: nat, raiserWallet: string, status: DisputeStatus)
  datatype Contribution = Contribution(campaign: nat, sender: string)
  datatype Status = Pending | OnHold | Submitted | Moved(to: string)
  datatype Withdrawal = Withdrawal(
    campaign: nat, status: Status, dispute: Option<nat>, contribution: Option<nat>, isRefund: bool)
  datatype Decision = ReleaseToCreator | RefundContributors

  datatype Db = Db(disputes: seq<Dispute>, contributions: seq<Contribution>, withdrawals: seq<Withdrawal>)

  datatype Reply = Created | Updated | NotFound | NotAContributor | AlreadyResolved | Failed

  // ------------------------------------------------------------------ statements

  /** `SET status = 'on_hold', dispute_id = d WHERE campaign_id = c AND status = 'pending'`. */
  function Held(rows: seq<Withdrawal>, campaign: nat, d: nat): (r: seq<Withdrawal>)
    ensures |r| == |rows|
    ensures forall i | 0 <= i < |rows| ::
              r[i] == if rows[i].campaign == campaign && rows[i].status == Pending
                      then rows[i].(status := OnHold, dispute := Some(d)) else rows[i]
  {
    seq(|rows|, i requires 0 <= i < |rows| =>
      if rows[i].campaign == campaign && rows[i].status == Pending
      then rows[i].(status := OnHold, dispute := Some(d)) else rows[i])
  }

  /** `SET status = 'pending', dispute_id = NULL WHERE campaign_id = c AND status = 'on_hold' AND dispute_id = d`. */
  function Unheld(rows: seq<Withdrawal>, campaign: nat, d: nat): (r: seq<Withdrawal>)
    ensures |r| == |rows|
    ensures forall i | 0 <= i < |rows| ::
              r[i] == if rows[i].campaign == campaign && rows[i].status == OnHold && rows[i].dispute == Some(d)
                      then rows[i].(status := Pending, dispute := None) else rows[i]
  {
    seq(|rows|, i requires 0 <= i < |rows| =>
      if rows[i].campaign == campaign && rows[i].status == OnHold && rows[i].dispute == Some(d)
      then rows[i].(status := Pending, dispute := None) else rows[i])
  }

  /** Whether a withdrawal row already names the contribution. */
  predicate Refunded(rows: seq<Withdrawal>, contribution: nat) {
    exists i | 0 <= i < |rows| :: rows[i].contribution == Some(contribution)
  }

  /** The refundable contributions of a wallet, selected before any refund is inserted. */
  function Refundable(db: Db, campaign: nat, wallet: string, upTo: nat): (r: seq<nat>)
    requires upTo <= |db.contributions|
    ensures forall k | 0 <= k < |r| :: r[k] < upTo
    ensures forall c :: c in r <==> 0 <= c < upTo && db.contributions[c] == Contribution(campaign, wallet)
                                    && !Refunded(db.withdrawals, c)
    ensures forall j, k | 0 <= j < k < |r| :: r[j] < r[k]
  {
    if upTo == 0 then []
    else
      var c := upTo - 1;
      var front := Refundable(db, campaign, wallet, c);
      if db.contributions[c] == Contribution(campaign, wallet) && !Refunded(db.withdrawals, c) then front + [c] else front
  }

  function RefundRows(campaign: nat, d: nat, contributions: seq<nat>): (r: seq<Withdrawal>)
    ensures |r| == |contributions|
    ensures forall k | 0 <= k < |r| :: r[k] == Withdrawal(campaign, Pending, Some(d), Some(contributions[k]), true)
  {
    seq(|contributions|, k requires 0 <= k < |contributions| =>
      Withdrawal(campaign, Pending, Some(d), Some(contributions[k]), true))
  }

  function SubmittedRows(campaign: nat, d: nat, count: nat): (r: seq<Withdrawal>)
    ensures |r| == count
    ensures forall k | 0 <= k < |r| :: r[k] == Withdrawal(campaign, Submitted, Some(d), None, true)
  {
    seq(count, k => Withdrawal(campaign, Submitted, Some(d), None, true))
  }

  // ------------------------------------------------------------------ requests

  /** `POST /campaigns/:id/disputes`. */
  function AfterRaise(db: Db, campaign: nat, wallet: string, commits: bool): (Db, Reply) {
    if Contribution(campaign, wallet) !in db.contributions then (db, NotAContributor)
    else if !commits then (db, Failed)
    else
      (db.(disputes := db.disputes + [Dispute(campaign, wallet, Open)],
           withdrawals := Held(db.withdrawals, campaign, |db.disputes|)), Created)
  }

  /** `PATCH /disputes/:id`; the on-chain releases and the inserts may fail and roll everything back. */
  function AfterPatch(db: Db, d: nat, status: DisputeStatus, commits: bool): (Db, Reply)
    requires status != Resolved
  {
    if d >= |db.disputes| then (db, NotFound)
    else if !commits then (db, Failed)
    else
      var dispute := db.disputes[d];
      var rows :=
        if status == ResolvedContributor then
          db.withdrawals + RefundRows(dispute.campaign, d,
            Refundable(db, dispute.campaign, dispute.raiserWallet, |db.contributions|))
        else if status == ResolvedCreator then Unheld(db.withdrawals, dispute.campaign, d)
        else db.withdrawals;
      (db.(disputes := db.disputes[d := dispute.(status := status)], withdrawals := rows), Updated)
  }

  predicate Settles(status: DisputeStatus) {
    status == Resolved || status == ResolvedCreator || status == ResolvedContributor || status == Closed
  }

  /** `POST /admin/disputes/:id/decide`; `refunds` is how many refunds were paid on chain. */
  function AfterDecide(db: Db, d: nat, decision: Decision, refunds: nat, commits: bool): (Db, Reply) {
    if d >= |db.disputes| then (db, NotFound)
    else if Settles(db.disputes[d].status) then (db, AlreadyResolved)
    else if !commits then (db, Failed)
    else
      var dispute := db.disputes[d];
      var rows :=
        if decision == ReleaseToCreator then Unheld(db.withdrawals, dispute.campaign, d)
        else db.withdrawals + SubmittedRows(dispute.campaign, d, refunds);
      (db.(disputes := db.disputes[d := dispute.(status := Resolved)], withdrawals := rows), Updated)
  }

  lemma SameRefundable(a: Db, b: Db, campaign: nat, wallet: string, upTo: nat)
    requires a.contributions == b.contributions && a.withdrawals == b.withdrawals && upTo <= |a.contributions|
    ensures Refundable(a, campaign, wallet, upTo) == Refundable(b, campaign, wallet, upTo)
  {}

  /** A refund the ruling queues: a pending row naming the dispute and a contribution of the raiser not named before. */
  ghost predicate IsRefund(before: Db, d: nat, row: Withdrawal)
    requires d < |before.disputes|
  {
    var dispute := before.disputes[d];
    exists c | 0 <= c < |before.contributions| ::
      && row == Withdrawal(dispute.campaign, Pending, Some(d), Some(c), true)
      && before.contributions[c] == Contribution(dispute.campaign, dispute.raiserWallet)
      && !exists j | 0 <= j < |before.withdrawals| :: before.withdrawals[j].contribution == Some(c)
  }

  /** What a committed status change leaves: the status, the old rows un-held if it favours the creator, and refunds. */
  ghost predicate PatchOutcome(before: Db, after: Db, d: nat, status: DisputeStatus) {
    && d < |before.disputes|
    && var dispute := before.disputes[d];
       && after.disputes == before.disputes[d := Dispute(dispute.campaign, dispute.raiserWallet, status)]
       && after.contributions == before.contributions && |before.withdrawals| <= |after.withdrawals|
       && (status != ResolvedContributor ==> |after.withdrawals| == |before.withdrawals|)
       && (forall i | 0 <= i < |before.withdrawals| ::
             var row := before.withdrawals[i];
             after.withdrawals[i] ==
               if status == ResolvedCreator && row.campaign == dispute.campaign && row.status == OnHold && row.dispute == Some(d)
               then row.(status := Pending, dispute := None) else row)
       && forall i | |before.withdrawals| <= i < |after.withdrawals| :: IsRefund(before, d, after.withdrawals[i])
  }

  lemma RefundsAreRefunds(db: Db, d: nat, k: nat)
    requires d < |db.disputes|
    requires var dispute := db.disputes[d];
             k < |Refundable(db, dispute.campaign, dispute.raiserWallet, |db.contributions|)|
    ensures var dispute := db.disputes[d];
            var refunds := Refundable(db, dispute.campaign, dispute.raiserWallet, |db.contributions|);
            IsRefund(db, d, RefundRows(dispute.campaign, d, refunds)[k])
  {
    var dispute := db.disputes[d];
    var refunds := Refundable(db, dispute.campaign, dispute.raiserWallet, |db.contributions|);
    var c := refunds[k];
    assert c in refunds && !Refunded(db.withdrawals, c);
    hide Refundable;
  }

  lemma PatchMeans(db: Db, d: nat, status: DisputeStatus)
    requires status != Resolved
    ensures d < |db.disputes| ==> PatchOutcome(db, AfterPatch(db, d, status, true).0, d, status)
  {
    if d < |db.disputes| {
      var dispute := db.disputes[d];
      var refunds := Refundable(db, dispute.campaign, dispute.raiserWallet, |db.contributions|);
      var after := AfterPatch(db, d, status, true).0;
      hide Refundable, IsRefund;
      forall i | |db.withdrawals| <= i < |after.withdrawals| ensures IsRefund(db, d, after.withdrawals[i]) {
        RefundsAreRefunds(db, d, i - |db.withdrawals|);
      }
    }
  }

  /** The tables, and the three routes as they run statement by statement. */
  class DisputeTables {
    var db: Db

    constructor ()
      ensures db == Db([], [], [])
    {
      db := Db([], [], []);
    }

    method Raise(campaign: nat, wallet: string, commits: bool) returns (reply: Reply)
      modifies this
      ensures (db, reply) == AfterRaise(old(db), campaign, wallet, commits)
      ensures reply == Created <==> Contribution(campaign, wallet) in old(db).contributions && commits
      ensures reply != Created ==> db == old(db)
      ensures reply == Created ==>
                && db.disputes == old(db).disputes + [Dispute(campaign, wallet, Open)] && db.contributions == old(db).contributions
                && (forall i | 0 <= i < |db.withdrawals| && db.withdrawals[i].campaign == campaign ::
                      db.withdrawals[i].status != Pending)
                && |db.withdrawals| == |old(db).withdrawals|
                && (forall i | 0 <= i < |db.withdrawals| && old(db).withdrawals[i].campaign == campaign
                             && old(db).withdrawals[i].status == Pending ::
                      db.withdrawals[i] == old(db).withdrawals[i].(status := OnHold, dispute := Some(|old(db).disputes|)))
                && forall i | 0 <= i < |db.withdrawals| && !(old(db).withdrawals[i].campaign == campaign && old(db).withdrawals[i].status == Pending) ::
                     db.withdrawals[i] == old(db).withdrawals[i]
    {
      if Contribution(campaign, wallet) !in db.contributions { return NotAContributor; }
      var before := db;
      var id := |db.disputes|;
      db := db.(disputes := db.disputes + [Dispute(campaign, wallet, Open)]);
      db := db.(withdrawals := Held(db.withdrawals, campaign, id));
      if !commits {
        db := before;
        return Failed;
      }
      return Created;
    }

    /** One pending refund row per contribution, in order. */
    method QueueRefunds(campaign: nat, d: nat, contributions: seq<nat>)
      modifies this
      ensures db == old(db).(withdrawals := old(db).withdrawals + RefundRows(campaign, d, contributions))
    {
      var before := db;
      ghost var refunds := RefundRows(campaign, d, contributions);
      for k := 0 to |contributions|
        invariant db == before.(withdrawals := before.withdrawals + refunds[..k])
      {
        assert refunds[..k + 1] == refunds[..k] + [refunds[k]];
        db := db.(withdrawals := db.withdrawals + [Withdrawal(campaign, Pending, Some(d), Some(contributions[k]), true)]);
      }
      assert refunds[..|contributions|] == refunds;
    }

    method Patch(d: nat, status: DisputeStatus, commits: bool) returns (reply: Reply)
      requires status != Resolved
      modifies this
      ensures (db, reply) == AfterPatch(old(db), d, status, commits)
      ensures reply == Updated <==> d < |old(db).disputes| && commits
      ensures reply != Updated ==> db == old(db)
      ensures reply == Updated ==> PatchOutcome(old(db), db, d, status)
    {
      PatchMeans(db, d, status);
      hide PatchOutcome, Refunded, IsRefund;
      if d >= |db.disputes| { return NotFound; }
      var before := db;
      var dispute := db.disputes[d];
      db := db.(disputes := db.disputes[d := dispute.(status := status)]);
      if status == ResolvedContributor {
        var contributions := Refundable(db, dispute.campaign, dispute.raiserWallet, |db.contributions|);
        SameRefundable(db, before, dispute.campaign, dispute.raiserWallet, |db.contributions|);
        QueueRefunds(dispute.campaign, d, contributions);
      }
      if status == ResolvedCreator {
        db := db.(withdrawals := Unheld(db.withdrawals, dispute.campaign, d));
      }
      if !commits {
        db := before;
        return Failed;
      }
      return Updated;
    }

    method Decide(d: nat, decision: Decision, refunds: nat, commits: bool) returns (reply: Reply)
      modifies this
      ensures (db, reply) == AfterDecide(old(db), d, decision, refunds, commits)
      ensures reply == Updated <==> d < |old(db).disputes| && !Settles(old(db).disputes[d].status) && commits
      ensures reply != Updated ==> db == old(db)
      ensures reply == Updated ==>
                && db.disputes == old(db).disputes[d := old(db).disputes[d].(status := Resolved)]
                && db.contributions == old(db).contributions
                && |db.withdrawals| == |old(db).withdrawals| + (if decision == RefundContributors then refunds else 0)
                && (forall i | |old(db).withdrawals| <= i < |db.withdrawals| ::
                      db.withdrawals[i] == Withdrawal(db.disputes[d].campaign, Submitted, Some(d), None, true))
                && forall i | 0 <= i < |old(db).withdrawals| ::
                     var row := old(db).withdrawals[i];
                     if decision == ReleaseToCreator && row.status == OnHold && row.dispute == Some(d) && row.campaign == db.disputes[d].campaign
                     then db.withdrawals[i].status == Pending && db.withdrawals[i].dispute == None
                     else db.withdrawals[i] == row
    {
      if d >= |db.disputes| { return NotFound; }
      var dispute := db.disputes[d];
      if Settles(dispute.status) { return AlreadyResolved; }
      var before := db;
      db := db.(disputes := db.disputes[d := dispute.(status := Resolved)]);
      if decision == ReleaseToCreator {
        db := db.(withdrawals := Unheld(db.withdrawals, dispute.campaign, d));
      } else {
        var paid := SubmittedRows(dispute.campaign, d, refunds);
        for k := 0 to refunds
          invariant db == before.(disputes := before.disputes[d := dispute.(status := Resolved)],
                                  withdrawals := before.withdrawals + paid[..k])
        {
          assert paid[..k + 1] == paid[..k] + [paid[k]];
          db := db.(withdrawals := db.withdrawals + [Withdrawal(dispute.campaign, Submitted, Some(d), None, true)]);
        }
        assert paid[..refunds] == paid;
      }
      if !commits {
        db := before;
        return Failed;
      }
      return Updated;
    }
  }

  // ------------------------------------------------------------------ runs

  /**
    `Request` is any new withdrawal, and `Move` any other handler's status change: those handlers touch only rows
    that are not on hold, and move none to pending or on hold.
  */
  datatype Act =
    | Contribute(campaign: nat, sender: string)
    | Request(campaign: nat)
    | Move(withdrawal: nat, status: Status)
    | Raise(campaign: nat, wallet: string, commits: bool)
    | Patch(dispute: nat, ruling: DisputeStatus, commits: bool)
    | Decide(dispute: nat, decision: Decision, refunds: nat, commits: bool)

  function Step(db: Db, a: Act): Db {
    match a
    case Contribute(campaign, sender) => db.(contributions := db.contributions + [Contribution(campaign, sender)])
    case Request(campaign) => db.(withdrawals := db.withdrawals + [Withdrawal(campaign, Pending, None, None, false)])
    case Move(w, status) =>
      if w < |db.withdrawals| && db.withdrawals[w].status != OnHold && status != OnHold && status != Pending
      then db.(withdrawals := db.withdrawals[w := db.withdrawals[w].(status := status)]) else db
    case Raise(campaign, wallet, commits) => AfterRaise(db, campaign, wallet, commits).0
    case Patch(d, status, commits) => if status == Resolved then db else AfterPatch(db, d, status, commits).0
    case Decide(d, decision, refunds, commits) => AfterDecide(db, d, decision, refunds, commits).0
  }

  function Run(db: Db, acts: seq<Act>): Db
    decreases |acts|
  {
    if acts == [] then db else Step(Run(db, acts[..|acts| - 1]), acts[|acts| - 1])
  }

  /** The request resolves dispute `d` in the creator's favour and commits. */
  predicate Favours(db: Db, a: Act, d: nat) {
    d < |db.disputes| &&
    ((a.Patch? && a.dispute == d && a.ruling == ResolvedCreator && a.commits)
     || (a.Decide? && a.dispute == d && a.decision == ReleaseToCreator && a.commits && !Settles(db.disputes[d].status)))
  }

  ghost predicate RowOk(db: Db, i: nat)
    requires i < |db.withdrawals|
  {
    var row := db.withdrawals[i];
    && (row.status == OnHold ==> row.dispute.Some?)
    && (row.dispute.Some? ==> row.dispute.value < |db.disputes| && db.disputes[row.dispute.value].campaign == row.campaign)
    && (row.contribution.Some? ==>
          row.contribution.value < |db.contributions| && db.contributions[row.contribution.value].campaign == row.campaign)
  }

  ghost predicate NamedAtMostOnce(rows: seq<Withdrawal>) {
    forall i, j | 0 <= i < j < |rows| :: rows[i].contribution.Some? ==> rows[i].contribution != rows[j].contribution
  }

  /** Every on-hold withdrawal names a dispute of its own campaign, and no contribution is refunded twice by row. */
  ghost predicate Inv(db: Db) {
    (forall i | 0 <= i < |db.withdrawals| :: RowOk(db, i)) && NamedAtMostOnce(db.withdrawals)
  }

  lemma RefundsNameOnce(rows: seq<Withdrawal>, campaign: nat, d: nat, contributions: seq<nat>)
    requires NamedAtMostOnce(rows)
    requires forall k | 0 <= k < |contributions| :: !Refunded(rows, contributions[k])
    requires forall j, k | 0 <= j < k < |contributions| :: contributions[j] < contributions[k]
    ensures NamedAtMostOnce(rows + RefundRows(campaign, d, contributions))
  {
    var all := rows + RefundRows(campaign, d, contributions);
    forall i, j | 0 <= i < j < |all| && all[i].contribution.Some? ensures all[i].contribution != all[j].contribution {
      if j >= |rows| {
        var k := j - |rows|;
        assert all[j].contribution == Some(contributions[k]) && !Refunded(rows, contributions[k]);
        if i < |rows| {
          assert rows[i] == all[i];
        } else {
          assert all[i].contribution == Some(contributions[i - |rows|]);
        }
      }
    }
  }

  lemma PatchKeepsNames(db: Db, d: nat, status: DisputeStatus)
    requires NamedAtMostOnce(db.withdrawals) && status != Resolved && d < |db.disputes|
    ensures NamedAtMostOnce(AfterPatch(db, d, status, true).0.withdrawals)
  {
    var dispute := db.disputes[d];
    if status == ResolvedContributor {
      var refunds := Refundable(db, dispute.campaign, dispute.raiserWallet, |db.contributions|);
      forall k | 0 <= k < |refunds| ensures !Refunded(db.withdrawals, refunds[k]) {
        assert refunds[k] in refunds;
      }
      RefundsNameOnce(db.withdrawals, dispute.campaign, d, refunds);
    }
  }

  lemma PatchKeepsRows(db: Db, d: nat, status: DisputeStatus, i: nat)
    requires Inv(db) && status != Resolved && d < |db.disputes|
    requires i < |AfterPatch(db, d, status, true).0.withdrawals|
    ensures RowOk(AfterPatch(db, d, status, true).0, i)
  {
    if i < |db.withdrawals| {
      assert RowOk(db, i);
    } else {
      var dispute := db.disputes[d];
      var refunds := Refundable(db, dispute.campaign, dispute.raiserWallet, |db.contributions|);
      assert refunds[i - |db.withdrawals|] in refunds;
    }
  }

  lemma PatchKeepsInv(db: Db, d: nat, status: DisputeStatus, commits: bool)
    requires Inv(db) && status != Resolved
    ensures Inv(AfterPatch(db, d, status, commits).0)
  {
    if d < |db.disputes| && commits {
      var t := AfterPatch(db, d, status, commits).0;
      PatchKeepsNames(db, d, status);
      hide AfterPatch, RowOk;
      forall i | 0 <= i < |t.withdrawals| ensures RowOk(t, i) { PatchKeepsRows(db, d, status, i); }
    }
  }

  lemma StepKeepsInv(db: Db, a: Act)
    requires Inv(db)
    ensures Inv(Step(db, a))
  {
    var t := Step(db, a);
    if a.Patch? && a.ruling != Resolved {
      PatchKeepsInv(db, a.dispute, a.ruling, a.commits);
    } else {
      forall i | 0 <= i < |t.withdrawals| ensures RowOk(t, i) {
        if i < |db.withdrawals| { assert RowOk(db, i); }
      }
    }
  }

  lemma {:induction false} RunKeepsInv(db: Db, acts: seq<Act>)
    requires Inv(db)
    ensures Inv(Run(db, acts))
    decreases |acts|
  {
    if acts != [] {
      RunKeepsInv(db, acts[..|acts| - 1]);
      StepKeepsInv(Run(db, acts[..|acts| - 1]), acts[|acts| - 1]);
    }
  }

  // ------------------------------------------------------------------ holds

  /** In every run, a withdrawal on hold names a dispute of its own campaign, and no two rows refund one contribution. */
  lemma HeldNamesItsDispute(acts: seq<Act>)
    ensures var db := Run(Db([], [], []), acts);
            && (forall i | 0 <= i < |db.withdrawals| && db.withdrawals[i].status == OnHold ::
                  var d := db.withdrawals[i].dispute;
                  d.Some? && d.value < |db.disputes| && db.disputes[d.value].campaign == db.withdrawals[i].campaign)
            && forall i, j | 0 <= i < j < |db.withdrawals| && db.withdrawals[i].contribution.Some? ::
                 db.withdrawals[i].contribution != db.withdrawals[j].contribution
  {
    RunKeepsInv(Db([], [], []), acts);
    var db := Run(Db([], [], []), acts);
    forall i | 0 <= i < |db.withdrawals| && db.withdrawals[i].status == OnHold
      ensures db.withdrawals[i].dispute.Some? && db.withdrawals[i].dispute.value < |db.disputes|
      ensures db.disputes[db.withdrawals[i].dispute.value].campaign == db.withdrawals[i].campaign
    {
      assert RowOk(db, i);
    }
  }

  /** A held withdrawal stays exactly as it is until, and only until, its dispute is resolved for the creator. */
  lemma OnlyItsDisputeReleases(db: Db, a: Act, i: nat)
    requires Inv(db) && i < |db.withdrawals| && db.withdrawals[i].status == OnHold
    ensures i < |Step(db, a).withdrawals| && db.withdrawals[i].dispute.Some?
    ensures Step(db, a).withdrawals[i] ==
            if Favours(db, a, db.withdrawals[i].dispute.value)
            then db.withdrawals[i].(status := Pending, dispute := None) else db.withdrawals[i]
  {
    assert RowOk(db, i);
  }

  predicate HeldBy(db: Db, i: nat, d: nat) {
    i < |db.withdrawals| && db.withdrawals[i].status == OnHold && db.withdrawals[i].dispute == Some(d)
  }

  /** Only raising a dispute puts rows on hold for it. */
  lemma HoldsComeFromRaising(db: Db, a: Act, d: nat, i: nat)
    requires Inv(db) && d < |db.disputes| && !HeldBy(db, i, d)
    ensures !HeldBy(Step(db, a), i, d)
  {}

  ghost predicate Unresolved(db: Db, acts: seq<Act>, d: nat)
    decreases |acts|
  {
    acts == [] ||
    (Unresolved(db, acts[..|acts| - 1], d) && !Favours(Run(db, acts[..|acts| - 1]), acts[|acts| - 1], d))
  }

  lemma {:induction false} HoldsPersist(db: Db, acts: seq<Act>, d: nat, i: nat)
    requires Inv(db) && d < |db.disputes| && Unresolved(db, acts, d)
    ensures d < |Run(db, acts).disputes| && Run(db, acts).disputes[d].campaign == db.disputes[d].campaign
    ensures HeldBy(Run(db, acts), i, d) <==> HeldBy(db, i, d)
    ensures HeldBy(db, i, d) ==> Run(db, acts).withdrawals[i] == db.withdrawals[i]
    decreases |acts|
  {
    if acts != [] {
      var front, a := acts[..|acts| - 1], acts[|acts| - 1];
      HoldsPersist(db, front, d, i);
      RunKeepsInv(db, front);
      var s := Run(db, front);
      if HeldBy(s, i, d) {
        OnlyItsDisputeReleases(s, a, i);
      } else {
        HoldsComeFromRaising(s, a, d, i);
      }
    }
  }

  /**
    Raise a dispute, let anything happen that does not resolve it for the creator (other disputes included), then
    resolve it for the creator: the withdrawals that return to pending are exactly those that were pending for the
    campaign when it was raised, and no other row changes.
  */
  lemma RaiseThenResolve(db: Db, campaign: nat, wallet: string, acts: seq<Act>, resolve: Act)
    requires Inv(db) && AfterRaise(db, campaign, wallet, true).1 == Created
    requires var raised := AfterRaise(db, campaign, wallet, true).0;
             && Unresolved(raised, acts, |db.disputes|)
             && Favours(Run(raised, acts), resolve, |db.disputes|)
    ensures var before := Run(AfterRaise(db, campaign, wallet, true).0, acts);
            var after := Step(before, resolve);
            && |after.withdrawals| == |before.withdrawals|
            && forall i | 0 <= i < |before.withdrawals| ::
                 if i < |db.withdrawals| && db.withdrawals[i].campaign == campaign && db.withdrawals[i].status == Pending
                 then before.withdrawals[i] == db.withdrawals[i].(status := OnHold, dispute := Some(|db.disputes|))
                      && after.withdrawals[i] == db.withdrawals[i].(dispute := None)
                 else after.withdrawals[i] == before.withdrawals[i]
  {
    var d := |db.disputes|;
    StepKeepsInv(db, Raise(campaign, wallet, true));
    var raised := AfterRaise(db, campaign, wallet, true).0;
    RunKeepsInv(raised, acts);
    var before := Run(raised, acts);
    var after := Step(before, resolve);
    HoldsPersist(raised, acts, d, 0);
    assert after.withdrawals == Unheld(before.withdrawals, campaign, d);
    forall i | 0 <= i < |before.withdrawals|
      ensures if i < |db.withdrawals| && db.withdrawals[i].campaign == campaign && db.withdrawals[i].status == Pending
              then before.withdrawals[i] == db.withdrawals[i].(status := OnHold, dispute := Some(d))
                   && after.withdrawals[i] == db.withdrawals[i].(dispute := None)
              else after.withdrawals[i] == before.withdrawals[i]
    {
      HoldsPersist(raised, acts, d, i);
      if i < |db.withdrawals| { assert RowOk(db, i); }
    }
  }

  /** Raising and resolving at once restores the rows exactly unless a held row was a refund of an earlier dispute. */
  lemma RaiseResolveIsIdentityIff(db: Db, campaign: nat, wallet: string)
    requires Inv(db) && AfterRaise(db, campaign, wallet, true).1 == Created
    ensures var raised := AfterRaise(db, campaign, wallet, true).0;
            (AfterPatch(raised, |db.disputes|, ResolvedCreator, true).0.withdrawals == db.withdrawals)
            <==> forall i | 0 <= i < |db.withdrawals| ::
                   db.withdrawals[i].campaign == campaign && db.withdrawals[i].status == Pending ==> db.withdrawals[i].dispute.None?
  {
    var raised := AfterRaise(db, campaign, wallet, true).0;
    var patch := Patch(|db.disputes|, ResolvedCreator, true);
    assert Run(raised, []) == raised;
    RaiseThenResolve(db, campaign, wallet, [], patch);
    var after := Step(raised, patch).withdrawals;
    forall i | 0 <= i < |db.withdrawals|
      ensures after[i] == db.withdrawals[i]
              <==> (db.withdrawals[i].campaign == campaign && db.withdrawals[i].status == Pending ==> db.withdrawals[i].dispute.None?)
    {}
    if after == db.withdrawals {
      assert forall i | 0 <= i < |db.withdrawals| :: after[i] == db.withdrawals[i];
    }
  }

  // ------------------------------------------------------------------ refunds

  predicate NamedOnce(rows: seq<Withdrawal>, contribution: nat) {
    exists i | 0 <= i < |rows| :: rows[i].contribution == Some(contribution)
      && forall j | 0 <= j < |rows| :: rows[j].contribution == Some(contribution) ==> j == i
  }

  lemma NothingRefundable(db: Db, campaign: nat, wallet: string, upTo: nat)
    requires upTo <= |db.contributions|
    requires forall c | 0 <= c < upTo && db.contributions[c] == Contribution(campaign, wallet) :: Refunded(db.withdrawals, c)
    ensures Refundable(db, campaign, wallet, upTo) == []
  {}

  lemma StillRefunded(rows: seq<Withdrawal>, more: seq<Withdrawal>, c: nat)
    requires Refunded(rows, c)
    ensures Refunded(rows + more, c)
  {
    var i :| 0 <= i < |rows| && rows[i].contribution == Some(c);
    assert (rows + more)[i] == rows[i];
  }

  lemma NewlyRefunded(rows: seq<Withdrawal>, campaign: nat, d: nat, contributions: seq<nat>, c: nat)
    requires c in contributions
    ensures Refunded(rows + RefundRows(campaign, d, contributions), c)
  {
    var more := RefundRows(campaign, d, contributions);
    var k :| 0 <= k < |contributions| && contributions[k] == c;
    assert (rows + more)[|rows| + k] == more[k];
  }

  lemma RulingCovers(db: Db, d: nat, c: nat)
    requires d < |db.disputes| && c < |db.contributions|
    requires db.contributions[c] == Contribution(db.disputes[d].campaign, db.disputes[d].raiserWallet)
    ensures Refunded(AfterPatch(db, d, ResolvedContributor, true).0.withdrawals, c)
  {
    hide Refundable, RefundRows, Refunded;
    var dispute := db.disputes[d];
    var refunds := Refundable(db, dispute.campaign, dispute.raiserWallet, |db.contributions|);
    if Refunded(db.withdrawals, c) {
      StillRefunded(db.withdrawals, RefundRows(dispute.campaign, d, refunds), c);
    } else {
      assert c in refunds;
      NewlyRefunded(db.withdrawals, dispute.campaign, d, refunds, c);
    }
  }

  lemma RepeatedRulingAddsNothing(db: Db, d: nat)
    requires d < |db.disputes|
    ensures var ruled := AfterPatch(db, d, ResolvedContributor, true).0;
            AfterPatch(ruled, d, ResolvedContributor, true).0.withdrawals == ruled.withdrawals
  {
    var ruled := AfterPatch(db, d, ResolvedContributor, true).0;
    var dispute := db.disputes[d];
    assert ruled.disputes[d] == dispute.(status := ResolvedContributor) && ruled.contributions == db.contributions;
    forall c | 0 <= c < |db.contributions| && db.contributions[c] == Contribution(dispute.campaign, dispute.raiserWallet)
      ensures Refunded(ruled.withdrawals, c)
    {
      RulingCovers(db, d, c);
    }
    hide Refunded, Refundable;
    NothingRefundable(ruled, dispute.campaign, dispute.raiserWallet, |ruled.contributions|);
    assert ruled.withdrawals + RefundRows(dispute.campaign, d, []) == ruled.withdrawals;
  }

  /**
    A ruling for the contributor leaves every contribution of the raiser to the campaign named by exactly one row,
    and repeating the ruling adds none.
  */
  lemma RulingRefundsOnce(db: Db, d: nat, c: nat)
    requires Inv(db) && d < |db.disputes| && c < |db.contributions|
    requires db.contributions[c] == Contribution(db.disputes[d].campaign, db.disputes[d].raiserWallet)
    ensures var ruled := AfterPatch(db, d, ResolvedContributor, true).0;
            && NamedOnce(ruled.withdrawals, c)
            && AfterPatch(ruled, d, ResolvedContributor, true).0.withdrawals == ruled.withdrawals
  {
    var ruled := AfterPatch(db, d, ResolvedContributor, true).0;
    PatchKeepsInv(db, d, ResolvedContributor, true);
    RepeatedRulingAddsNothing(db, d);
    RulingCovers(db, d, c);
    hide AfterPatch, RowOk;
    var i :| 0 <= i < |ruled.withdrawals| && ruled.withdrawals[i].contribution == Some(c);
    forall j | 0 <= j < |ruled.withdrawals| && ruled.withdrawals[j].contribution == Some(c) ensures j == i {}
  }
}
