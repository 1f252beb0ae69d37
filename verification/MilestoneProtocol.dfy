/** Any number of approval handlers interleaved with every other writer of the milestone rows. */
module MilestoneProtocol {
  import opened Options
  import opened MilestoneLifecycle

  datatype Approver =
    | Idle
    | Checked(id: Id)      // passed the checks on the row it read
    | Claimer(id: Id)      // its claim committed, nothing submitted yet
    | Submitted(id: Id)    // Stellar accepted its transaction
    | Over

  /** An entry of the claim and submission histories: which handler, for which milestone. */
  datatype Mark = Mark(handler: nat, id: Id)

  /** `landed` are the milestones whose automatic release envelope is on the ledger. */
  datatype System = System(db: Db, approvers: map<nat, Approver>, used: set<Id>, claims: seq<Mark>, submissions: seq<Mark>,
                           landed: set<Id>)
  {
    function At(p: nat): Approver { if p in approvers then approvers[p] else Idle }
    function Goto(p: nat, a: Approver): System { this.(approvers := approvers[p := a]) }
    function On(db': Db): System { this.(db := db') }
  }

  datatype Event =
    | AddMilestone(id: Id, campaign: CampaignId, auto: Option<AutoConfig>)
    | ReplaceMilestones(campaign: CampaignId, ids: seq<Id>)
    | SubmitEvidence(id: Id, evidence: string, destination: string, verified: bool)
    | RejectEvidence(id: Id)
    | Enable(id: Id, config: AutoConfig)
    | Disable(id: Id)
    | HaltScheduled(campaign: CampaignId)
    | Webhook(id: Id, approved: bool)
    | WorkerClaim(id: Id)
    | WorkerFail(id: Id)
    | EnvelopeLands(id: Id)
    | WorkerFinalize(id: Id)      // reached only once the ledger reports success
    | ReadForApproval(p: nat, id: Id)
    | ClaimApproval(p: nat)
    | SubmitToStellar(p: nat, accepted: bool)
    | RecordApproval(p: nat, commits: bool)
    | Die(p: nat)

  predicate Fresh(s: System, ids: seq<Id>) {
    (forall i | 0 <= i < |ids| :: ids[i] !in s.used) && forall i, j | 0 <= i < j < |ids| :: ids[i] != ids[j]
  }

  function Step(s: System, e: Event): System {
    match e
    case AddMilestone(id, campaign, auto) =>
      if id in s.used then s else s.On(Add(s.db, id, campaign, auto)).(used := s.used + {id})
    case ReplaceMilestones(campaign, ids) =>
      if !Fresh(s, ids) then s
      else s.On(ReplacePlan(s.db, campaign, ids)).(used := s.used + set id | id in ids)
    case SubmitEvidence(id, evidence, destination, verified) => s.On(Submit(s.db, id, evidence, destination, verified))
    case RejectEvidence(id) => s.On(Reject(s.db, id))
    case Enable(id, config) => s.On(EnableAuto(s.db, id, config))
    case Disable(id) => s.On(DisableAuto(s.db, id))
    case HaltScheduled(campaign) => s.On(Halt(s.db, campaign))
    case Webhook(id, approved) => s.On(WebhookReview(s.db, id, approved))
    case WorkerClaim(id) => s.On(AutoClaim(s.db, id))
    case WorkerFail(id) => s.On(AutoFail(s.db, id))
    case EnvelopeLands(id) => if id in s.db.attempts then s.(landed := s.landed + {id}) else s
    case WorkerFinalize(id) => if id in s.landed then s.On(AutoFinalize(s.db, id)) else s
    case ReadForApproval(p, id) =>
      if s.At(p).Idle? && Has(s.db, id, PendingReview) && s.db.rows[id].evidence.Some? && s.db.rows[id].destination.Some?
      then s.Goto(p, Checked(id)) else s
    case ClaimApproval(p) =>
      if !s.At(p).Checked? then s
      else if Claimable(s.db, s.At(p).id) then
        s.On(Claim(s.db, s.At(p).id)).Goto(p, Claimer(s.At(p).id)).(claims := s.claims + [Mark(p, s.At(p).id)])
      else s.Goto(p, Over)
    case SubmitToStellar(p, accepted) =>
      if !s.At(p).Claimer? then s
      else if accepted then s.Goto(p, Submitted(s.At(p).id)).(submissions := s.submissions + [Mark(p, s.At(p).id)])
      else s.Goto(p, Over)
    case RecordApproval(p, commits) =>
      if !s.At(p).Submitted? then s
      else (if commits then s.On(Record(s.db, s.At(p).id)) else s).Goto(p, Over)
    case Die(p) => s.Goto(p, Over)
  }

  function Run(events: seq<Event>): System
    decreases |events|
  {
    if events == [] then System(Db(map[], map[], []), map[], {}, [], [], {})
    else Step(Run(events[..|events| - 1]), events[|events| - 1])
  }

  // ------------------------------------------------------------------ the database alone

  ghost predicate RowInv(db: Db, id: Id)
    requires id in db.rows
  {
    var m := db.rows[id];
    && (m.status != Pending ==> m.evidence.Some? && m.destination.Some?)
    && (m.status == Pending ==> !m.claimed && id !in db.attempts && !Paid(db, id))
    && (id in db.attempts && db.attempts[id] == Live ==> m.claimed)
    && (Paid(db, id) <==> m.status == Released)
  }

  ghost predicate DbInv(db: Db) {
    && (forall id :: id in db.rows ==> RowInv(db, id))
    && (forall id :: id in db.attempts ==> id in db.rows)
    && (forall i, j | 0 <= i < j < |db.withdrawals| :: db.withdrawals[i].milestone != db.withdrawals[j].milestone)
    && (forall i | 0 <= i < |db.withdrawals| :: db.withdrawals[i].milestone in db.rows)
  }

  /** What no transaction may do to a row that has left the planning stage. */
  ghost predicate RowStep(db: Db, db': Db, id: Id)
    requires id in db.rows && db.rows[id].status != Pending
  {
    && id in db'.rows && db'.rows[id].status != Pending
    && (db.rows[id].status == Released ==> db'.rows[id].status == Released)
    && (db.rows[id].status in {PendingReview, Released} && db'.rows[id].status in {PendingReview, Released} ==>
          db'.rows[id].config == db.rows[id].config)
    && (db.rows[id].claimed && !db'.rows[id].claimed ==> id in db.attempts && db.attempts[id] == Live)
    && (id !in db.attempts && id in db'.attempts ==> !db.rows[id].claimed)
    && (id in db.attempts ==> id in db'.attempts && (db'.attempts[id] == Live ==> db.attempts[id] == Live))
  }

  ghost predicate DbStep(db: Db, db': Db) {
    forall id :: id in db.rows && db.rows[id].status != Pending ==> RowStep(db, db', id)
  }

  lemma PayOne(db: Db, w: Withdrawal, id: Id)
    ensures Paid(db.(withdrawals := db.withdrawals + [w]), id) <==> Paid(db, id) || id == w.milestone
  {
    var ws := db.withdrawals + [w];
    if Paid(db, id) {
      var i :| 0 <= i < |db.withdrawals| && db.withdrawals[i].milestone == id;
      assert ws[i] == db.withdrawals[i];
    }
    assert ws[|db.withdrawals|] == w;
  }

  /** A transaction that rewrites one existing row and leaves the withdrawals alone. */
  lemma RewriteKeeps(db: Db, db': Db, id: Id)
    requires DbInv(db) && id in db.rows && id in db'.rows
    requires db'.rows == db.rows[id := db'.rows[id]] && db'.withdrawals == db.withdrawals
    requires db.attempts.Keys <= db'.attempts.Keys <= db.attempts.Keys + {id}
    requires forall x :: x != id && x in db.attempts ==> db'.attempts[x] == db.attempts[x]
    requires RowInv(db', id)
    requires db.rows[id].status != Pending ==> RowStep(db, db', id)
    ensures DbInv(db') && DbStep(db, db')
  {
    forall x | x in db'.rows ensures RowInv(db', x) {
      if x != id { assert RowInv(db, x); }
    }
  }

  lemma EvidenceKeeps(db: Db, id: Id, evidence: string, destination: string, verified: bool)
    requires DbInv(db)
    ensures DbInv(Submit(db, id, evidence, destination, verified))
    ensures DbStep(db, Submit(db, id, evidence, destination, verified))
  {
    var db' := Submit(db, id, evidence, destination, verified);
    if id in db.rows {
      assert RowInv(db, id) && db'.rows == db.rows[id := db'.rows[id]];
      RewriteKeeps(db, db', id);
    }
  }

  lemma RejectKeeps(db: Db, id: Id)
    requires DbInv(db)
    ensures DbInv(Reject(db, id)) && DbStep(db, Reject(db, id))
  {
    if id in db.rows {
      assert RowInv(db, id);
      assert Reject(db, id).rows == db.rows[id := Reject(db, id).rows[id]];
      RewriteKeeps(db, Reject(db, id), id);
    }
  }

  lemma WebhookKeeps(db: Db, id: Id, approved: bool)
    requires DbInv(db)
    ensures DbInv(WebhookReview(db, id, approved)) && DbStep(db, WebhookReview(db, id, approved))
  {
    if id in db.rows {
      assert RowInv(db, id);
      var db' := WebhookReview(db, id, approved);
      assert db'.rows == db.rows[id := db'.rows[id]];
      RewriteKeeps(db, db', id);
    }
  }

  lemma EnableKeeps(db: Db, id: Id, config: AutoConfig)
    requires DbInv(db)
    ensures DbInv(EnableAuto(db, id, config)) && DbStep(db, EnableAuto(db, id, config))
  {
    if id in db.rows {
      assert RowInv(db, id);
      var db' := EnableAuto(db, id, config);
      assert db'.rows == db.rows[id := db'.rows[id]];
      RewriteKeeps(db, db', id);
    }
  }

  lemma DisableKeeps(db: Db, id: Id)
    requires DbInv(db)
    ensures DbInv(DisableAuto(db, id)) && DbStep(db, DisableAuto(db, id))
  {
    if id in db.rows {
      assert RowInv(db, id);
      var db' := DisableAuto(db, id);
      assert db'.rows == db.rows[id := db'.rows[id]];
      RewriteKeeps(db, db', id);
    }
  }

  lemma HaltKeeps(db: Db, campaign: CampaignId)
    requires DbInv(db)
    ensures DbInv(Halt(db, campaign)) && DbStep(db, Halt(db, campaign))
  {
    var db' := Halt(db, campaign);
    forall x | x in db'.rows ensures RowInv(db', x) {
      assert RowInv(db, x);
    }
  }

  lemma ClaimKeeps(db: Db, id: Id)
    requires DbInv(db)
    ensures DbInv(Claim(db, id)) && DbStep(db, Claim(db, id))
  {
    if id in db.rows {
      assert RowInv(db, id);
      assert Claim(db, id).rows == db.rows[id := Claim(db, id).rows[id]];
      RewriteKeeps(db, Claim(db, id), id);
    }
  }

  lemma AutoClaimKeeps(db: Db, id: Id)
    requires DbInv(db)
    ensures DbInv(AutoClaim(db, id)) && DbStep(db, AutoClaim(db, id))
  {
    if id in db.rows {
      assert RowInv(db, id);
      assert AutoClaim(db, id).rows == db.rows[id := AutoClaim(db, id).rows[id]];
      RewriteKeeps(db, AutoClaim(db, id), id);
    }
  }

  lemma AutoFailKeeps(db: Db, id: Id)
    requires DbInv(db)
    ensures DbInv(AutoFail(db, id)) && DbStep(db, AutoFail(db, id))
  {
    if id in db.rows {
      assert RowInv(db, id);
      assert AutoFail(db, id).rows == db.rows[id := AutoFail(db, id).rows[id]];
      RewriteKeeps(db, AutoFail(db, id), id);
    }
  }

  /** Releasing a reviewed milestone and inserting its one withdrawal row. */
  lemma PayoutKeeps(db: Db, db': Db, id: Id, w: Withdrawal)
    requires DbInv(db) && id in db.rows && db.rows[id].status !in {Pending, Released}
    requires id in db'.rows && db'.rows == db.rows[id := db'.rows[id]] && db'.rows[id].status == Released
    requires db'.rows[id].evidence == db.rows[id].evidence && db'.rows[id].destination == db.rows[id].destination
    requires db'.rows[id].claimed == db.rows[id].claimed && db'.rows[id].config == db.rows[id].config
    requires db'.withdrawals == db.withdrawals + [w] && w.milestone == id
    requires db'.attempts == db.attempts || (id in db.attempts && db'.attempts == db.attempts[id := Confirmed])
    ensures DbInv(db') && DbStep(db, db')
  {
    assert RowInv(db, id);
    forall x ensures Paid(db', x) <==> Paid(db, x) || x == id {
      PayOne(db, w, x);
      assert Paid(db', x) <==> Paid(db.(withdrawals := db.withdrawals + [w]), x);
    }
    forall x | x in db'.rows ensures RowInv(db', x) {
      assert RowInv(db, x);
    }
    forall i | 0 <= i < |db.withdrawals| ensures db.withdrawals[i].milestone != id {
      assert db.withdrawals[i].milestone == id ==> Paid(db, id);
    }
  }

  lemma RecordKeeps(db: Db, id: Id)
    requires DbInv(db) && (id in db.rows ==> db.rows[id].status != Pending)
    ensures DbInv(Record(db, id)) && DbStep(db, Record(db, id))
  {
    if id in db.rows {
      assert RowInv(db, id);
      if db.rows[id].status != Released {
        assert Record(db, id).rows == db.rows[id := Record(db, id).rows[id]];
        PayoutKeeps(db, Record(db, id), id, Withdrawal(id, true));
      }
    }
  }

  lemma FinalizeKeeps(db: Db, id: Id)
    requires DbInv(db)
    ensures DbInv(AutoFinalize(db, id)) && DbStep(db, AutoFinalize(db, id))
  {
    var db' := AutoFinalize(db, id);
    if id in db.rows {
      assert RowInv(db, id);
      assert db'.rows == db.rows[id := db'.rows[id]];
      if db'.withdrawals == db.withdrawals {
        RewriteKeeps(db, db', id);
      } else {
        PayoutKeeps(db, db', id, Withdrawal(id, false));
      }
    }
  }

  lemma UnusedIsUnpaid(db: Db, id: Id)
    requires DbInv(db) && id !in db.rows
    ensures id !in db.attempts && !Paid(db, id)
  {
  }

  /** Rows that are new to the table replace rows that never left the planning stage. */
  lemma PlanKeeps(db: Db, campaign: CampaignId, ids: seq<Id>)
    requires DbInv(db) && forall id :: id in ids ==> id !in db.rows
    ensures DbInv(ReplacePlan(db, campaign, ids)) && DbStep(db, ReplacePlan(db, campaign, ids))
    ensures ReplacePlan(db, campaign, ids).rows.Keys <= db.rows.Keys + set id | id in ids
  {
    var db' := ReplacePlan(db, campaign, ids);
    if PlanOpen(db, campaign) {
      var kept := map id | id in db.rows && db.rows[id].campaign != campaign :: db.rows[id];
      InsertedRows(kept, campaign, ids);
      forall x | x in db'.rows ensures RowInv(db', x) {
        if x in ids {
          UnusedIsUnpaid(db, x);
        } else {
          assert RowInv(db, x);
        }
      }
      forall x | x in db.rows && x !in db'.rows ensures x !in db.attempts && !Paid(db, x) {
        assert RowInv(db, x);
      }
      forall i | 0 <= i < |db.withdrawals| ensures db.withdrawals[i].milestone in db'.rows {
        assert Paid(db, db.withdrawals[i].milestone);
      }
    }
  }

  lemma AddKeeps(db: Db, id: Id, campaign: CampaignId, auto: Option<AutoConfig>)
    requires DbInv(db) && id !in db.rows
    ensures DbInv(Add(db, id, campaign, auto)) && DbStep(db, Add(db, id, campaign, auto))
  {
    var db' := Add(db, id, campaign, auto);
    UnusedIsUnpaid(db, id);
    forall x | x in db'.rows ensures RowInv(db', x) {
      if x != id { assert RowInv(db, x); }
    }
  }

  // ------------------------------------------------------------------ the handlers

  ghost predicate MarkInv(db: Db, m: Mark) {
    && m.id in db.rows && db.rows[m.id].status != Pending && db.rows[m.id].claimed
    && (m.id in db.attempts ==> db.attempts[m.id] != Live)
  }

  ghost predicate ApproverInv(s: System, p: nat) {
    match s.At(p)
    case Claimer(id) => Mark(p, id) in s.claims && forall m :: m in s.submissions ==> m.handler != p
    case Submitted(id) => Mark(p, id) in s.claims && Mark(p, id) in s.submissions
    case Over => true
    case _ => forall m :: m in s.claims ==> m.handler != p
  }

  ghost predicate Marked(marks: seq<Mark>, id: Id) {
    exists m :: m in marks && m.id == id
  }

  ghost predicate Inv(s: System) {
    && DbInv(s.db) && s.db.rows.Keys <= s.used
    && (forall i, j | 0 <= i < j < |s.claims| :: s.claims[i].id != s.claims[j].id)
    && (forall m :: m in s.claims ==> MarkInv(s.db, m))
    && (forall m :: m in s.submissions ==> m in s.claims)
    && (forall i, j | 0 <= i < j < |s.submissions| :: s.submissions[i].id != s.submissions[j].id)
    && (forall p: nat :: ApproverInv(s, p))
    && (forall i | 0 <= i < |s.db.withdrawals| && s.db.withdrawals[i].manual ::
          Marked(s.submissions, s.db.withdrawals[i].milestone))
  }

  lemma MarksStay(db: Db, db': Db, m: Mark)
    requires DbStep(db, db') && MarkInv(db, m)
    ensures MarkInv(db', m)
  {
    assert RowStep(db, db', m.id);
  }

  lemma DbStepRefl(db: Db)
    requires DbInv(db)
    ensures DbStep(db, db)
  {
  }

  lemma {:induction false} DbStepOf(s: System, e: Event)
    requires Inv(s)
    ensures DbInv(Step(s, e).db) && DbStep(s.db, Step(s, e).db)
    ensures Step(s, e).db.rows.Keys <= Step(s, e).used
  {
    hide DbInv, DbStep;
    DbStepRefl(s.db);
    match e
    case AddMilestone(id, campaign, auto) => if id !in s.used { AddKeeps(s.db, id, campaign, auto); }
    case ReplaceMilestones(campaign, ids) =>
      if Fresh(s, ids) {
        forall id | id in ids ensures id !in s.db.rows {
          var i :| 0 <= i < |ids| && ids[i] == id;
        }
        PlanKeeps(s.db, campaign, ids);
      }
    case SubmitEvidence(id, evidence, destination, verified) => EvidenceKeeps(s.db, id, evidence, destination, verified);
    case RejectEvidence(id) => RejectKeeps(s.db, id);
    case Enable(id, config) => EnableKeeps(s.db, id, config);
    case Disable(id) => DisableKeeps(s.db, id);
    case HaltScheduled(campaign) => HaltKeeps(s.db, campaign);
    case Webhook(id, approved) => WebhookKeeps(s.db, id, approved);
    case WorkerClaim(id) => AutoClaimKeeps(s.db, id);
    case WorkerFail(id) => AutoFailKeeps(s.db, id);
    case WorkerFinalize(id) => FinalizeKeeps(s.db, id);
    case ClaimApproval(p) => if s.At(p).Checked? { ClaimKeeps(s.db, s.At(p).id); }
    case RecordApproval(p, commits) =>
      assert ApproverInv(s, p);
      if s.At(p).Submitted? {
        assert MarkInv(s.db, Mark(p, s.At(p).id));
        RecordKeeps(s.db, s.At(p).id);
      }
    case _ =>
  }

  lemma StepKeepsMarks(s: System, e: Event)
    requires Inv(s)
    ensures forall m :: m in Step(s, e).claims ==> MarkInv(Step(s, e).db, m)
    ensures forall i, j | 0 <= i < j < |Step(s, e).claims| :: Step(s, e).claims[i].id != Step(s, e).claims[j].id
  {
    var s' := Step(s, e);
    DbStepOf(s, e);
    forall m | m in s.claims ensures MarkInv(s'.db, m) {
      MarksStay(s.db, s'.db, m);
    }
    if s'.claims != s.claims {
      var id := s.At(e.p).id;
      assert RowInv(s.db, id);
      forall i | 0 <= i < |s.claims| ensures s.claims[i].id != id {
        assert s.claims[i] in s.claims;
        assert MarkInv(s.db, s.claims[i]);
      }
    }
  }

  /** How one step extends the three histories. */
  lemma HistoriesGrow(s: System, e: Event)
    ensures var s' := Step(s, e);
            && s'.claims == (if e.ClaimApproval? && s.At(e.p).Checked? && Claimable(s.db, s.At(e.p).id)
                             then s.claims + [Mark(e.p, s.At(e.p).id)] else s.claims)
            && s'.submissions == (if e.SubmitToStellar? && s.At(e.p).Claimer? && e.accepted
                                  then s.submissions + [Mark(e.p, s.At(e.p).id)] else s.submissions)
            && s'.db.withdrawals == (if e.RecordApproval? && s.At(e.p).Submitted? && e.commits
                                        && !Paid(s.db, s.At(e.p).id) && s.At(e.p).id in s.db.rows
                                     then s.db.withdrawals + [Withdrawal(s.At(e.p).id, true)]
                                     else if e.WorkerFinalize? && e.id in s.landed && Finalizes(s.db, e.id)
                                     then s.db.withdrawals + [Withdrawal(e.id, false)]
                                     else s.db.withdrawals)
  {}

  lemma StepKeepsSubmissions(s: System, e: Event)
    requires Inv(s)
    ensures var s' := Step(s, e);
            && (forall m :: m in s'.submissions ==> m in s'.claims)
            && (forall i, j | 0 <= i < j < |s'.submissions| :: s'.submissions[i].id != s'.submissions[j].id)
  {
    HistoriesGrow(s, e);
    hide Step, DbInv;
    var s' := Step(s, e);
    if s'.submissions != s.submissions {
      assert ApproverInv(s, e.p);
      var id := s.At(e.p).id;
      forall i | 0 <= i < |s.submissions| ensures s.submissions[i].id != id {
        var m := s.submissions[i];
        assert m in s.submissions;
        assert m in s.claims && m.handler != e.p;
        var a :| 0 <= a < |s.claims| && s.claims[a] == m;
        var b :| 0 <= b < |s.claims| && s.claims[b] == Mark(e.p, id);
        assert a != b;
      }
    }
  }

  /** A handler that did not move keeps its invariant when somebody else's mark is appended. */
  lemma OtherApproverKeeps(s: System, e: Event, p: nat)
    requires ApproverInv(s, p) && Step(s, e).At(p) == s.At(p)
    ensures ApproverInv(Step(s, e), p)
  {
  }

  lemma MovedApproverKeeps(s: System, e: Event, p: nat)
    requires ApproverInv(s, p) && Step(s, e).At(p) != s.At(p)
    requires forall m :: m in s.submissions ==> m in s.claims
    ensures ApproverInv(Step(s, e), p)
  {
  }

  lemma StepKeepsApprovers(s: System, e: Event)
    requires Inv(s)
    ensures forall p: nat :: ApproverInv(Step(s, e), p)
  {
    var s' := Step(s, e);
    forall p: nat ensures ApproverInv(s', p) {
      assert ApproverInv(s, p) && (forall m :: m in s.submissions ==> m in s.claims);
      hide Inv, DbInv, ApproverInv, Step;
      if s'.At(p) == s.At(p) {
        OtherApproverKeeps(s, e, p);
      } else {
        MovedApproverKeeps(s, e, p);
      }
    }
  }

  lemma StepKeepsManual(s: System, e: Event)
    requires Inv(s)
    ensures var s' := Step(s, e);
            forall i | 0 <= i < |s'.db.withdrawals| && s'.db.withdrawals[i].manual ::
              Marked(s'.submissions, s'.db.withdrawals[i].milestone)
  {
    HistoriesGrow(s, e);
    hide Step, DbInv;
    var s' := Step(s, e);
    assert s.submissions <= s'.submissions;
    forall i | 0 <= i < |s'.db.withdrawals| && s'.db.withdrawals[i].manual
      ensures Marked(s'.submissions, s'.db.withdrawals[i].milestone)
    {
      if i < |s.db.withdrawals| {
        assert Marked(s.submissions, s.db.withdrawals[i].milestone);
        var m :| m in s.submissions && m.id == s.db.withdrawals[i].milestone;
        assert m in s'.submissions;
      } else {
        assert ApproverInv(s, e.p);
        assert Mark(e.p, s.At(e.p).id) in s'.submissions;
      }
    }
  }

  lemma StepKeepsInv(s: System, e: Event)
    requires Inv(s)
    ensures Inv(Step(s, e)) && DbStep(s.db, Step(s, e).db)
  {
    DbStepOf(s, e);
    StepKeepsMarks(s, e);
    StepKeepsSubmissions(s, e);
    StepKeepsApprovers(s, e);
    StepKeepsManual(s, e);
  }

  lemma {:induction false} RunInv(events: seq<Event>)
    ensures Inv(Run(events))
  {
    if events != [] {
      RunInv(events[..|events| - 1]);
      StepKeepsInv(Run(events[..|events| - 1]), events[|events| - 1]);
    }
  }

  // ------------------------------------------------------------------ what follows for every run

  /**
    However many approvals, submissions, rejections, configuration changes, plan replacements and worker
    steps interleave: for each milestone at most one manual approval passes the claim, at most one of them
    reaches Stellar, at most one withdrawal row is ever written by either release path, and a manual one
    only after Stellar accepted that milestone's manual transaction.
  */
  lemma OneManualPayoutPerMilestone(events: seq<Event>)
    ensures var s := Run(events);
            && (forall i, j | 0 <= i < j < |s.claims| :: s.claims[i].id != s.claims[j].id)
            && (forall i, j | 0 <= i < j < |s.submissions| :: s.submissions[i].id != s.submissions[j].id)
            && (forall m :: m in s.submissions ==> m in s.claims)
            && (forall i, j | 0 <= i < j < |s.db.withdrawals| ::
                  s.db.withdrawals[i].milestone != s.db.withdrawals[j].milestone)
            && (forall i | 0 <= i < |s.db.withdrawals| && s.db.withdrawals[i].manual ::
                  Marked(s.submissions, s.db.withdrawals[i].milestone))
  {
    RunInv(events);
  }

  /** Money and status agree: a milestone is released exactly when its withdrawal row exists. */
  lemma ReleasedExactlyWhenPaid(events: seq<Event>, id: Id)
    ensures Has(Run(events).db, id, Released) <==> Paid(Run(events).db, id)
  {
    RunInv(events);
    var db := Run(events).db;
    if id in db.rows {
      assert RowInv(db, id);
    } else {
      UnusedIsUnpaid(db, id);
    }
  }

  /** Every milestone that has been submitted for review keeps evidence and a payout destination. */
  lemma ReviewedHasEvidence(events: seq<Event>, id: Id)
    requires id in Run(events).db.rows && Run(events).db.rows[id].status != Pending
    ensures Run(events).db.rows[id].evidence.Some? && Run(events).db.rows[id].destination.Some?
  {
    RunInv(events);
    assert RowInv(Run(events).db, id);
  }

  lemma RunNext(events: seq<Event>, e: Event)
    ensures Run(events + [e]) == Step(Run(events), e)
  {
    assert (events + [e])[..|events|] == events;
  }

  lemma RunSnoc(events: seq<Event>, more: seq<Event>, n: nat)
    requires n < |more|
    ensures Run(events + more[..n + 1]) == Step(Run(events + more[..n]), more[n])
    ensures Inv(Run(events + more[..n]))
    ensures DbStep(Run(events + more[..n]).db, Run(events + more[..n + 1]).db)
  {
    var all := events + more[..n + 1];
    assert all[..|all| - 1] == events + more[..n];
    RunInv(events + more[..n]);
    StepKeepsInv(Run(events + more[..n]), more[n]);
  }

  /** Released is final: whatever happens next, the milestone stays released. */
  lemma {:induction false} ReleasedIsFinal(events: seq<Event>, more: seq<Event>, id: Id, n: nat)
    requires n <= |more| && Has(Run(events).db, id, Released)
    ensures Has(Run(events + more[..n]).db, id, Released)
  {
    hide Run, Step, Inv, DbInv;
    if n == 0 {
      assert events + more[..0] == events;
    } else {
      ReleasedIsFinal(events, more, id, n - 1);
      RunSnoc(events, more, n - 1);
      assert RowStep(Run(events + more[..n - 1]).db, Run(events + more[..n]).db, id);
    }
  }

  ghost predicate UnderReview(db: Db, id: Id) {
    Has(db, id, PendingReview) || Has(db, id, Released)
  }

  /** The automatic-release rule, its config and its window are frozen while a milestone is under review or released. */
  lemma {:induction false} ConfigFrozenUnderReview(events: seq<Event>, more: seq<Event>, id: Id, n: nat)
    requires n <= |more|
    requires forall k: nat | k <= n :: UnderReview(Run(events + more[..k]).db, id)
    ensures UnderReview(Run(events + more[..n]).db, id) && UnderReview(Run(events + more[..0]).db, id)
    ensures Run(events + more[..n]).db.rows[id].config == Run(events + more[..0]).db.rows[id].config
  {
    hide Run, Step, Inv, DbInv;
    if n > 0 {
      ConfigFrozenUnderReview(events, more, id, n - 1);
      RunSnoc(events, more, n - 1);
      assert RowStep(Run(events + more[..n - 1]).db, Run(events + more[..n]).db, id);
    }
  }
}
