/**
  Durable idempotency keys: the three SQL statements, the middleware's decision for one request, and every
  interleaving of concurrent requests, late finishers and lost updates over one table.

  Times are seconds.  One clock stands for the application's Date.now() and the database's NOW().
*/
module Idempotency {
  import opened Options

  const TTL: nat := 86_400

  /** The primary key (actor_id, scope, key). */
  datatype KeyId = KeyId(actor: string, scope: string, key: string)

  /** A persisted HTTP result; `producer` is the request whose handler made it (history, not a column). */
  datatype Response = Response(producer: nat, status: nat, body: string)

  /** `reply` is None while the row's status is 'processing'. */
  datatype Row = Row(hash: string, reply: Option<Response>, expiresAt: int)

  type Table = map<KeyId, Row>

  // ------------------------------------------------------------------ the statements

  /** Does the conditional upsert insert or take over the row? */
  predicate Claims(rows: Table, k: KeyId, now: int) {
    k !in rows || rows[k].expiresAt <= now
  }

  function AfterClaim(rows: Table, k: KeyId, hash: string, expiresAt: int, now: int): Table {
    if Claims(rows, k, now) then rows[k := Row(hash, None, expiresAt)] else rows
  }

  function AfterPersist(rows: Table, k: KeyId, hash: string, response: Response): Table {
    if k in rows && rows[k].hash == hash then rows[k := rows[k].(reply := Some(response))] else rows
  }

  /** What a request that did not claim is answered, from the row its SELECT sees. */
  datatype Answer = KeyReused | Replay(response: Response) | Conflict

  function AnswerFrom(rows: Table, k: KeyId, hash: string): Answer {
    if k !in rows || rows[k].hash != hash then KeyReused
    else if rows[k].reply.Some? then Replay(rows[k].reply.value)
    else Conflict
  }

  datatype Decision = Execute | Answered(answer: Answer)

  class IdempotencyKeys {
    var rows: Table

    constructor ()
      ensures rows == map[]
    {
      rows := map[];
    }

    method Claim(k: KeyId, hash: string, expiresAt: int, now: int) returns (claimed: bool)
      modifies this
      ensures claimed <==> Claims(old(rows), k, now)
      ensures rows == AfterClaim(old(rows), k, hash, expiresAt, now)
    {
      if k in rows && rows[k].expiresAt > now { return false; }
      rows := rows[k := Row(hash, None, expiresAt)];
      return true;
    }

    method Persist(k: KeyId, hash: string, response: Response)
      modifies this
      ensures rows == AfterPersist(old(rows), k, hash, response)
      ensures rows.Keys == old(rows).Keys
      ensures forall other :: other in rows && other != k ==> rows[other] == old(rows)[other]
      ensures k in rows ==> rows[k].hash == old(rows)[k].hash && rows[k].expiresAt == old(rows)[k].expiresAt
      ensures k in rows && rows[k].hash != hash ==> rows == old(rows)
      ensures k in rows && rows[k].hash == hash ==> AnswerFrom(rows, k, hash) == Replay(response)
    {
      if k in rows && rows[k].hash == hash {
        rows := rows[k := rows[k].(reply := Some(response))];
      }
    }

    /**
      The middleware for a keyed, authenticated request when nothing interleaves: exactly the first use of
      a key in its lifetime executes, a retry of the same request replays or conflicts, and a different
      request under a live key is refused.  Only an executing request changes the table.
    */
    method Middleware(k: KeyId, hash: string, now: int) returns (decision: Decision)
      modifies this
      ensures decision.Execute? <==> k !in old(rows) || old(rows)[k].expiresAt <= now
      ensures decision.Execute? ==> rows == old(rows)[k := Row(hash, None, now + TTL)]
      ensures decision.Answered? ==> rows == old(rows)
      ensures decision == Answered(KeyReused) <==>
                k in old(rows) && old(rows)[k].expiresAt > now && old(rows)[k].hash != hash
      ensures forall response :: decision == Answered(Replay(response)) <==>
                k in old(rows) && old(rows)[k].expiresAt > now && old(rows)[k].hash == hash
                && old(rows)[k].reply == Some(response)
      ensures decision == Answered(Conflict) <==>
                k in old(rows) && old(rows)[k].expiresAt > now && old(rows)[k].hash == hash
                && old(rows)[k].reply == None
    {
      var claimed := Claim(k, hash, now + TTL, now);
      if claimed { return Execute; }
      var row := rows[k];
      if row.hash != hash { return Answered(KeyReused); }
      if row.reply.Some? { return Answered(Replay(row.reply.value)); }
      return Answered(Conflict);
    }
  }

  // ------------------------------------------------------------------ interleavings

  datatype Phase =
    | Idle
    | Stamped(k: KeyId, hash: string, stamp: int)         // expiry computed, INSERT not executed
    | Lost(k: KeyId, hash: string)                        // INSERT returned no row, SELECT not executed
    | Executing(k: KeyId, hash: string)                   // the handler runs
    | Persisting(k: KeyId, hash: string, response: Response)  // response sent, UPDATE in flight
    | Finished

  /** A handler execution: stamped at `stamp`, its claim committed at `at`. */
  datatype Exec = Exec(request: nat, k: KeyId, hash: string, stamp: int, at: int)
  datatype Replayed = Replayed(request: nat, k: KeyId, hash: string, response: Response)

  datatype System = System(now: int, rows: Table, phases: map<nat, Phase>,
                           execs: seq<Exec>, produced: map<nat, Response>, replays: seq<Replayed>,
                           abandoned: set<nat>)
  {
    function At(r: nat): Phase { if r in phases then phases[r] else Idle }
    function Goto(r: nat, p: Phase): System { this.(phases := phases[r := p]) }
  }

  datatype Event =
    | Tick(seconds: nat)
    | Arrive(r: nat, k: KeyId, hash: string)
    | Insert(r: nat)
    | Select(r: nat)
    | Respond(r: nat, status: nat, body: string)
    | Update(r: nat)
    | Abandon(r: nat)                                     // crash, database error or lost UPDATE

  function Step(s: System, e: Event): System {
    match e
    case Tick(seconds) => s.(now := s.now + seconds)
    case Arrive(r, k, hash) => if s.At(r).Idle? then s.Goto(r, Stamped(k, hash, s.now)) else s
    case Insert(r) =>
      (match s.At(r)
       case Stamped(k, hash, stamp) =>
         if Claims(s.rows, k, s.now)
         then s.Goto(r, Executing(k, hash)).(rows := AfterClaim(s.rows, k, hash, stamp + TTL, s.now),
                                             execs := s.execs + [Exec(r, k, hash, stamp, s.now)])
         else s.Goto(r, Lost(k, hash))
       case _ => s)
    case Select(r) =>
      (match s.At(r)
       case Lost(k, hash) =>
         var answer := AnswerFrom(s.rows, k, hash);
         s.Goto(r, Finished).(replays := s.replays + if answer.Replay? then [Replayed(r, k, hash, answer.response)] else [])
       case _ => s)
    case Respond(r, status, body) =>
      (match s.At(r)
       case Executing(k, hash) =>
         var response := Response(r, status, body);
         s.Goto(r, if 200 <= status < 600 then Persisting(k, hash, response) else Finished)
          .(produced := s.produced[r := response])
       case _ => s)
    case Update(r) =>
      (match s.At(r)
       case Persisting(k, hash, response) =>
         s.Goto(r, Finished).(rows := AfterPersist(s.rows, k, hash, response))
       case _ => s)
    case Abandon(r) => s.Goto(r, Finished).(abandoned := s.abandoned + {r})
  }

  function Run(events: seq<Event>): System
    decreases |events|
  {
    if events == [] then System(0, map[], map[], [], map[], [], {})
    else Step(Run(events[..|events| - 1]), events[|events| - 1])
  }

  /** `response` came out of an execution of this very key and request hash. */
  ghost predicate ProducedBy(s: System, k: KeyId, hash: string, response: Response) {
    && response.producer in s.produced && s.produced[response.producer] == response
    && exists i :: 0 <= i < |s.execs| && s.execs[i].request == response.producer
                   && s.execs[i].k == k && s.execs[i].hash == hash
  }

  ghost predicate RowInv(s: System, k: KeyId)
    requires k in s.rows
  {
    s.rows[k].reply.Some? ==> ProducedBy(s, k, s.rows[k].hash, s.rows[k].reply.value)
  }

  ghost predicate PhaseInv(s: System, r: nat) {
    match s.At(r)
    case Idle => r !in s.produced
    case Stamped(_, _, stamp) => stamp <= s.now && r !in s.produced
    case Executing(k, hash) =>
      && r !in s.produced
      && exists i :: 0 <= i < |s.execs| && s.execs[i].request == r && s.execs[i].k == k && s.execs[i].hash == hash
    case Lost(_, _) => r !in s.produced
    case Persisting(k, hash, response) => response.producer == r && ProducedBy(s, k, hash, response)
    case Finished => true
  }

  /** Until the first `TTL` seconds after an execution's stamp are over, its key's row is not up for takeover. */
  ghost predicate ExecInv(s: System, e: Exec) {
    && e.stamp <= e.at <= s.now
    && e.k in s.rows
    && (s.rows[e.k].expiresAt >= e.stamp + TTL || s.now >= e.stamp + TTL)
  }

  ghost predicate Gaps(execs: seq<Exec>) {
    forall i, j | 0 <= i < j < |execs| && execs[i].k == execs[j].k :: execs[j].at >= execs[i].stamp + TTL
  }

  ghost predicate ReplayInv(s: System, p: Replayed) {
    ProducedBy(s, p.k, p.hash, p.response)
  }

  ghost predicate Inv(s: System) {
    && (forall k :: k in s.rows ==> RowInv(s, k))
    && (forall r: nat :: PhaseInv(s, r))
    && (forall i | 0 <= i < |s.execs| :: ExecInv(s, s.execs[i]))
    && Gaps(s.execs)
    && (forall i | 0 <= i < |s.replays| :: ReplayInv(s, s.replays[i]))
  }

  /** The histories only grow, so what was produced stays produced. */
  ghost predicate Extends(s: System, s': System) {
    && s.execs <= s'.execs
    && forall r :: r in s.produced ==> r in s'.produced && s'.produced[r] == s.produced[r]
  }

  lemma ProducedStays(s: System, s': System, k: KeyId, hash: string, response: Response)
    requires Extends(s, s') && ProducedBy(s, k, hash, response)
    ensures ProducedBy(s', k, hash, response)
  {
    var i :| 0 <= i < |s.execs| && s.execs[i].request == response.producer && s.execs[i].k == k && s.execs[i].hash == hash;
    assert s'.execs[i] == s.execs[i];
  }

  lemma StepExtends(s: System, e: Event)
    requires Inv(s)
    ensures Extends(s, Step(s, e))
  {
    if e.Respond? { assert PhaseInv(s, e.r); }
  }

  lemma UnmovedKeepsPhase(s: System, s': System, r: nat)
    requires PhaseInv(s, r) && Extends(s, s') && s'.At(r) == s.At(r) && s.now <= s'.now
    requires r in s'.produced ==> r in s.produced
    ensures PhaseInv(s', r)
  {
    match s.At(r)
    case Executing(k, hash) =>
      var i :| 0 <= i < |s.execs| && s.execs[i].request == r && s.execs[i].k == k && s.execs[i].hash == hash;
      assert s'.execs[i] == s.execs[i];
    case Persisting(k, hash, response) => ProducedStays(s, s', k, hash, response);
    case _ =>
  }

  lemma MovedKeepsPhase(s: System, e: Event, r: nat)
    requires PhaseInv(s, r) && Step(s, e).At(r) != s.At(r)
    ensures PhaseInv(Step(s, e), r)
  {
    var s' := Step(s, e);
    if e.Insert? && s'.At(r).Executing? {
      assert s'.execs[|s.execs|] == Exec(r, s.At(r).k, s.At(r).hash, s.At(r).stamp, s.now);
    }
  }

  lemma InvPhase(s: System, r: nat)
    requires Inv(s)
    ensures PhaseInv(s, r)
  {
  }

  lemma StepKeepsPhases(s: System, e: Event)
    requires Inv(s)
    ensures forall r: nat :: PhaseInv(Step(s, e), r)
  {
    var s' := Step(s, e);
    StepExtends(s, e);
    forall r: nat ensures PhaseInv(s', r) {
      hide Inv;
      assert PhaseInv(s, r) by { InvPhase(s, r); }
      if s'.At(r) == s.At(r) {
        UnmovedKeepsPhase(s, s', r);
      } else {
        MovedKeepsPhase(s, e, r);
      }
    }
  }

  lemma StepKeepsRows(s: System, e: Event)
    requires Inv(s)
    ensures forall k :: k in Step(s, e).rows ==> RowInv(Step(s, e), k)
  {
    var s' := Step(s, e);
    StepExtends(s, e);
    forall k | k in s'.rows ensures RowInv(s', k) {
      if s'.rows[k].reply.Some? {
        var response := s'.rows[k].reply.value;
        if k in s.rows && s.rows[k] == s'.rows[k] {
          assert RowInv(s, k);
        } else {
          assert e.Update? && PhaseInv(s, e.r);
        }
        ProducedStays(s, s', k, s'.rows[k].hash, response);
      }
    }
  }

  lemma StepKeepsReplays(s: System, e: Event)
    requires Inv(s)
    ensures forall i | 0 <= i < |Step(s, e).replays| :: ReplayInv(Step(s, e), Step(s, e).replays[i])
  {
    var s' := Step(s, e);
    StepExtends(s, e);
    forall i | 0 <= i < |s'.replays| ensures ReplayInv(s', s'.replays[i]) {
      var p := s'.replays[i];
      if i < |s.replays| {
        assert ReplayInv(s, s.replays[i]);
      } else {
        assert RowInv(s, p.k);
      }
      ProducedStays(s, s', p.k, p.hash, p.response);
    }
  }

  lemma StepKeepsExecs(s: System, e: Event)
    requires Inv(s)
    ensures Gaps(Step(s, e).execs)
    ensures forall i | 0 <= i < |Step(s, e).execs| :: ExecInv(Step(s, e), Step(s, e).execs[i])
  {
    var s' := Step(s, e);
    if e.Insert? { assert PhaseInv(s, e.r); }
    forall i | 0 <= i < |s'.execs| ensures ExecInv(s', s'.execs[i]) {
      if i < |s.execs| {
        assert ExecInv(s, s.execs[i]) && s'.execs[i] == s.execs[i];
      }
    }
    forall i, j | 0 <= i < j < |s'.execs| && s'.execs[i].k == s'.execs[j].k
      ensures s'.execs[j].at >= s'.execs[i].stamp + TTL
    {
      assert ExecInv(s, s.execs[i]) && s'.execs[i] == s.execs[i];
      if j < |s.execs| { assert s'.execs[j] == s.execs[j]; }
    }
  }

  lemma {:induction false} RunInv(events: seq<Event>)
    ensures Inv(Run(events))
  {
    if events != [] {
      var s, e := Run(events[..|events| - 1]), events[|events| - 1];
      RunInv(events[..|events| - 1]);
      StepKeepsPhases(s, e);
      StepKeepsRows(s, e);
      StepKeepsReplays(s, e);
      StepKeepsExecs(s, e);
    }
  }

  // ------------------------------------------------------------------ what follows for every run

  /** Every replay is a result that an execution of the same key and the same request produced. */
  lemma ReplaysComeFromTheSameRequest(events: seq<Event>, i: nat)
    requires i < |Run(events).replays|
    ensures var s := Run(events); var p := s.replays[i];
            && p.response.producer in s.produced && s.produced[p.response.producer] == p.response
            && exists x :: x in s.execs && x.request == p.response.producer && x.k == p.k && x.hash == p.hash
  {
    RunInv(events);
    var s := Run(events);
    assert ReplayInv(s, s.replays[i]);
    var p := s.replays[i];
    var j :| 0 <= j < |s.execs| && s.execs[j].request == p.response.producer && s.execs[j].k == p.k
             && s.execs[j].hash == p.hash;
    assert s.execs[j] in s.execs;
  }

  /** A later execution of a key is claimed no earlier than the TTL after the earlier one computed its expiry. */
  lemma ExecutionsAreSpaced(events: seq<Event>, i: nat, j: nat)
    requires i < j < |Run(events).execs| && Run(events).execs[i].k == Run(events).execs[j].k
    ensures Run(events).execs[j].at >= Run(events).execs[i].stamp + TTL
  {
    RunInv(events);
  }

  /** Every INSERT executes at most `delay` seconds after its expiry was computed. */
  ghost predicate Prompt(events: seq<Event>, delay: int) {
    forall i | 0 <= i < |Run(events).execs| :: Run(events).execs[i].at <= Run(events).execs[i].stamp + delay
  }

  ghost predicate ClaimsApart(events: seq<Event>, gap: int) {
    var x := Run(events).execs;
    forall i, j | 0 <= i < j < |x| && x[i].k == x[j].k :: x[j].at - x[i].at >= gap
  }

  lemma PromptClaimsApart(events: seq<Event>, delay: int)
    requires Prompt(events, delay)
    ensures ClaimsApart(events, TTL - delay)
  {
    RunInv(events);
  }

  lemma RunSnoc(events: seq<Event>, e: Event)
    ensures Run(events + [e]) == Step(Run(events), e)
  {
    assert (events + [e])[..|events|] == events;
  }

  /** One request whose INSERT stalls for `delay` seconds, and a retry right after the expiry it wrote. */
  lemma StalledClaim(k: KeyId, delay: nat) returns (events: seq<Event>)
    requires delay <= TTL
    ensures Prompt(events, delay)
    ensures var x := Run(events).execs; |x| == 2 && x[0].k == x[1].k == k && x[1].at - x[0].at == TTL - delay
  {
    var e0 := [Arrive(0, k, "h")];
    RunSnoc([], Arrive(0, k, "h"));
    assert [] + [Arrive(0, k, "h")] == e0;
    RunSnoc(e0, Tick(delay));
    var e1 := e0 + [Tick(delay)];
    RunSnoc(e1, Insert(0));
    var e2 := e1 + [Insert(0)];
    RunSnoc(e2, Tick(TTL - delay));
    var e3 := e2 + [Tick(TTL - delay)];
    RunSnoc(e3, Arrive(1, k, "h"));
    var e4 := e3 + [Arrive(1, k, "h")];
    RunSnoc(e4, Insert(1));
    events := e4 + [Insert(1)];
    assert Run(events).execs == [Exec(0, k, "h", 0, delay), Exec(1, k, "h", TTL, TTL)];
  }

  /**
    How far apart two claims of one key are guaranteed to be: the full TTL only when the INSERT does not
    lag behind the computed expiry, and exactly the lag less in general.
  */
  lemma GuaranteedGap(delay: nat, gap: int)
    requires delay <= TTL
    ensures (forall events: seq<Event> :: Prompt(events, delay) ==> ClaimsApart(events, gap)) <==> gap <= TTL - delay
  {
    forall events: seq<Event> | Prompt(events, delay) && gap <= TTL - delay
      ensures ClaimsApart(events, gap)
    {
      PromptClaimsApart(events, delay);
    }
    if gap > TTL - delay {
      var events := StalledClaim(KeyId("actor", "scope", "key"), delay);
      assert Prompt(events, delay) && !ClaimsApart(events, gap);
    }
  }
}
