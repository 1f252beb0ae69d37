/** The other half of idempotency: a finished execution is stored, and retries of it are answered with its response. */
module IdempotencyReplay {
  import opened Options
  import opened Idempotency

  // ------------------------------------------------------------------ who owns a row

  /** Execution `i` is the latest of the key. */
  ghost predicate Latest(execs: seq<Exec>, k: KeyId, i: nat) {
    i < |execs| && execs[i].k == k && forall j | i < j < |execs| :: execs[j].k != k
  }

  ghost predicate Owns(s: System, k: KeyId, r: nat) {
    exists i: nat :: Latest(s.execs, k, i) && s.execs[i].request == r
  }

  /** The execution may still store its response, was abandoned, or produced a status that is not stored. */
  predicate Awaited(s: System, r: nat, k: KeyId, hash: string) {
    || s.At(r) == Executing(k, hash)
    || (s.At(r).Persisting? && s.At(r).k == k && s.At(r).hash == hash)
    || r in s.abandoned
    || (r in s.produced && !(200 <= s.produced[r].status < 600))
  }

  /** The row carries the hash and the lifetime of its latest execution. */
  ghost predicate RowOf(s: System, k: KeyId, i: nat)
    requires k in s.rows && i < |s.execs|
  {
    && s.rows[k].hash == s.execs[i].hash && s.rows[k].expiresAt == s.execs[i].stamp + 86_400
    && (s.rows[k].reply.None? ==> Awaited(s, s.execs[i].request, k, s.execs[i].hash))
  }

  ghost predicate RowOwned(s: System, k: KeyId)
    requires k in s.rows
  {
    exists i: nat :: Latest(s.execs, k, i) && RowOf(s, k, i)
  }

  /** A request executes at most once, and has then left the phases before its claim. */
  ghost predicate Once(s: System) {
    && (forall i, j | 0 <= i < j < |s.execs| :: s.execs[i].request != s.execs[j].request)
    && forall i | 0 <= i < |s.execs| ::
         var phase := s.At(s.execs[i].request);
         phase.Executing? || phase.Persisting? || phase.Finished?
  }

  ghost predicate Owned(s: System) {
    forall k :: k in s.rows ==> RowOwned(s, k)
  }

  lemma StepKeepsOnce(s: System, e: Event)
    requires Once(s)
    ensures Once(Step(s, e))
  {}

  lemma LatestStays(execs: seq<Exec>, x: Exec, k: KeyId, i: nat)
    requires Latest(execs, k, i) && x.k != k
    ensures Latest(execs + [x], k, i)
  {}

  lemma ClaimOwns(s: System, e: Event)
    requires e.Insert? && s.At(e.r).Stamped? && Claims(s.rows, s.At(e.r).k, s.now)
    ensures RowOwned(Step(s, e), s.At(e.r).k)
  {
    var t := Step(s, e);
    assert Latest(t.execs, s.At(e.r).k, |s.execs|) && RowOf(t, s.At(e.r).k, |s.execs|);
  }

  /** The latest execution of a request that persists is its own. */
  lemma PersistingOwner(s: System, r: nat, i: nat)
    requires Inv(s) && Once(s) && s.At(r).Persisting? && i < |s.execs| && s.execs[i].request == r
    ensures s.execs[i].k == s.At(r).k && s.execs[i].hash == s.At(r).hash
  {
    InvPhase(s, r);
  }

  lemma QuietKeepsOwner(s: System, e: Event, k: KeyId, i: nat)
    requires Inv(s) && Once(s) && k in s.rows && Latest(s.execs, k, i) && RowOf(s, k, i)
    requires !(e.Insert? && s.At(e.r).Stamped? && s.At(e.r).k == k && Claims(s.rows, k, s.now))
    ensures k in Step(s, e).rows && Latest(Step(s, e).execs, k, i) && RowOf(Step(s, e), k, i)
  {
    var r := s.execs[i].request;
    InvPhase(s, r);
    if e.Update? && s.At(e.r).Persisting? && e.r == r {
      PersistingOwner(s, r, i);
    }
    if e.Insert? && s.At(e.r).Stamped? && Claims(s.rows, s.At(e.r).k, s.now) {
      LatestStays(s.execs, Exec(e.r, s.At(e.r).k, s.At(e.r).hash, s.At(e.r).stamp, s.now), k, i);
    }
    hide Inv;
  }

  lemma StepKeepsOwned(s: System, e: Event)
    requires Inv(s) && Once(s) && Owned(s)
    ensures Owned(Step(s, e))
  {
    var t := Step(s, e);
    hide Inv, Once, Awaited;
    forall k | k in t.rows ensures RowOwned(t, k) {
      if e.Insert? && s.At(e.r).Stamped? && s.At(e.r).k == k && Claims(s.rows, k, s.now) {
        ClaimOwns(s, e);
      } else {
        assert k in s.rows;
        var i :| Latest(s.execs, k, i) && RowOf(s, k, i);
        QuietKeepsOwner(s, e, k, i);
      }
    }
  }

  lemma {:induction false} RunIsOwned(events: seq<Event>)
    ensures Once(Run(events)) && Owned(Run(events))
  {
    if events != [] {
      var front := events[..|events| - 1];
      RunIsOwned(front);
      RunInv(front);
      StepKeepsOnce(Run(front), events[|events| - 1]);
      StepKeepsOwned(Run(front), events[|events| - 1]);
    }
  }

  /**
    In every reachable state a row without a reply belongs to an execution that is still running or storing its
    response, was abandoned, or ended with a status outside 200..599; no finished response is missing.
  */
  lemma NoReplyIsLost(events: seq<Event>, k: KeyId)
    requires k in Run(events).rows && Run(events).rows[k].reply == None
    ensures var s := Run(events);
            exists i: nat :: Latest(s.execs, k, i) && s.execs[i].hash == s.rows[k].hash
              && var r := s.execs[i].request;
                 || s.At(r) == Executing(k, s.rows[k].hash)
                 || (s.At(r).Persisting? && s.At(r).k == k && s.At(r).hash == s.rows[k].hash)
                 || r in s.abandoned
                 || (r in s.produced && (s.produced[r].status < 200 || s.produced[r].status >= 600))
  {
    RunIsOwned(events);
    var s := Run(events);
    var i :| Latest(s.execs, k, i) && RowOf(s, k, i);
  }

  // ------------------------------------------------------------------ storing and replaying

  /** A handler's answer of any status from 200 to 599 goes on to be stored. */
  lemma ResponseIsPersisted(s: System, r: nat, status: nat, body: string)
    requires s.At(r).Executing?
    ensures var t := Step(s, Respond(r, status, body));
            && r in t.produced && t.produced[r] == Response(r, status, body)
            && t.At(r) == if 200 <= status && status <= 599 then Persisting(s.At(r).k, s.At(r).hash, Response(r, status, body))
                          else Finished
  {}

  /** The key's latest execution finds its own hash in the row. */
  lemma OwnerFindsItsHash(events: seq<Event>, r: nat)
    requires var s := Run(events); s.At(r).Persisting? && Owns(s, s.At(r).k, r)
    ensures var s := Run(events); s.At(r).k in s.rows && s.rows[s.At(r).k].hash == s.At(r).hash
  {
    RunInv(events);
    RunIsOwned(events);
    var s := Run(events);
    hide Run;
    var k := s.At(r).k;
    var i: nat :| Latest(s.execs, k, i) && s.execs[i].request == r;
    assert ExecInv(s, s.execs[i]);
    var j: nat :| Latest(s.execs, k, j) && RowOf(s, k, j);
    assert i == j;
    PersistingOwner(s, r, i);
  }

  /** A claim of the key, or another UPDATE of the same request hash. */
  predicate Touches(s: System, e: Event, k: KeyId) {
    || (e.Insert? && s.At(e.r).Stamped? && s.At(e.r).k == k && Claims(s.rows, k, s.now))
    || (e.Update? && s.At(e.r).Persisting? && s.At(e.r).k == k && k in s.rows && s.rows[k].hash == s.At(e.r).hash)
  }

  /** Nothing else changes the row. */
  lemma UntouchedStays(s: System, e: Event, k: KeyId)
    requires k in s.rows && !Touches(s, e, k)
    ensures k in Step(s, e).rows && Step(s, e).rows[k] == s.rows[k]
  {}

  function RunFrom(s: System, events: seq<Event>): System
    decreases |events|
  {
    if events == [] then s else Step(RunFrom(s, events[..|events| - 1]), events[|events| - 1])
  }

  ghost predicate Untouched(s: System, events: seq<Event>, k: KeyId)
    decreases |events|
  {
    events == [] ||
    (Untouched(s, events[..|events| - 1], k) && !Touches(RunFrom(s, events[..|events| - 1]), events[|events| - 1], k))
  }

  lemma {:induction false} RowStays(s: System, events: seq<Event>, k: KeyId)
    requires k in s.rows && Untouched(s, events, k)
    ensures k in RunFrom(s, events).rows && RunFrom(s, events).rows[k] == s.rows[k]
    decreases |events|
  {
    if events != [] {
      var front := events[..|events| - 1];
      RowStays(s, front, k);
      UntouchedStays(RunFrom(s, front), events[|events| - 1], k);
    }
  }

  /** A retry that lost the claim is answered with the stored response. */
  lemma SelectReplays(s: System, q: nat, k: KeyId, response: Response)
    requires s.At(q).Lost? && s.At(q).k == k && k in s.rows && s.rows[k].hash == s.At(q).hash
    requires s.rows[k].reply == Some(response)
    ensures Step(s, Select(q)).replays == s.replays + [Replayed(q, k, s.rows[k].hash, response)]
  {}

  /**
    From any reachable state: once an UPDATE has found its request hash in the row, as that of the key's latest
    execution does, every retry of that request that does not claim the key anew is answered with exactly what the
    execution produced, whatever happens in between, as long as nobody claims the key again and no other execution
    of the same request stores after it.
  */
  lemma {:induction false} StoredResponseIsReplayed(events: seq<Event>, r: nat, more: seq<Event>, q: nat)
    requires var s := Run(events);
             s.At(r).Persisting? && s.At(r).k in s.rows && s.rows[s.At(r).k].hash == s.At(r).hash
    requires Untouched(Step(Run(events), Update(r)), more, Run(events).At(r).k)
    requires var s, t := Run(events), RunFrom(Step(Run(events), Update(r)), more);
             t.At(q) == Lost(s.At(r).k, s.At(r).hash)
    ensures var s, t := Run(events), RunFrom(Step(Run(events), Update(r)), more);
            && r in s.produced && s.produced[r] == s.At(r).response
            && Step(t, Select(q)).replays == t.replays + [Replayed(q, s.At(r).k, s.At(r).hash, s.produced[r])]
  {
    var s := Run(events);
    var k := s.At(r).k;
    RunInv(events);
    InvPhase(s, r);
    var stored := Step(s, Update(r));
    assert stored.rows[k] == s.rows[k].(reply := Some(s.At(r).response));
    RowStays(stored, more, k);
    SelectReplays(RunFrom(stored, more), q, k, s.At(r).response);
  }

  /** A late finisher with the same hash replaces the stored response by its own. */
  lemma LateFinisherOverwrites(s: System, late: nat)
    requires s.At(late).Persisting? && s.At(late).k in s.rows && s.rows[s.At(late).k].hash == s.At(late).hash
    ensures Step(s, Update(late)).rows[s.At(late).k].reply == Some(s.At(late).response)
  {}

  // ------------------------------------------------------------------ a request and its retry

  function Answering(k: KeyId, hash: string): System {
    System(0, map[k := Row(hash, None, 86_400)], map[0 := Executing(k, hash)], [Exec(0, k, hash, 0, 0)], map[], [], {})
  }

  function Replied(k: KeyId, hash: string, response: Response): System {
    System(0, map[k := Row(hash, Some(response), 86_400)], map[0 := Finished], [Exec(0, k, hash, 0, 0)],
           map[0 := response], [], {})
  }

  lemma FirstRequest(k: KeyId, hash: string)
    ensures Run([Arrive(0, k, hash)] + [Insert(0)]) == Answering(k, hash)
  {
    RunSnoc([], Arrive(0, k, hash));
    assert [] + [Arrive(0, k, hash)] == [Arrive(0, k, hash)];
    RunSnoc([Arrive(0, k, hash)], Insert(0));
    assert Run([]) == System(0, map[], map[], [], map[], [], {});
    hide Run;
    assert Run([Arrive(0, k, hash)]) == System(0, map[], map[0 := Stamped(k, hash, 0)], [], map[], [], {});
  }

  lemma ItsAnswer(k: KeyId, hash: string, status: nat, body: string)
    requires 200 <= status <= 599
    ensures Run([Arrive(0, k, hash)] + [Insert(0)] + [Respond(0, status, body)] + [Update(0)])
         == Replied(k, hash, Response(0, status, body))
  {
    FirstRequest(k, hash);
    var a2 := [Arrive(0, k, hash)] + [Insert(0)];
    var a3 := a2 + [Respond(0, status, body)];
    hide Run;
    RunSnoc(a2, Respond(0, status, body));
    RunSnoc(a3, Update(0));
    var response := Response(0, status, body);
    assert Run(a3) == Answering(k, hash).(phases := map[0 := Persisting(k, hash, response)], produced := map[0 := response]);
  }

  lemma ItsRetry(k: KeyId, hash: string, response: Response)
    ensures var s := Replied(k, hash, response);
            Step(Step(Step(s, Arrive(1, k, hash)), Insert(1)), Select(1)).replays == [Replayed(1, k, hash, response)]
  {
    var s1 := Step(Replied(k, hash, response), Arrive(1, k, hash));
    assert s1.At(1) == Stamped(k, hash, 0);
    var s2 := Step(s1, Insert(1));
    assert s2.At(1) == Lost(k, hash) && s2.rows == s1.rows && s2.replays == [];
  }

  /** A request answered with any status from 200 to 599, and its retry: the retry is answered with that response. */
  lemma RetryIsReplayed(k: KeyId, hash: string, status: nat, body: string)
    requires 200 <= status <= 599
    ensures var events := [Arrive(0, k, hash)] + [Insert(0)] + [Respond(0, status, body)] + [Update(0)]
                          + [Arrive(1, k, hash)] + [Insert(1)] + [Select(1)];
            Run(events).replays == [Replayed(1, k, hash, Response(0, status, body))]
  {
    ItsAnswer(k, hash, status, body);
    ItsRetry(k, hash, Response(0, status, body));
    var a4 := [Arrive(0, k, hash)] + [Insert(0)] + [Respond(0, status, body)] + [Update(0)];
    var a5 := a4 + [Arrive(1, k, hash)];
    hide Run, Step, Replied;
    RunSnoc(a4, Arrive(1, k, hash));
    RunSnoc(a5, Insert(1));
    RunSnoc(a5 + [Insert(1)], Select(1));
  }
}
