/** The uninterrupted run is one of the runs of the protocol, and a failed one fails again the same way. */
module MigrationRefinement {
  import opened Options
  import opened Utf16
  import opened Migrations
  import opened MigrationProtocol
  import opened MigrationOutcome

  lemma {:induction false} RunConcat<S>(engine: Engine<S>, s: System<S>, a: seq<Event>, b: seq<Event>)
    ensures Run(engine, s, a + b) == Run(engine, Run(engine, s, a), b)
    decreases |b|
  {
    hide Step;
    if b == [] {
      assert a + b == a;
    } else {
      var front := b[..|b| - 1];
      RunConcat(engine, s, a, front);
      assert (a + b)[..|a + b| - 1] == a + front && (a + b)[|a + b| - 1] == b[|b| - 1];
    }
  }

  lemma RunOne<S>(engine: Engine<S>, s: System<S>, e: Event)
    ensures Run(engine, s, [e]) == Step(engine, s, e)
  {
    assert [e][..0] == [];
  }

  /** Runner 0 alone holds the lock in some state of its run. */
  ghost predicate Alone<S>(s: System<S>, db: Db<S>, rn: Runner<S>) {
    s.db == db && s.holder == Some(0) && s.At(0) == rn && HoldsLock(rn)
  }

  /** One step of its work. */
  lemma Worked<S>(engine: Engine<S>, s: System<S>, db: Db<S>, rn: Runner<S>, act: Act) returns (t: System<S>)
    requires Alone(s, db, rn) && !act.Launch? && !act.Grant? && !act.Unlock? && !act.Crash?
    requires HoldsLock(Work(engine, db, rn, act).1)
    ensures t == Run(engine, s, [Event(0, act)])
    ensures Alone(t, Work(engine, db, rn, act).0, Work(engine, db, rn, act).1)
  {
    RunOne(engine, s, Event(0, act));
    t := Run(engine, s, [Event(0, act)]);
  }

  ghost predicate Ends<S>(engine: Engine<S>, s: System<S>, events: seq<Event>, db: Db<S>, result: RunResult) {
    var t := Run(engine, s, events);
    t.db == db && t.holder == None && t.At(0) == Stopped(Some(result))
  }

  lemma Prefixed<S>(engine: Engine<S>, s: System<S>, t: System<S>, first: seq<Event>, rest: seq<Event>, db: Db<S>, result: RunResult)
    requires t == Run(engine, s, first) && Ends(engine, t, rest, db, result)
    ensures Ends(engine, s, first + rest, db, result)
  {
    RunConcat(engine, s, first, rest);
  }

  lemma Unlocks<S>(engine: Engine<S>, s: System<S>, db: Db<S>, result: RunResult, done: Option<Job>)
    requires Alone(s, db, Unlocking(result, done))
    ensures Ends(engine, s, [Event(0, Unlock)], db, result)
  {
    RunOne(engine, s, Event(0, Unlock));
  }

  /** From a rollback the runner skips the file as a duplicate or gives up. */
  lemma AfterRollback<S>(engine: Engine<S>, s: System<S>, db: Db<S>, job: Job, code: string) returns (t: System<S>)
    requires Alone(s, db, Aborted(job, code)) && job.InRange()
    ensures t == Run(engine, s, [Event(0, Recover)])
    ensures if job.bootstrap && AlreadyCreated(code) && job.File() !in db.applied
            then Alone(t, RecordedOnly(db, job.dir, job.File()), Scanning(job.Counting()))
            else Alone(t, db, Unlocking(Failure, Some(job)))
  {
    t := Worked(engine, s, db, Aborted(job, code), Recover);
  }

  /** The file's transaction, from BEGIN to COMMIT. */
  lemma Commits<S>(engine: Engine<S>, s: System<S>, db: Db<S>, job: Job, schema: S) returns (events: seq<Event>, t: System<S>)
    requires Alone(s, db, Begun(job)) && job.InRange()
    requires engine(job.Sql(), db.schema) == Done(schema) && job.File() !in db.applied
    ensures t == Run(engine, s, events)
    ensures Alone(t, Committed(db, job.dir, job.File(), schema), Scanning(job.Counting()))
  {
    var s1 := Worked(engine, s, db, Begun(job), RunSql);
    var s2 := Worked(engine, s1, db, Ran(job, schema), InsertRow);
    t := Worked(engine, s2, db, Inserted(job, schema), Commit);
    hide Run, Alone, Work;
    RunConcat(engine, s, [Event(0, RunSql)], [Event(0, InsertRow)]);
    RunConcat(engine, s, [Event(0, RunSql)] + [Event(0, InsertRow)], [Event(0, Commit)]);
    events := [Event(0, RunSql)] + [Event(0, InsertRow)] + [Event(0, Commit)];
  }

  /** The transaction of a file that is already recorded or whose SQL fails, up to its rollback. */
  lemma RollsBack<S>(engine: Engine<S>, s: System<S>, db: Db<S>, job: Job) returns (events: seq<Event>, t: System<S>, code: string)
    requires Alone(s, db, Begun(job)) && job.InRange()
    requires engine(job.Sql(), db.schema).Done? ==> job.File() in db.applied
    ensures t == Run(engine, s, events) && Alone(t, db, Aborted(job, code))
    ensures engine(job.Sql(), db.schema).SqlError? ==> code == engine(job.Sql(), db.schema).code
    ensures engine(job.Sql(), db.schema).Done? ==> !AlreadyCreated(code)
  {
    var s1 := Worked(engine, s, db, Begun(job), RunSql);
    match engine(job.Sql(), db.schema)
    case Done(schema) =>
      t := Worked(engine, s1, db, Ran(job, schema), InsertRow);
      code := "23505";
      hide Run, Alone, Work;
      RunConcat(engine, s, [Event(0, RunSql)], [Event(0, InsertRow)]);
      events := [Event(0, RunSql)] + [Event(0, InsertRow)];
    case SqlError(failure) =>
      t, code, events := s1, failure, [Event(0, RunSql)];
  }

  /** The file loop from any position. */
  lemma {:induction false} LoopRefines<S>(engine: Engine<S>, s: System<S>, db: Db<S>, job: Job) returns (events: seq<Event>)
    requires job.dir.Valid() && job.next <= |ListUp(job.dir)| && Alone(s, db, Scanning(job))
    requires forall f :: f in ListUp(job.dir) ==> f in job.dir.content
    ensures var (after, result) := UpFrom(engine, job.dir, job.bootstrap, job.seen, job.next, job.count, db);
            Ends(engine, s, events, after, result)
    decreases |ListUp(job.dir)| - job.next
  {
    hide ListUp, Run, Ends, AlreadyCreated;
    var s1 := Worked(engine, s, db, Scanning(job), Advance);
    var first := [Event(0, Advance)];
    var rest: seq<Event>;
    var (after, result) := UpFrom(engine, job.dir, job.bootstrap, job.seen, job.next, job.count, db);
    if job.next == |ListUp(job.dir)| {
      rest := [Event(0, Unlock)];
      Unlocks(engine, s1, db, Success(job.count), Some(job));
    } else if job.File() in job.seen {
      rest := LoopRefines(engine, s1, db, job.Skipping());
    } else {
      rest := FileRefines(engine, s1, db, job);
    }
    Prefixed(engine, s, s1, first, rest, after, result);
    events := first + rest;
  }

  lemma {:induction false} FileRefines<S>(engine: Engine<S>, s: System<S>, db: Db<S>, job: Job) returns (events: seq<Event>)
    requires job.dir.Valid() && job.next < |ListUp(job.dir)| && job.InRange() && job.File() !in job.seen
    requires Alone(s, db, Begun(job)) && forall f :: f in ListUp(job.dir) ==> f in job.dir.content
    ensures var (after, result) := UpFrom(engine, job.dir, job.bootstrap, job.seen, job.next, job.count, db);
            Ends(engine, s, events, after, result)
    decreases |ListUp(job.dir)| - job.next, 0
  {
    hide ListUp, Run, Ends, AlreadyCreated, Work;
    var outcome := engine(job.Sql(), db.schema);
    var (after, result) := UpFrom(engine, job.dir, job.bootstrap, job.seen, job.next, job.count, db);
    if outcome.Done? && job.File() !in db.applied {
      var first, t := Commits(engine, s, db, job, outcome.schema);
      var rest := LoopRefines(engine, t, Committed(db, job.dir, job.File(), outcome.schema), job.Counting());
      Prefixed(engine, s, t, first, rest, after, result);
      events := first + rest;
    } else {
      var first, t, code := RollsBack(engine, s, db, job);
      var u := AfterRollback(engine, t, db, job, code);
      var rest: seq<Event>;
      if job.bootstrap && AlreadyCreated(code) && job.File() !in db.applied {
        rest := LoopRefines(engine, u, RecordedOnly(db, job.dir, job.File()), job.Counting());
      } else {
        rest := [Event(0, Unlock)];
        Unlocks(engine, u, db, Failure, Some(job));
      }
      Prefixed(engine, t, u, [Event(0, Recover)], rest, after, result);
      Prefixed(engine, s, t, first, [Event(0, Recover)] + rest, after, result);
      events := first + ([Event(0, Recover)] + rest);
    }
  }

  /**
    For every engine, directory, mode and starting database, a single runner of the protocol can end exactly as the
    uninterrupted run does, with the same result and the same database, failures and skips included.
  */
  lemma UpIsARunOfTheProtocol<S>(engine: Engine<S>, d: Directory, bootstrap: bool, db: Db<S>) returns (events: seq<Event>)
    requires d.Valid()
    ensures var (after, result) := Up(engine, d, bootstrap, db);
            Ends(engine, System(db, None, map[]), events, after, result)
  {
    ListUpIsSortedDirectory(d);
    hide ListUp, UpFrom, AllSupported, Fold;
    var s0 := System(db, None, map[]);
    var s1 := Step(engine, s0, Event(0, Launch(d, bootstrap)));
    RunOne(engine, s0, Event(0, Launch(d, bootstrap)));
    var s2 := Step(engine, s1, Event(0, Grant));
    RunOne(engine, s1, Event(0, Grant));
    assert Alone(s2, db, Locked(d, bootstrap));
    var s3 := Worked(engine, s2, db, Locked(d, bootstrap), Load);
    var (after, result) := Up(engine, d, bootstrap, db);
    var rest: seq<Event>;
    if AllSupported(d) && HashesAgree(d, db.applied) {
      rest := LoopRefines(engine, s3, db, Job(d, bootstrap, db.applied.Keys, 0, 0));
    } else {
      rest := [Event(0, Unlock)];
      Unlocks(engine, s3, db, Failure, None);
    }
    hide Run, Ends, Step;
    Prefixed(engine, s2, s3, [Event(0, Load)], rest, after, result);
    Prefixed(engine, s1, s2, [Event(0, Grant)], [Event(0, Load)] + rest, after, result);
    Prefixed(engine, s0, s1, [Event(0, Launch(d, bootstrap))], [Event(0, Grant)] + ([Event(0, Load)] + rest), after, result);
    events := [Event(0, Launch(d, bootstrap))] + ([Event(0, Grant)] + ([Event(0, Load)] + rest));
  }

  // ------------------------------------------------------------------ running again after a failure

  lemma {:induction false} SkipsTo<S>(engine: Engine<S>, d: Directory, bootstrap: bool, db: Db<S>, next: nat, j: nat)
    requires next <= j && StoppedAt(engine, d, bootstrap, db, j) && forall f :: f in ListUp(d) ==> f in d.content
    ensures UpFrom(engine, d, bootstrap, db.applied.Keys, next, 0, db) == (db, Failure)
    decreases j - next
  {
    hide ListUp;
    if next < j {
      SkipsTo(engine, d, bootstrap, db, next + 1, j);
    }
  }

  lemma KeptStaysAccepted(d: Directory, init: map<Text, Option<Fingerprint>>, applied: map<Text, Option<Fingerprint>>)
    requires !Refused(d, init) && HashesKept(d, init, applied)
    ensures !Refused(d, applied)
  {
    hide HasUpName;
    forall f, other | f in d.listing && HasUpName(f) && f in d.content && other != d.content[f] && f in applied
      ensures applied[f] != Some(Sha256(other))
    {
      assert f in init ==> applied[f] == init[f];
    }
  }

  lemma StillAccepted<S>(engine: Engine<S>, d: Directory, bootstrap: bool, init: Db<S>, db: Db<S>, next: nat)
    requires !Refused(d, init.applied) && Progress(engine, d, bootstrap, init, db, next)
    ensures !Refused(d, db.applied)
  {
    hide Fold, Refused, ScriptsOf, Ascending, SkipsOf, Passed, IsUnion, HashesKept;
    KeptStaysAccepted(d, init.applied, db.applied);
  }

  lemma AcceptedRuns<S>(engine: Engine<S>, d: Directory, bootstrap: bool, db: Db<S>)
    requires d.Valid() && AllSupported(d) && HashesAgree(d, db.applied) && forall f :: f in ListUp(d) ==> f in d.content
    ensures Up(engine, d, bootstrap, db) == UpFrom(engine, d, bootstrap, db.applied.Keys, 0, 0, db)
  {}

  /** A failed run leaves the file that failed to be retried: the same run again fails the same way and changes nothing. */
  lemma FailedRunIsRetried<S>(engine: Engine<S>, d: Directory, bootstrap: bool, init: Db<S>)
    requires d.Valid() && Up(engine, d, bootstrap, init).1 == Failure
    ensures var after := Up(engine, d, bootstrap, init).0; Up(engine, d, bootstrap, after) == (after, Failure)
  {
    UpOutcome(engine, d, bootstrap, init);
    RefusedIffChecksFail(d, init.applied);
    ListUpIsSortedDirectory(d);
    var after := Up(engine, d, bootstrap, init).0;
    if !Refused(d, init.applied) {
      hide Up, UpFrom;
      var j :| Progress(engine, d, bootstrap, init, after, j) && StoppedAt(engine, d, bootstrap, after, j);
      StillAccepted(engine, d, bootstrap, init, after, j);
      RefusedIffChecksFail(d, after.applied);
      SkipsTo(engine, d, bootstrap, after, 0, j);
      AcceptedRuns(engine, d, bootstrap, after);
    }
  }
}
