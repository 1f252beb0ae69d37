/**
  Any number of migration runners over one database, interleaved step by step, each of which may fail or
  crash between any two database calls.  The advisory lock belongs to the database session, so the death
  of a runner releases it and rolls its open transaction back.
*/
module MigrationProtocol {
  import opened Options
  import opened Utf16
  import opened Migrations

  /** What a runner holds in memory after loadApplied: `seen` is appliedMap's key set. */
  datatype Job = Job(dir: Directory, bootstrap: bool, seen: set<Text>, next: nat, count: nat) {
    predicate InRange() { next < |ListUp(dir)| && ListUp(dir)[next] in dir.content }
    function File(): Text requires InRange() { ListUp(dir)[next] }
    function Sql(): Text requires InRange() { dir.content[File()] }
    function Skipping(): Job { this.(next := next + 1) }
    function Counting(): Job { this.(next := next + 1, count := count + 1) }
  }

  datatype Runner<S> =
    | Stopped(last: Option<RunResult>)    // not started, finished, failed or crashed
    | Waiting(dir: Directory, bootstrap: bool)  // pg_advisory_lock issued
    | Locked(dir: Directory, bootstrap: bool)   // lock granted, nothing read yet
    | Scanning(job: Job)                    // between transactions of the file loop
    | Begun(job: Job)                       // BEGIN
    | Ran(job: Job, pending: S)             // the file's SQL succeeded inside the transaction
    | Inserted(job: Job, pending: S)        // its bookkeeping row is inserted, not yet committed
    | Aborted(job: Job, code: string)       // a call failed and the transaction was rolled back
    | Unlocking(result: RunResult, done: Option<Job>)  // in the finally block

  predicate HoldsLock<S>(rn: Runner<S>) {
    !rn.Stopped? && !rn.Waiting?
  }

  datatype Act =
    | Launch(dir: Directory, bootstrap: bool)
    | Grant
    | Load
    | Advance
    | RunSql
    | InsertRow
    | Commit
    | CommitLost(code: string)              // the server committed, the client saw an error
    | Fail(code: string)                    // the pending call fails
    | Recover
    | Unlock
    | Crash

  datatype Event = Event(runner: nat, act: Act)

  datatype System<S> = System(db: Db<S>, holder: Option<nat>, runners: map<nat, Runner<S>>) {
    function At(r: nat): Runner<S> {
      if r in runners then runners[r] else Stopped(None)
    }
  }

  /** The new database and runner when `rn`, which holds the lock, takes a step of the run. */
  function Work<S>(engine: Engine<S>, db: Db<S>, rn: Runner<S>, act: Act): (Db<S>, Runner<S>)
  {
    match rn
    case Locked(dir, bootstrap) =>
      if act.Load? && AllSupported(dir) && forall f | f in ListUp(dir) && f in dir.content :: !Mismatch(dir, db.applied, f)
      then (db, Scanning(Job(dir, bootstrap, db.applied.Keys, 0, 0)))
      else if act.Load? || act.Fail? then (db, Unlocking(Failure, None))
      else (db, rn)
    case Scanning(job) =>
      if !act.Advance? then (db, rn)
      else if !job.InRange() then (db, Unlocking(Success(job.count), Some(job)))
      else if job.File() in job.seen then (db, Scanning(job.Skipping()))
      else (db, Begun(job))
    case Begun(job) =>
      if act.RunSql? && job.InRange() then
        match engine(job.Sql(), db.schema)
        case Done(schema) => (db, Ran(job, schema))
        case SqlError(code) => (db, Aborted(job, code))
      else (db, if act.Fail? then Aborted(job, act.code) else rn)
    case Ran(job, pending) =>
      if act.InsertRow? && job.InRange()
      then (db, if job.File() in db.applied then Aborted(job, "23505") else Inserted(job, pending))
      else (db, if act.Fail? then Aborted(job, act.code) else rn)
    case Inserted(job, pending) =>
      if act.Commit? && job.InRange()
      then (Committed(db, job.dir, job.File(), pending), Scanning(job.Counting()))
      else if act.CommitLost? && job.InRange()
      then (Committed(db, job.dir, job.File(), pending), Aborted(job, act.code))
      else (db, if act.Fail? then Aborted(job, act.code) else rn)
    case Aborted(job, code) =>
      if act.Recover? && job.InRange() && job.bootstrap && AlreadyCreated(code) && job.File() !in db.applied
      then (RecordedOnly(db, job.dir, job.File()), Scanning(job.Counting()))
      else if act.CommitLost? && job.InRange() && job.bootstrap && AlreadyCreated(code) && job.File() !in db.applied
      then (RecordedOnly(db, job.dir, job.File()), Unlocking(Failure, None))
      else if act.Recover? || act.Fail? then (db, Unlocking(Failure, Some(job)))
      else (db, rn)
    case _ => (db, rn)
  }

  function Step<S>(engine: Engine<S>, s: System<S>, e: Event): System<S> {
    var r, rn := e.runner, s.At(e.runner);
    match e.act
    case Launch(dir, bootstrap) =>
      if rn.Stopped? then s.(runners := s.runners[r := Waiting(dir, bootstrap)]) else s
    case Grant =>
      if rn.Waiting? && s.holder == None
      then s.(holder := Some(r), runners := s.runners[r := Locked(rn.dir, rn.bootstrap)])
      else s
    case Unlock =>
      if rn.Unlocking? then s.(holder := None, runners := s.runners[r := Stopped(Some(rn.result))]) else s
    case Crash =>
      System(s.db, if HoldsLock(rn) then None else s.holder, s.runners[r := Stopped(None)])
    case _ =>
      if HoldsLock(rn)
      then var (db, rn') := Work(engine, s.db, rn, e.act); s.(db := db, runners := s.runners[r := rn'])
      else if rn.Waiting? && e.act.Fail? then s.(runners := s.runners[r := Stopped(Some(Failure))])
      else s
  }

  function Run<S>(engine: Engine<S>, s: System<S>, events: seq<Event>): System<S>
    decreases |events|
  {
    if events == [] then s
    else Step(engine, Run(engine, s, events[..|events| - 1]), events[|events| - 1])
  }

  function Start<S>(schema: S, applied: map<Text, Option<Fingerprint>>): System<S> {
    System(Db(schema, applied, [], []), None, map[])
  }

  ghost predicate ValidEvents(events: seq<Event>) {
    forall e :: e in events && e.act.Launch? ==> e.act.dir.Valid()
  }

  ghost predicate Strict(events: seq<Event>) {
    forall e :: e in events && e.act.Launch? ==> !e.act.bootstrap
  }

  // ------------------------------------------------------------------ safety of every run

  ghost predicate JobInv<S>(db: Db<S>, job: Job) {
    && job.dir.Valid() && job.next <= |ListUp(job.dir)| && job.seen <= db.applied.Keys
    && forall i | 0 <= i < job.next :: ListUp(job.dir)[i] in db.applied
  }

  /** What the lock holder may rely on about the database while it works on a file. */
  ghost predicate RunnerInv<S>(engine: Engine<S>, db: Db<S>, rn: Runner<S>) {
    match rn
    case Stopped(_) => true
    case Waiting(dir, _) => dir.Valid()
    case Locked(dir, _) => dir.Valid()
    case Scanning(job) => JobInv(db, job) && job.count + |job.seen| == |db.applied|
    case Begun(job) => JobInv(db, job) && job.InRange() && job.count + |job.seen| == |db.applied|
    case Ran(job, pending) =>
      JobInv(db, job) && job.InRange() && job.count + |job.seen| == |db.applied| &&
      engine(job.Sql(), db.schema) == Done(pending)
    case Inserted(job, pending) =>
      JobInv(db, job) && job.InRange() && job.count + |job.seen| == |db.applied| &&
      engine(job.Sql(), db.schema) == Done(pending) && job.File() !in db.applied
    case Aborted(job, _) =>
      JobInv(db, job) && job.InRange() &&
      (job.File() !in db.applied ==> job.count + |job.seen| == |db.applied|)
    case Unlocking(Success(count), Some(job)) =>
      JobInv(db, job) && job.next == |ListUp(job.dir)| && count == job.count &&
      job.count + |job.seen| == |db.applied|
    case Unlocking(result, _) => result.Failure?
  }

  /** The schema is the committed scripts, replayed in commit order from where the database started. */
  ghost predicate EffectsInv<S>(engine: Engine<S>, init: Db<S>, db: Db<S>) {
    Fold(engine, init.schema, db.log) == Done(db.schema)
  }

  /** Every new row is one committed script or one skipped file, never both and never twice. */
  ghost predicate BookInv<S>(init: Db<S>, db: Db<S>) {
    && (forall i, j | 0 <= i < j < |db.log| :: db.log[i].name != db.log[j].name)
    && db.applied.Keys == init.applied.Keys + Names(db.log) + (set f | f in db.skipped)
    && (forall x :: x in db.log ==> x.name !in init.applied && x.name !in db.skipped)
    && (forall x :: x in db.log ==> x.name in db.applied && db.applied[x.name] == Some(Sha256(x.sql)))
  }

  ghost predicate DbInv<S>(engine: Engine<S>, init: Db<S>, db: Db<S>) {
    EffectsInv(engine, init, db) && BookInv(init, db)
  }

  ghost predicate Inv<S>(engine: Engine<S>, init: Db<S>, s: System<S>) {
    && DbInv(engine, init, s.db)
    && (forall r: nat :: HoldsLock(s.At(r)) <==> s.holder == Some(r))
    && (forall r: nat :: RunnerInv(engine, s.db, s.At(r)))
  }

  lemma CommittedKeepsBook<S>(init: Db<S>, db: Db<S>, d: Directory, f: Text, schema: S)
    requires BookInv(init, db) && f in d.content && f !in db.applied
    ensures BookInv(init, Committed(db, d, f, schema))
  {
    var db' := Committed(db, d, f, schema);
    assert Names(db'.log) == Names(db.log) + {f};
    forall i | 0 <= i < |db.log| ensures db.log[i].name != f {
      assert db.log[i] in db.log;
      assert db.log[i].name in Names(db.log);
    }
    forall x | x in db.log ensures x.name != f {
      assert x.name in db.applied;
    }
  }

  lemma CommittedKeepsDbInv<S>(engine: Engine<S>, init: Db<S>, db: Db<S>, d: Directory, f: Text, schema: S)
    requires DbInv(engine, init, db) && f in d.content && f !in db.applied
    requires engine(d.content[f], db.schema) == Done(schema)
    ensures DbInv(engine, init, Committed(db, d, f, schema))
  {
    CommittedKeepsBook(init, db, d, f, schema);
    var log := Committed(db, d, f, schema).log;
    assert log[..|log| - 1] == db.log;
  }

  lemma RecordedKeepsDbInv<S>(engine: Engine<S>, init: Db<S>, db: Db<S>, d: Directory, f: Text)
    requires DbInv(engine, init, db) && f in d.content && f !in db.applied
    ensures DbInv(engine, init, RecordedOnly(db, d, f))
  {
    var db' := RecordedOnly(db, d, f);
    assert (set g | g in db'.skipped) == (set g | g in db.skipped) + {f};
    forall x | x in db.log ensures x.name !in db'.skipped && x.name != f {
      assert x.name in Names(db.log);
    }
  }

  lemma LoadKeepsInv<S>(engine: Engine<S>, db: Db<S>, rn: Runner<S>, act: Act)
    requires rn.Locked? && RunnerInv(engine, db, rn)
    ensures Work(engine, db, rn, act).0 == db && RunnerInv(engine, db, Work(engine, db, rn, act).1)
  {
  }

  lemma ScanKeepsInv<S>(engine: Engine<S>, db: Db<S>, rn: Runner<S>, act: Act)
    requires rn.Scanning? && RunnerInv(engine, db, rn)
    ensures Work(engine, db, rn, act).0 == db && RunnerInv(engine, db, Work(engine, db, rn, act).1)
  {
    ListUpIsSortedDirectory(rn.job.dir);
  }

  lemma BegunKeepsInv<S>(engine: Engine<S>, db: Db<S>, rn: Runner<S>, act: Act)
    requires (rn.Begun? || rn.Ran?) && RunnerInv(engine, db, rn)
    ensures Work(engine, db, rn, act).0 == db && RunnerInv(engine, db, Work(engine, db, rn, act).1)
  {
  }

  lemma RecordingKeepsInv<S>(db: Db<S>, db': Db<S>, job: Job)
    requires JobInv(db, job) && job.InRange() && job.File() !in db.applied
    requires db'.applied.Keys == db.applied.Keys + {job.File()}
    ensures |db'.applied| == |db.applied| + 1
    ensures JobInv(db', job) && JobInv(db', job.Counting())
  {
    hide ListUp;
    assert |db'.applied.Keys| == |db.applied.Keys| + 1;
  }

  /** What a runner with an inserted row can do: commit, with or without the acknowledgement, or abort. */
  lemma InsertedWork<S>(engine: Engine<S>, db: Db<S>, rn: Runner<S>, act: Act)
    requires rn.Inserted? && rn.job.InRange()
    ensures var after := Committed(db, rn.job.dir, rn.job.File(), rn.pending);
            Work(engine, db, rn, act) ==
              if act.Commit? then (after, Scanning(rn.job.Counting()))
              else if act.CommitLost? then (after, Aborted(rn.job, act.code))
              else (db, if act.Fail? then Aborted(rn.job, act.code) else rn)
  {}

  lemma CommitKeepsDb<S>(engine: Engine<S>, init: Db<S>, db: Db<S>, job: Job, pending: S)
    requires DbInv(engine, init, db) && RunnerInv(engine, db, Inserted(job, pending))
    ensures job.InRange() && DbInv(engine, init, Committed(db, job.dir, job.File(), pending))
  {
    hide DbInv, JobInv, ListUp, Committed;
    CommittedKeepsDbInv(engine, init, db, job.dir, job.File(), pending);
  }

  lemma CommitKeepsRunner<S>(engine: Engine<S>, db: Db<S>, job: Job, pending: S, code: string)
    requires RunnerInv(engine, db, Inserted(job, pending))
    ensures job.InRange()
    ensures var after := Committed(db, job.dir, job.File(), pending);
            RunnerInv(engine, after, Scanning(job.Counting())) && RunnerInv(engine, after, Aborted(job, code))
  {
    hide JobInv, ListUp;
    var after := Committed(db, job.dir, job.File(), pending);
    assert after.applied.Keys == db.applied.Keys + {job.File()};
    hide Committed;
    RecordingKeepsInv(db, after, job);
  }

  lemma AbortIsFine<S>(engine: Engine<S>, db: Db<S>, job: Job, pending: S, code: string)
    requires RunnerInv(engine, db, Inserted(job, pending))
    ensures job.InRange() && RunnerInv(engine, db, Aborted(job, code))
  {
    hide JobInv;
  }

  lemma InsertedKeepsInv<S>(engine: Engine<S>, init: Db<S>, db: Db<S>, rn: Runner<S>, act: Act)
    requires rn.Inserted? && DbInv(engine, init, db) && RunnerInv(engine, db, rn)
    ensures var (db', rn') := Work(engine, db, rn, act);
            DbInv(engine, init, db') && RunnerInv(engine, db', rn')
  {
    var code := if act.CommitLost? || act.Fail? then act.code else "";
    AbortIsFine(engine, db, rn.job, rn.pending, code);
    CommitKeepsDb(engine, init, db, rn.job, rn.pending);
    CommitKeepsRunner(engine, db, rn.job, rn.pending, code);
    InsertedWork(engine, db, rn, act);
    hide Work, RunnerInv, DbInv, Committed;
  }

  /** What a runner does after a rollback: record the skip, with or without the acknowledgement, or give up. */
  lemma AbortedWork<S>(engine: Engine<S>, db: Db<S>, rn: Runner<S>, act: Act)
    requires rn.Aborted? && rn.job.InRange()
    ensures var after := RecordedOnly(db, rn.job.dir, rn.job.File());
            var skips := rn.job.bootstrap && AlreadyCreated(rn.code) && rn.job.File() !in db.applied;
            Work(engine, db, rn, act) ==
              if act.Recover? && skips then (after, Scanning(rn.job.Counting()))
              else if act.CommitLost? && skips then (after, Unlocking(Failure, None))
              else (db, if act.Recover? || act.Fail? then Unlocking(Failure, Some(rn.job)) else rn)
  {}

  lemma SkipKeepsInv<S>(engine: Engine<S>, init: Db<S>, db: Db<S>, job: Job, code: string)
    requires DbInv(engine, init, db) && RunnerInv(engine, db, Aborted(job, code)) && job.InRange() && job.File() !in db.applied
    ensures var after := RecordedOnly(db, job.dir, job.File());
            DbInv(engine, init, after) && RunnerInv(engine, after, Scanning(job.Counting()))
  {
    hide BookInv, EffectsInv, JobInv, ListUp, LexLe, IsUpMigration, AllSupported;
    RecordedKeepsDbInv(engine, init, db, job.dir, job.File());
    RecordingKeepsInv(db, RecordedOnly(db, job.dir, job.File()), job);
  }

  lemma FailureIsFine<S>(engine: Engine<S>, db: Db<S>, done: Option<Job>)
    ensures RunnerInv(engine, db, Unlocking(Failure, done))
  {}

  lemma AbortedIsInRange<S>(engine: Engine<S>, db: Db<S>, rn: Runner<S>)
    requires rn.Aborted? && RunnerInv(engine, db, rn)
    ensures rn.job.InRange()
  {
    hide JobInv;
  }

  lemma AbortedKeepsInv<S>(engine: Engine<S>, init: Db<S>, db: Db<S>, rn: Runner<S>, act: Act)
    requires rn.Aborted? && DbInv(engine, init, db) && RunnerInv(engine, db, rn)
    ensures var (db', rn') := Work(engine, db, rn, act);
            DbInv(engine, init, db') && RunnerInv(engine, db', rn')
  {
    AbortedIsInRange(engine, db, rn);
    AbortedWork(engine, db, rn, act);
    hide Work, RunnerInv, DbInv, RecordedOnly;
    if rn.job.File() !in db.applied {
      SkipKeepsInv(engine, init, db, rn.job, rn.code);
      FailureIsFine(engine, RecordedOnly(db, rn.job.dir, rn.job.File()), None);
    }
    FailureIsFine(engine, db, Some(rn.job));
  }

  /** A working runner keeps the database invariant and its own. */
  lemma WorkKeepsInv<S>(engine: Engine<S>, init: Db<S>, db: Db<S>, rn: Runner<S>, act: Act)
    requires DbInv(engine, init, db) && RunnerInv(engine, db, rn) && HoldsLock(rn)
    ensures var (db', rn') := Work(engine, db, rn, act);
            DbInv(engine, init, db') && RunnerInv(engine, db', rn') && HoldsLock(rn')
  {
    hide BookInv, EffectsInv, JobInv;
    match rn
    case Locked(_, _) => LoadKeepsInv(engine, db, rn, act);
    case Scanning(_) => ScanKeepsInv(engine, db, rn, act);
    case Begun(_) => BegunKeepsInv(engine, db, rn, act);
    case Ran(_, _) => BegunKeepsInv(engine, db, rn, act);
    case Inserted(_, _) => InsertedKeepsInv(engine, init, db, rn, act);
    case Aborted(_, _) => AbortedKeepsInv(engine, init, db, rn, act);
    case Unlocking(_, _) =>
  }

  lemma StepKeepsInv<S>(engine: Engine<S>, init: Db<S>, s: System<S>, e: Event)
    requires Inv(engine, init, s) && (e.act.Launch? ==> e.act.dir.Valid())
    ensures Inv(engine, init, Step(engine, s, e))
  {
    hide BookInv, EffectsInv, JobInv, Work;
    var r, rn, s' := e.runner, s.At(e.runner), Step(engine, s, e);
    assert RunnerInv(engine, s.db, rn);
    assert HoldsLock(rn) <==> s.holder == Some(r);
    if HoldsLock(rn) {
      WorkKeepsInv(engine, init, s.db, rn, e.act);
    }
    forall q: nat
      ensures HoldsLock(s'.At(q)) <==> s'.holder == Some(q)
      ensures RunnerInv(engine, s'.db, s'.At(q))
    {
      assert HoldsLock(s.At(q)) <==> s.holder == Some(q);
      assert RunnerInv(engine, s.db, s.At(q));
      if q != r { assert s'.At(q) == s.At(q); }
    }
  }

  lemma {:induction false} RunKeepsInv<S>(engine: Engine<S>, init: Db<S>, s: System<S>, events: seq<Event>)
    requires Inv(engine, init, s) && ValidEvents(events)
    ensures Inv(engine, init, Run(engine, s, events))
  {
    if events != [] {
      RunKeepsInv(engine, init, s, events[..|events| - 1]);
      StepKeepsInv(engine, init, Run(engine, s, events[..|events| - 1]), events[|events| - 1]);
    }
  }
}
