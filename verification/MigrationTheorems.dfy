/** What holds of every interleaving of migration runners. */
module MigrationTheorems {
  import opened Options
  import opened Utf16
  import opened Migrations
  import opened MigrationOutcome
  import opened MigrationProtocol

  lemma StartInv<S>(engine: Engine<S>, schema: S, applied: map<Text, Option<Fingerprint>>)
    ensures Inv(engine, Start(schema, applied).db, Start(schema, applied))
  {
  }

  // ------------------------------------------------------------------ strict mode never skips

  ghost predicate StrictRunner<S>(rn: Runner<S>) {
    match rn
    case Waiting(_, bootstrap) => !bootstrap
    case Locked(_, bootstrap) => !bootstrap
    case Scanning(job) => !job.bootstrap
    case Begun(job) => !job.bootstrap
    case Ran(job, _) => !job.bootstrap
    case Inserted(job, _) => !job.bootstrap
    case Aborted(job, _) => !job.bootstrap
    case _ => true
  }

  ghost predicate StrictInv<S>(s: System<S>) {
    s.db.skipped == [] && forall r: nat :: StrictRunner(s.At(r))
  }

  lemma StepKeepsStrict<S>(engine: Engine<S>, s: System<S>, e: Event)
    requires StrictInv(s) && (e.act.Launch? ==> !e.act.bootstrap)
    ensures StrictInv(Step(engine, s, e))
  {
    var s' := Step(engine, s, e);
    assert StrictRunner(s.At(e.runner));
    forall r: nat ensures StrictRunner(s'.At(r)) {
      assert StrictRunner(s.At(r));
    }
  }

  lemma {:induction false} RunKeepsStrict<S>(engine: Engine<S>, s: System<S>, events: seq<Event>)
    requires StrictInv(s) && Strict(events)
    ensures StrictInv(Run(engine, s, events))
  {
    if events != [] {
      RunKeepsStrict(engine, s, events[..|events| - 1]);
      StepKeepsStrict(engine, Run(engine, s, events[..|events| - 1]), events[|events| - 1]);
    }
  }

  /**
    Exactly once, over any interleaving of runners of any releases, with failures, lost commit
    acknowledgements and crashes anywhere: no script's effect is committed twice or for a file that was
    already recorded, the schema is exactly the committed scripts in commit order, and a row is new
    exactly when its script was committed or it was skipped by a bootstrap run, which strict runs never do.
  */
  lemma ExactlyOnce<S>(engine: Engine<S>, schema: S, applied: map<Text, Option<Fingerprint>>, events: seq<Event>)
    requires ValidEvents(events)
    ensures var db := Run(engine, Start(schema, applied), events).db;
            && (forall i, j | 0 <= i < j < |db.log| :: db.log[i].name != db.log[j].name)
            && (forall x :: x in db.log ==> x.name !in applied && x.name !in db.skipped)
            && Fold(engine, schema, db.log) == Done(db.schema)
            && db.applied.Keys == applied.Keys + Names(db.log) + (set f | f in db.skipped)
            && (Strict(events) ==> db.skipped == [] && db.applied.Keys == applied.Keys + Names(db.log))
  {
    var s := Start(schema, applied);
    StartInv(engine, schema, applied);
    RunKeepsInv(engine, s.db, s, events);
    if Strict(events) {
      RunKeepsStrict(engine, s, events);
    }
  }

  /** At most one runner is past the advisory lock. */
  lemma OneRunnerPastTheLock<S>(engine: Engine<S>, schema: S, applied: map<Text, Option<Fingerprint>>,
                                events: seq<Event>, q: nat, r: nat)
    requires ValidEvents(events)
    requires var s := Run(engine, Start(schema, applied), events); HoldsLock(s.At(q)) && HoldsLock(s.At(r))
    ensures q == r
  {
    var s := Start(schema, applied);
    StartInv(engine, schema, applied);
    RunKeepsInv(engine, s.db, s, events);
    var s' := Run(engine, s, events);
    assert HoldsLock(s'.At(q)) ==> s'.holder == Some(q);
    assert HoldsLock(s'.At(r)) ==> s'.holder == Some(r);
  }

  /** A run about to report success has recorded every up-migration, and reports exactly the rows it added. */
  lemma ReportedCountIsRowsAdded<S>(engine: Engine<S>, schema: S, applied: map<Text, Option<Fingerprint>>,
                                    events: seq<Event>, r: nat)
    requires ValidEvents(events)
    requires Run(engine, Start(schema, applied), events).At(r).Unlocking?
    requires Run(engine, Start(schema, applied), events).At(r).result.Success?
    ensures var s := Run(engine, Start(schema, applied), events);
            && s.At(r).done.Some?
            && (var job := s.At(r).done.value;
                && job.seen <= s.db.applied.Keys
                && s.At(r).result.count == |s.db.applied| - |job.seen|
                && forall f :: f in ListUp(job.dir) ==> f in s.db.applied)
  {
    var s := Start(schema, applied);
    StartInv(engine, schema, applied);
    RunKeepsInv(engine, s.db, s, events);
    var s' := Run(engine, s, events);
    assert RunnerInv(engine, s'.db, s'.At(r));
    var job := s'.At(r).done.value;
    forall f | f in ListUp(job.dir) ensures f in s'.db.applied {
      var i :| 0 <= i < |ListUp(job.dir)| && ListUp(job.dir)[i] == f;
    }
  }

  // ------------------------------------------------------------------ one fixed directory, empty start

  ghost predicate FixedEvents(d: Directory, events: seq<Event>) {
    forall e :: e in events && e.act.Launch? ==> e.act.dir == d && !e.act.bootstrap
  }

  ghost function FirstScripts(d: Directory, n: nat): (log: seq<Script>)
    requires d.Valid() && n <= |ListUp(d)|
    ensures |log| == n
  {
    ListUpIsSortedDirectory(d);
    seq(n, i requires 0 <= i < n => Script(ListUp(d)[i], d.content[ListUp(d)[i]]))
  }

  ghost function FirstRows(d: Directory, n: nat): map<Text, Option<Fingerprint>>
    requires d.Valid() && n <= |ListUp(d)|
  {
    ListUpIsSortedDirectory(d);
    map f | f in ListUp(d)[..n] :: Some(FileHash(d, f))
  }

  ghost predicate FixedJob(d: Directory, job: Job) {
    job.dir == d && !job.bootstrap && AllSupported(d)
  }

  predicate NewFrom(up: seq<Text>, seen: set<Text>, n: nat) {
    forall i | n <= i < |up| :: up[i] !in seen
  }

  ghost predicate FixedRunner<S>(d: Directory, n: nat, rn: Runner<S>)
    requires d.Valid() && n <= |ListUp(d)|
  {
    var up := ListUp(d);
    match rn
    case Stopped(last) => last.Some? && last.value.Success? ==> n == |up| && AllSupported(d)
    case Waiting(dir, bootstrap) => dir == d && !bootstrap
    case Locked(dir, bootstrap) => dir == d && !bootstrap
    case Scanning(job) =>
      && FixedJob(d, job) && job.next <= n
      && forall i | job.next <= i < |up| :: up[i] in job.seen <==> i < n
    case Begun(job) => FixedJob(d, job) && job.next == n && NewFrom(up, job.seen, n)
    case Ran(job, _) => FixedJob(d, job) && job.next == n && NewFrom(up, job.seen, n)
    case Inserted(job, _) => FixedJob(d, job) && job.next == n && NewFrom(up, job.seen, n)
    case Aborted(job, _) => FixedJob(d, job)
    case Unlocking(result, _) => result.Success? ==> n == |up| && AllSupported(d)
  }

  ghost predicate FixedDb<S>(d: Directory, db: Db<S>)
    requires d.Valid()
  {
    && |db.log| <= |ListUp(d)|
    && db.log == FirstScripts(d, |db.log|)
    && db.applied == FirstRows(d, |db.log|)
    && db.skipped == []
  }

  ghost predicate FixedInv<S>(d: Directory, s: System<S>)
    requires d.Valid()
  {
    FixedDb(d, s.db) && forall r: nat :: FixedRunner(d, |s.db.log|, s.At(r))
  }

  lemma CommitExtendsPrefix<S>(d: Directory, db: Db<S>, schema: S)
    requires d.Valid() && FixedDb(d, db) && |db.log| < |ListUp(d)| && ListUp(d)[|db.log|] in d.content
    ensures FixedDb(d, Committed(db, d, ListUp(d)[|db.log|], schema))
    ensures |Committed(db, d, ListUp(d)[|db.log|], schema).log| == |db.log| + 1
  {
    var up, n := ListUp(d), |db.log|;
    assert up[..n + 1] == up[..n] + [up[n]];
    assert FirstScripts(d, n + 1) == FirstScripts(d, n) + [Script(up[n], d.content[up[n]])];
    assert FirstRows(d, n + 1) == FirstRows(d, n)[up[n] := Some(FileHash(d, up[n]))];
  }

  lemma LoadKeepsFixed<S>(engine: Engine<S>, d: Directory, db: Db<S>, rn: Runner<S>, act: Act)
    requires d.Valid() && FixedDb(d, db) && rn.Locked? && FixedRunner(d, |db.log|, rn)
    ensures Work(engine, db, rn, act).0 == db && FixedRunner(d, |db.log|, Work(engine, db, rn, act).1)
  {
    var up, n := ListUp(d), |db.log|;
    ListUpIsSortedDirectory(d);
    forall i | 0 <= i < |up| ensures up[i] in db.applied.Keys <==> i < n {
      assert i < n ==> up[..n][i] == up[i];
    }
  }

  lemma ScanKeepsFixed<S>(engine: Engine<S>, d: Directory, db: Db<S>, rn: Runner<S>, act: Act)
    requires d.Valid() && |db.log| <= |ListUp(d)| && rn.Scanning? && FixedRunner(d, |db.log|, rn)
    ensures Work(engine, db, rn, act).0 == db && FixedRunner(d, |db.log|, Work(engine, db, rn, act).1)
  {
    ListUpIsSortedDirectory(d);
  }

  lemma CommitKeepsFixed<S>(engine: Engine<S>, d: Directory, db: Db<S>, rn: Runner<S>, act: Act)
    requires d.Valid() && FixedDb(d, db) && rn.Inserted? && FixedRunner(d, |db.log|, rn) && rn.job.InRange()
    ensures var (db', rn') := Work(engine, db, rn, act);
            FixedDb(d, db') && |db.log| <= |db'.log| && FixedRunner(d, |db'.log|, rn')
  {
    CommitExtendsPrefix(d, db, rn.pending);
    hide FixedDb;
  }

  lemma WorkKeepsFixed<S>(engine: Engine<S>, d: Directory, db: Db<S>, rn: Runner<S>, act: Act)
    requires d.Valid() && FixedDb(d, db) && FixedRunner(d, |db.log|, rn) && RunnerInv(engine, db, rn)
    requires HoldsLock(rn)
    ensures var (db', rn') := Work(engine, db, rn, act);
            FixedDb(d, db') && |db.log| <= |db'.log| && FixedRunner(d, |db'.log|, rn')
  {
    hide JobInv;
    match rn
    case Locked(_, _) => LoadKeepsFixed(engine, d, db, rn, act);
    case Scanning(_) => ScanKeepsFixed(engine, d, db, rn, act);
    case Inserted(_, _) => CommitKeepsFixed(engine, d, db, rn, act);
    case _ =>
  }

  lemma {:induction false} StepKeepsFixed<S>(engine: Engine<S>, d: Directory, init: Db<S>, s: System<S>, e: Event)
    requires d.Valid() && FixedInv(d, s) && Inv(engine, init, s)
    requires e.act.Launch? ==> e.act.dir == d && !e.act.bootstrap
    ensures FixedInv(d, Step(engine, s, e))
    ensures |s.db.log| <= |Step(engine, s, e).db.log|
  {
    hide BookInv, EffectsInv, Work;
    var r, rn, s' := e.runner, s.At(e.runner), Step(engine, s, e);
    assert FixedRunner(d, |s.db.log|, rn) && RunnerInv(engine, s.db, rn);
    if HoldsLock(rn) {
      WorkKeepsFixed(engine, d, s.db, rn, e.act);
    }
    assert FixedDb(d, s'.db);
    forall q: nat ensures FixedRunner(d, |s'.db.log|, s'.At(q)) {
      assert FixedRunner(d, |s.db.log|, s.At(q));
      assert HoldsLock(s.At(q)) <==> s.holder == Some(q);
      assert HoldsLock(s.At(r)) <==> s.holder == Some(r);
    }
  }

  lemma {:induction false} RunKeepsFixed<S>(engine: Engine<S>, d: Directory, init: Db<S>, s: System<S>, events: seq<Event>)
    requires d.Valid() && FixedInv(d, s) && Inv(engine, init, s) && FixedEvents(d, events)
    ensures FixedInv(d, Run(engine, s, events)) && Inv(engine, init, Run(engine, s, events))
    ensures |s.db.log| <= |Run(engine, s, events).db.log|
  {
    if events != [] {
      var before, e := events[..|events| - 1], events[|events| - 1];
      RunKeepsFixed(engine, d, init, s, before);
      StepKeepsFixed(engine, d, init, Run(engine, s, before), e);
      StepKeepsInv(engine, init, Run(engine, s, before), e);
    }
  }

  // ------------------------------------------------------------------ resumption

  /** With one directory and an empty start, what is applied is always a prefix of the sorted up-list. */
  lemma AppliedIsPrefix<S>(engine: Engine<S>, d: Directory, schema: S, events: seq<Event>)
    requires d.Valid() && FixedEvents(d, events)
    ensures var db := Run(engine, Start(schema, map[]), events).db;
            && |db.log| <= |ListUp(d)|
            && db.log == FirstScripts(d, |db.log|)
            && db.applied == FirstRows(d, |db.log|)
            && Fold(engine, schema, db.log) == Done(db.schema)
  {
    var s := Start(schema, map[]);
    StartInv(engine, schema, map[]);
    RunKeepsFixed(engine, d, s.db, s, events);
  }

  /** A successful fold succeeds on every prefix. */
  lemma {:induction false} FoldPrefix<S>(engine: Engine<S>, schema: S, log: seq<Script>, n: nat)
    requires n <= |log| && Fold(engine, schema, log).Done?
    ensures Fold(engine, schema, log[..n]).Done?
    decreases |log| - n
  {
    if n == |log| {
      assert log[..n] == log;
    } else {
      FoldPrefix(engine, schema, log, n + 1);
      assert log[..n + 1][..n] == log[..n];
    }
  }

  /** If all the scripts succeed in order, the next one succeeds on the schema the first `n` leave. */
  lemma NextSucceeds<S>(engine: Engine<S>, d: Directory, schema: S, n: nat, db: Db<S>)
    requires d.Valid() && n < |ListUp(d)| && ListUp(d)[n] in d.content
    requires FixedDb(d, db) && |db.log| == n && Fold(engine, schema, db.log) == Done(db.schema)
    requires Fold(engine, schema, FirstScripts(d, |ListUp(d)|)).Done?
    ensures engine(d.content[ListUp(d)[n]], db.schema).Done?
    ensures ListUp(d)[n] !in db.applied
    ensures var db' := Committed(db, d, ListUp(d)[n], engine(d.content[ListUp(d)[n]], db.schema).schema);
            FixedDb(d, db') && |db'.log| == n + 1 && Fold(engine, schema, db'.log) == Done(db'.schema)
  {
    var up := ListUp(d);
    FoldPrefix(engine, schema, FirstScripts(d, |up|), n + 1);
    assert FirstScripts(d, |up|)[..n + 1] == FirstScripts(d, n + 1);
    assert FirstScripts(d, n + 1)[..n] == db.log;
    ListUpIsSortedDirectory(d);
    var after := engine(d.content[up[n]], db.schema).schema;
    CommitExtendsPrefix(d, db, after);
    assert Committed(db, d, up[n], after).log[..n] == db.log;
  }

  /** The uninterrupted loop from the `n`-th file on, when the first `n` scripts are in and all succeed. */
  lemma {:induction false} UpFromPrefix<S>(engine: Engine<S>, d: Directory, schema: S, n: nat, db: Db<S>)
    requires d.Valid() && n <= |ListUp(d)|
    requires FixedDb(d, db) && |db.log| == n && Fold(engine, schema, db.log) == Done(db.schema)
    requires Fold(engine, schema, FirstScripts(d, |ListUp(d)|)).Done?
    requires forall f :: f in ListUp(d) ==> f in d.content
    ensures var up := UpFrom(engine, d, false, {}, n, n, db);
            && up.1 == Success(|ListUp(d)|)
            && FixedDb(d, up.0) && |up.0.log| == |ListUp(d)|
            && Fold(engine, schema, up.0.log) == Done(up.0.schema)
    decreases |ListUp(d)| - n
  {
    hide FixedDb;
    if n < |ListUp(d)| {
      NextSucceeds(engine, d, schema, n, db);
      var f := ListUp(d)[n];
      var db' := Committed(db, d, f, engine(d.content[f], db.schema).schema);
      UpFromPrefix(engine, d, schema, n + 1, db');
    }
  }

  /** A reported success means that every script is in and the whole list passed the format check. */
  lemma SuccessIsComplete<S>(engine: Engine<S>, d: Directory, schema: S, events: seq<Event>, r: nat)
    requires d.Valid() && FixedEvents(d, events)
    requires var rn := Run(engine, Start(schema, map[]), events).At(r);
             rn.Stopped? && rn.last.Some? && rn.last.value.Success?
    ensures var db := Run(engine, Start(schema, map[]), events).db;
            FixedDb(d, db) && |db.log| == |ListUp(d)| && Fold(engine, schema, db.log) == Done(db.schema)
    ensures AllSupported(d)
    ensures FixedDb(d, Start(schema, map[]).db) && Fold(engine, schema, []) == Done(schema)
  {
    var s := Start(schema, map[]);
    StartInv(engine, schema, map[]);
    RunKeepsFixed(engine, d, s.db, s, events);
    var s' := Run(engine, s, events);
    assert FixedRunner(d, |s'.db.log|, s'.At(r));
  }

  /**
    Any sequence of failed, crashed and repeated runs, concurrent or not, in which some runner has
    reported success leaves exactly the database that one uninterrupted `up` leaves.
  */
  lemma SuccessEqualsOneUninterruptedRun<S>(engine: Engine<S>, d: Directory, schema: S, events: seq<Event>, r: nat)
    requires d.Valid() && FixedEvents(d, events)
    requires var rn := Run(engine, Start(schema, map[]), events).At(r);
             rn.Stopped? && rn.last.Some? && rn.last.value.Success?
    ensures Up(engine, d, false, Start(schema, map[]).db)
         == (Run(engine, Start(schema, map[]), events).db, Success(|ListUp(d)|))
  {
    hide UpFrom, Fold, BookInv;
    var s := Start(schema, map[]);
    var s' := Run(engine, s, events);
    SuccessIsComplete(engine, d, schema, events, r);
    ListUpIsSortedDirectory(d);
    UpFromPrefix(engine, d, schema, 0, s.db);
    assert s.db.applied.Keys == {};
    var up := UpFrom(engine, d, false, {}, 0, 0, s.db);
    assert up.0.log == s'.db.log && up.0.applied == s'.db.applied && up.0.skipped == s'.db.skipped;
  }

  /** What a successful loop leaves: everything listed is recorded, new rows carry the current hash, old rows stay. */
  lemma {:induction false} UpFromRecordsEverything<S>(engine: Engine<S>, d: Directory, bootstrap: bool, seen: set<Text>,
                                                      next: nat, count: nat, db: Db<S>)
    requires next <= |ListUp(d)| && forall f :: f in ListUp(d) ==> f in d.content
    requires seen <= db.applied.Keys && forall i | 0 <= i < next :: ListUp(d)[i] in db.applied
    requires forall f :: f in ListUp(d) && f in db.applied ==> f in d.content && !Mismatch(d, db.applied, f)
    requires UpFrom(engine, d, bootstrap, seen, next, count, db).1.Success?
    ensures var after := UpFrom(engine, d, bootstrap, seen, next, count, db).0;
            forall f :: f in ListUp(d) ==> f in after.applied && !Mismatch(d, after.applied, f)
    decreases |ListUp(d)| - next
  {
    hide ListUp, LexLe, IsUpMigration;
    var up := ListUp(d);
    if next < |up| {
      var f := up[next];
      if f in seen {
        UpFromRecordsEverything(engine, d, bootstrap, seen, next + 1, count, db);
      } else {
        match engine(d.content[f], db.schema)
        case Done(schema) =>
          UpFromRecordsEverything(engine, d, bootstrap, seen, next + 1, count + 1, Committed(db, d, f, schema));
        case SqlError(_) =>
          UpFromRecordsEverything(engine, d, bootstrap, seen, next + 1, count + 1, RecordedOnly(db, d, f));
      }
    }
  }

  /** A loop whose files are all in appliedMap changes nothing. */
  lemma {:induction false} UpFromSkipsSeen<S>(engine: Engine<S>, d: Directory, bootstrap: bool, seen: set<Text>,
                                              next: nat, db: Db<S>)
    requires next <= |ListUp(d)| && forall f :: f in ListUp(d) ==> f in d.content && f in seen
    ensures UpFrom(engine, d, bootstrap, seen, next, 0, db) == (db, Success(0))
    decreases |ListUp(d)| - next
  {
    if next < |ListUp(d)| {
      UpFromSkipsSeen(engine, d, bootstrap, seen, next + 1, db);
    }
  }

  /** From any database, after a successful run a further run of either kind succeeds and applies nothing. */
  lemma FurtherRunAppliesNothing<S>(engine: Engine<S>, d: Directory, bootstrap: bool, again: bool, db: Db<S>)
    requires d.Valid() && Up(engine, d, bootstrap, db).1.Success?
    ensures Up(engine, d, again, Up(engine, d, bootstrap, db).0) == (Up(engine, d, bootstrap, db).0, Success(0))
  {
    ListUpIsSortedDirectory(d);
    UpFromRecordsEverything(engine, d, bootstrap, db.applied.Keys, 0, 0, db);
    var after := Up(engine, d, bootstrap, db).0;
    UpFromSkipsSeen(engine, d, again, after.applied.Keys, 0, after);
  }

  /** Once some runner has reported success, no further step of any runner changes the database. */
  lemma SettledAfterSuccess<S>(engine: Engine<S>, d: Directory, schema: S, events: seq<Event>, more: seq<Event>, r: nat)
    requires d.Valid() && FixedEvents(d, events) && FixedEvents(d, more)
    requires var rn := Run(engine, Start(schema, map[]), events).At(r);
             rn.Stopped? && rn.last.Some? && rn.last.value.Success?
    ensures var s := Run(engine, Start(schema, map[]), events); Run(engine, s, more).db == s.db
  {
    var s := Start(schema, map[]);
    StartInv(engine, schema, map[]);
    RunKeepsFixed(engine, d, s.db, s, events);
    var mid := Run(engine, s, events);
    assert FixedRunner(d, |mid.db.log|, mid.At(r));
    RunKeepsFixed(engine, d, s.db, mid, more);
  }

  // ------------------------------------------------------------------ edited migrations

  ghost predicate Blocked(applied: map<Text, Option<Fingerprint>>, d: Directory) {
    d.Valid() && Refused(d, applied)
  }

  ghost predicate BlockedRunner<S>(applied: map<Text, Option<Fingerprint>>, rn: Runner<S>) {
    match rn
    case Waiting(dir, _) => Blocked(applied, dir)
    case Locked(dir, _) => Blocked(applied, dir)
    case Unlocking(result, _) => result.Failure?
    case Stopped(last) => last.Some? ==> last.value.Failure?
    case _ => false
  }

  ghost predicate AllBlocked<S>(applied: map<Text, Option<Fingerprint>>, s: System<S>) {
    s.db.applied == applied && forall r: nat :: BlockedRunner(applied, s.At(r))
  }

  lemma BlockedWork<S>(engine: Engine<S>, applied: map<Text, Option<Fingerprint>>, db: Db<S>, rn: Runner<S>, act: Act)
    requires db.applied == applied && BlockedRunner(applied, rn) && HoldsLock(rn)
    ensures Work(engine, db, rn, act).0 == db && BlockedRunner(applied, Work(engine, db, rn, act).1)
  {
    hide LexLe, Fold;
    if rn.Locked? {
      ListUpIsSortedDirectory(rn.dir);
      RefusedIffChecksFail(rn.dir, applied);
    }
  }

  lemma BlockedStep<S>(engine: Engine<S>, applied: map<Text, Option<Fingerprint>>, s: System<S>, e: Event)
    requires AllBlocked(applied, s) && (e.act.Launch? ==> Blocked(applied, e.act.dir))
    ensures Step(engine, s, e).db == s.db && AllBlocked(applied, Step(engine, s, e))
  {
    var rn := s.At(e.runner);
    assert BlockedRunner(applied, rn);
    if HoldsLock(rn) { BlockedWork(engine, applied, s.db, rn, e.act); }
    hide Work, Blocked;
    var s' := Step(engine, s, e);
    forall r: nat ensures BlockedRunner(applied, s'.At(r)) {
      assert BlockedRunner(applied, s.At(r));
    }
  }

  /**
    If every release being run holds an edited copy of some recorded migration, or a file of an
    unsupported format, then no interleaving changes the database and no runner reports success.
  */
  lemma {:induction false} MismatchAppliesNothing<S>(engine: Engine<S>, schema: S, applied: map<Text, Option<Fingerprint>>,
                                                     events: seq<Event>)
    requires forall e :: e in events && e.act.Launch? ==> Blocked(applied, e.act.dir)
    ensures var s := Run(engine, Start(schema, applied), events);
            s.db == Start(schema, applied).db && forall r: nat :: BlockedRunner(applied, s.At(r))
  {
    if events != [] {
      var before, e := events[..|events| - 1], events[|events| - 1];
      MismatchAppliesNothing(engine, schema, applied, before);
      BlockedStep(engine, applied, Run(engine, Start(schema, applied), before), e);
    }
  }
}
