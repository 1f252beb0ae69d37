/**
  The SQL migration runner: directory listing, one uninterrupted `up` run, and the protocol that any
  number of concurrent runners follow over one database.

  A migration file is a deterministic partial function on schemas (`Engine`).  A file hash is the value
  `Sha256(content)`, so two hashes are equal exactly when the contents are.
*/
module Migrations {
  import opened Options
  import opened Utf16
  import opened Sorting

  // ------------------------------------------------------------------ directory

  const SQL_SUFFIX: Text := [46, 115, 113, 108]                         // ".sql"
  const DOWN_SUFFIX: Text := [46, 100, 111, 119, 110, 46, 115, 113, 108] // ".down.sql"
  const DOT: Text := [46]                                               // "."

  /** What readdir returns, in whatever order, and the contents of the files. */
  datatype Directory = Directory(listing: seq<Text>, content: map<Text, Text>) {
    ghost predicate Valid() {
      Distinct(listing) && forall f :: f in listing ==> f in content
    }
  }

  predicate IsUpMigration(f: Text) {
    EndsWith(f, SQL_SUFFIX) && !EndsWith(f, DOWN_SUFFIX)
  }

  /** The last four units are ".sql" and the last nine are not ".down.sql". */
  predicate HasUpName(f: Text) {
    && |f| >= 4 && f[|f| - 4..] == [46, 115, 113, 108]
    && !(|f| >= 9 && f[|f| - 9..] == [46, 100, 111, 119, 110, 46, 115, 113, 108])
  }

  predicate IsVisible(f: Text) {
    !StartsWith(f, DOT)
  }

  function Filter<T>(p: T -> bool, xs: seq<T>): seq<T> {
    if xs == [] then [] else (if p(xs[0]) then [xs[0]] else []) + Filter(p, xs[1..])
  }

  function ListUp(d: Directory): seq<Text> {
    Sort(LexLe, Filter(IsUpMigration, d.listing))
  }

  function ListAll(d: Directory): seq<Text> {
    Sort(LexLe, Filter(IsVisible, d.listing))
  }

  predicate AllSupported(d: Directory) {
    forall f | f in ListAll(d) :: EndsWith(f, SQL_SUFFIX)
  }

  lemma {:induction false} FilterCounts<T>(p: T -> bool, xs: seq<T>)
    ensures forall x :: multiset(Filter(p, xs))[x] == if p(x) then multiset(xs)[x] else 0
  {
    if xs != [] {
      FilterCounts(p, xs[1..]);
      assert xs == [xs[0]] + xs[1..];
    }
  }

  /** A listing names each file that passes the filter once, in ascending order, and nothing else. */
  lemma ListingIsSorted(d: Directory, p: Text -> bool)
    requires d.Valid()
    ensures var names := Sort(LexLe, Filter(p, d.listing));
            Sorted(LexLe, names) && Distinct(names) && forall f :: f in names <==> f in d.listing && p(f)
  {
    var names := Filter(p, d.listing);
    LexIsTotalOrder();
    SortSorts(LexLe, names);
    SortDistinct(LexLe, names);
    FilterCounts(p, d.listing);
    DistinctCounts(d.listing);
    DistinctCounts(names);
    forall f ensures f in names <==> f in d.listing && p(f) {
      assert f in names <==> f in multiset(names);
      assert f in d.listing <==> f in multiset(d.listing);
    }
  }

  /** Each up-migration of the directory is run once, in ascending order, and nothing else is. */
  lemma ListUpIsSortedDirectory(d: Directory)
    requires d.Valid()
    ensures Sorted(LexLe, ListUp(d)) && Distinct(ListUp(d))
    ensures forall f :: f in ListUp(d) <==> f in d.listing && IsUpMigration(f)
    ensures forall f :: f in ListUp(d) <==> f in d.listing && HasUpName(f)
  {
    ListingIsSorted(d, IsUpMigration);
  }

  /** The run order depends on the set of files, not on the order readdir happens to return. */
  lemma ListUpForgetsReaddirOrder(d: Directory, e: Directory)
    requires multiset(d.listing) == multiset(e.listing)
    ensures ListUp(d) == ListUp(e)
  {
    var a, b := Filter(IsUpMigration, d.listing), Filter(IsUpMigration, e.listing);
    FilterCounts(IsUpMigration, d.listing);
    FilterCounts(IsUpMigration, e.listing);
    assert multiset(a) == multiset(b);
    LexIsTotalOrder();
    SortForgetsOrder(LexLe, a, b);
  }

  // ------------------------------------------------------------------ database

  datatype Fingerprint = Sha256(of: Text)
  datatype Script = Script(name: Text, sql: Text)
  datatype SqlOutcome<S> = Done(schema: S) | SqlError(code: string)
  type Engine<!S> = (Text, S) -> SqlOutcome<S>

  /**
    `applied` is the table schema_migrations: filename to nullable file_hash.  `log` and `skipped` are
    history: the scripts whose effects were committed, and the filenames recorded without running them.
  */
  datatype Db<S> = Db(schema: S, applied: map<Text, Option<Fingerprint>>, log: seq<Script>, skipped: seq<Text>)

  function Names(log: seq<Script>): set<Text> {
    set x | x in log :: x.name
  }

  function FileHash(d: Directory, f: Text): Fingerprint
    requires f in d.content
  {
    Sha256(d.content[f])
  }

  /** A recorded, hashed up-migration whose file content is no longer the recorded one. */
  predicate Mismatch(d: Directory, applied: map<Text, Option<Fingerprint>>, f: Text)
    requires f in d.content
  {
    f in applied && applied[f].Some? && applied[f].value != FileHash(d, f)
  }

  ghost predicate HashesAgree(d: Directory, applied: map<Text, Option<Fingerprint>>)
    requires d.Valid()
  {
    forall f :: f in ListUp(d) && f in d.content ==> !Mismatch(d, applied, f)
  }

  /** Running the scripts one after the other. */
  function Fold<S>(engine: Engine<S>, schema: S, log: seq<Script>): SqlOutcome<S> {
    if log == [] then Done(schema)
    else
      match Fold(engine, schema, log[..|log| - 1])
      case SqlError(code) => SqlError(code)
      case Done(before) => engine(log[|log| - 1].sql, before)
  }

  function Committed<S>(db: Db<S>, d: Directory, f: Text, schema: S): Db<S>
    requires f in d.content
  {
    Db(schema, db.applied[f := Some(FileHash(d, f))], db.log + [Script(f, d.content[f])], db.skipped)
  }

  function RecordedOnly<S>(db: Db<S>, d: Directory, f: Text): Db<S>
    requires f in d.content
  {
    db.(applied := db.applied[f := Some(FileHash(d, f))], skipped := db.skipped + [f])
  }

  /** ALREADY_CREATED_CODES. */
  predicate AlreadyCreated(code: string) {
    code in {"42P07", "42701", "42P04", "42710"}
  }

  // ------------------------------------------------------------------ one uninterrupted run

  datatype RunResult = Success(count: nat) | Failure

  /** The per-file loop of `runUp` from position `next`, as a function of the database. */
  function UpFrom<S>(engine: Engine<S>, d: Directory, bootstrap: bool, seen: set<Text>, next: nat, count: nat,
                     db: Db<S>): (Db<S>, RunResult)
    requires next <= |ListUp(d)| && forall f :: f in ListUp(d) ==> f in d.content
    decreases |ListUp(d)| - next
  {
    if next == |ListUp(d)| then (db, Success(count))
    else
      var f := ListUp(d)[next];
      if f in seen then UpFrom(engine, d, bootstrap, seen, next + 1, count, db)
      else
        match engine(d.content[f], db.schema)
        case Done(schema) =>
          if f in db.applied then (db, Failure)
          else UpFrom(engine, d, bootstrap, seen, next + 1, count + 1, Committed(db, d, f, schema))
        case SqlError(code) =>
          if bootstrap && AlreadyCreated(code) && f !in db.applied
          then UpFrom(engine, d, bootstrap, seen, next + 1, count + 1, RecordedOnly(db, d, f))
          else (db, Failure)
  }

  ghost function Up<S>(engine: Engine<S>, d: Directory, bootstrap: bool, db: Db<S>): (Db<S>, RunResult)
    requires d.Valid()
  {
    ListUpIsSortedDirectory(d);
    if AllSupported(d) && HashesAgree(d, db.applied)
    then UpFrom(engine, d, bootstrap, db.applied.Keys, 0, 0, db)
    else (db, Failure)
  }

  // ------------------------------------------------------------------ status report

  datatype FileStatus = Pending | UnsupportedFormat | DownMigration | Applied | AppliedHashMismatch

  function StatusOf(d: Directory, applied: map<Text, Option<Fingerprint>>, f: Text): FileStatus
    requires f in d.content
  {
    if !EndsWith(f, SQL_SUFFIX) then UnsupportedFormat
    else if EndsWith(f, DOWN_SUFFIX) then DownMigration
    else if f !in applied then Pending
    else if Mismatch(d, applied, f) then AppliedHashMismatch
    else Applied
  }

  /** How many of the statuses are in `which`. */
  function Tally(statuses: seq<FileStatus>, which: set<FileStatus>): nat {
    if statuses == [] then 0
    else Tally(statuses[..|statuses| - 1], which) + if statuses[|statuses| - 1] in which then 1 else 0
  }

  ghost predicate CleanReport(d: Directory, applied: map<Text, Option<Fingerprint>>) {
    forall f :: f in ListAll(d) && f in d.content ==> StatusOf(d, applied, f) !in {UnsupportedFormat, AppliedHashMismatch}
  }

  /**
    `up` passes its checks exactly when the report shows neither an unsupported file nor a mismatch and no dot file,
    which the report hides but `up` runs, is an edited migration.
  */
  lemma StatusPredictsRefusal(d: Directory, applied: map<Text, Option<Fingerprint>>)
    requires d.Valid()
    ensures (AllSupported(d) && HashesAgree(d, applied)) <==>
            (CleanReport(d, applied)
             && forall f :: f in ListUp(d) && f in d.content && !IsVisible(f) ==> !Mismatch(d, applied, f))
  {
    ListUpIsSortedDirectory(d);
    ListingIsSorted(d, IsVisible);
    if CleanReport(d, applied) {
      forall f | f in ListUp(d) && IsVisible(f) ensures !Mismatch(d, applied, f) {
        assert f in ListAll(d);
      }
    }
  }
}
