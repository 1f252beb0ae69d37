/** The migration runner's two commands on one database connection. */
module MigrationRunner {
  import opened Options
  import opened Utf16
  import opened Migrations
  import opened MigrationOutcome

  class Connection<S> {
    var schema: S
    var applied: map<Text, Option<Fingerprint>>
    ghost var log: seq<Script>
    ghost var skipped: seq<Text>

    ghost function View(): Db<S>
      reads this
    {
      Db(schema, applied, log, skipped)
    }

    constructor (schema: S, applied: map<Text, Option<Fingerprint>>)
      ensures View() == Db(schema, applied, [], [])
    {
      this.schema, this.applied, this.log, this.skipped := schema, applied, [], [];
    }

    /** The per-file loop: each new file and its row are one transaction. */
    method ApplyFiles(engine: Engine<S>, d: Directory, bootstrap: bool, seen: set<Text>) returns (result: RunResult)
      requires forall f :: f in ListUp(d) ==> f in d.content
      modifies this
      ensures (View(), result) == UpFrom(engine, d, bootstrap, seen, 0, 0, old(View()))
    {
      hide ListUp, IsUpMigration, LexLe;
      var files := ListUp(d);
      var count := 0;
      for i := 0 to |files|
        invariant UpFrom(engine, d, bootstrap, seen, i, count, View())
               == UpFrom(engine, d, bootstrap, seen, 0, 0, old(View()))
      {
        var file := files[i];
        if file in seen { continue; }
        var sql := d.content[file];
        var hash := FileHash(d, file);
        match engine(sql, schema)
        case Done(after) =>
          if file in applied { return Failure; }
          schema, applied, log := after, applied[file := Some(hash)], log + [Script(file, sql)];
          count := count + 1;
        case SqlError(code) =>
          if !(bootstrap && AlreadyCreated(code)) || file in applied { return Failure; }
          applied, skipped := applied[file := Some(hash)], skipped + [file];
          count := count + 1;
      }
      return Success(count);
    }

    /** Whether every visible file has a supported name. */
    method ValidateMigrationFiles(d: Directory) returns (ok: bool)
      ensures ok <==> AllSupported(d)
    {
      hide ListAll, EndsWith;
      var all := ListAll(d);
      for i := 0 to |all|
        invariant forall k | 0 <= k < i :: EndsWith(all[k], SQL_SUFFIX)
      {
        if !EndsWith(all[i], SQL_SUFFIX) { return false; }
      }
      return true;
    }

    /** Whether no recorded migration has been edited. */
    method VerifyHashes(d: Directory) returns (ok: bool)
      requires d.Valid()
      ensures ok <==> HashesAgree(d, applied)
    {
      ListUpIsSortedDirectory(d);
      hide ListUp, Mismatch;
      var files := ListUp(d);
      for i := 0 to |files|
        invariant forall k | 0 <= k < i :: !Mismatch(d, applied, files[k])
      {
        if Mismatch(d, applied, files[i]) { return false; }
      }
      return true;
    }

    /** `runUp` on a connection nobody else writes to. */
    method RunUp(engine: Engine<S>, d: Directory, bootstrap: bool) returns (result: RunResult)
      requires d.Valid()
      modifies this
      ensures (View(), result) == Up(engine, d, bootstrap, old(View()))
      ensures RunOutcome(engine, d, bootstrap, old(View()), View(), result)
    {
      UpOutcome(engine, d, bootstrap, View());
      ListUpIsSortedDirectory(d);
      hide RunOutcome, UpFrom, ListUp, AllSupported, HashesAgree;
      var supported := ValidateMigrationFiles(d);
      if !supported { return Failure; }
      var seen := applied.Keys;
      var unedited := VerifyHashes(d);
      if !unedited { return Failure; }
      result := ApplyFiles(engine, d, bootstrap, seen);
    }

    /** `runStatus`: a row per visible file, and the four counts of the summary line. */
    method RunStatus(d: Directory) returns (rows: seq<(Text, FileStatus)>, counts: (nat, nat, nat))
      requires d.Valid()
      ensures |rows| == |ListAll(d)|
      ensures forall i | 0 <= i < |rows| ::
                rows[i].0 == ListAll(d)[i] && rows[i].0 in d.content && rows[i].1 == StatusOf(d, applied, rows[i].0)
      ensures forall i | 0 <= i < |rows| :: StatusMeans(d, applied, rows[i].0, rows[i].1)
      ensures var statuses := seq(|rows|, i requires 0 <= i < |rows| => rows[i].1);
              && counts.0 == Tally(statuses, {Applied, AppliedHashMismatch})
              && counts.1 == Tally(statuses, {Pending})
              && counts.2 == Tally(statuses, {UnsupportedFormat})
              && counts.0 + counts.1 + counts.2 + Tally(statuses, {DownMigration}) == |rows|
    {
      ListingIsSorted(d, IsVisible);
      hide StatusMeans, StatusOf, LexLe;
      var files := ListAll(d);
      rows, counts := [], (0, 0, 0);
      ghost var statuses: seq<FileStatus> := [];
      for i := 0 to |files|
        invariant |rows| == |statuses| == i
        invariant forall k | 0 <= k < i ::
                    rows[k].0 == files[k] && files[k] in d.content && rows[k].1 == StatusOf(d, applied, files[k])
        invariant forall k | 0 <= k < i :: statuses[k] == rows[k].1
        invariant counts.0 == Tally(statuses, {Applied, AppliedHashMismatch})
        invariant counts.1 == Tally(statuses, {Pending})
        invariant counts.2 == Tally(statuses, {UnsupportedFormat})
        invariant counts.0 + counts.1 + counts.2 + Tally(statuses, {DownMigration}) == i
      {
        var status := StatusOf(d, applied, files[i]);
        rows := rows + [(files[i], status)];
        match status {
          case Applied => counts := (counts.0 + 1, counts.1, counts.2);
          case AppliedHashMismatch => counts := (counts.0 + 1, counts.1, counts.2);
          case Pending => counts := (counts.0, counts.1 + 1, counts.2);
          case UnsupportedFormat => counts := (counts.0, counts.1, counts.2 + 1);
          case DownMigration =>
        }
        assert (statuses + [status])[..|statuses|] == statuses;
        statuses := statuses + [status];
      }
      assert statuses == seq(|rows|, i requires 0 <= i < |rows| => rows[i].1);
      forall i | 0 <= i < |rows| ensures StatusMeans(d, applied, rows[i].0, rows[i].1) {
        StatusOfMeans(d, applied, rows[i].0);
      }
    }
  }
}
