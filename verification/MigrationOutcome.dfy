/** What one uninterrupted `up` run leaves, stated on the tables alone. */
module MigrationOutcome {
  import opened Options
  import opened Utf16
  import opened Sorting
  import opened Migrations

  /** A visible file of another format, or an up-migration whose recorded hash is of another text. */
  ghost predicate Refused(d: Directory, applied: map<Text, Option<Fingerprint>>) {
    || (exists f :: f in d.listing && !(|f| > 0 && f[0] == 46) && !(|f| >= 4 && f[|f| - 4..] == [46, 115, 113, 108]))
    || (exists f, other :: f in d.listing && HasUpName(f) && f in d.content && other != d.content[f]
                           && f in applied && applied[f] == Some(Sha256(other)))
  }

  /** The file's SQL failed as a duplicate on the schema some of the new scripts had led to. */
  ghost predicate SkipCause<S>(engine: Engine<S>, d: Directory, schema: S, scripts: seq<Script>, f: Text) {
    f in d.content &&
    exists m, code | 0 <= m <= |scripts| && code in {"42P07", "42701", "42P04", "42710"} ::
      var reached := Fold(engine, schema, scripts[..m]);
      reached.Done? && engine(d.content[f], reached.schema) == SqlError(code)
  }

  predicate IsUnion(whole: set<Text>, a: set<Text>, b: set<Text>, c: set<Text>) {
    whole == a + b + c
  }

  function Elements(files: seq<Text>): set<Text> {
    set f | f in files
  }

  ghost predicate HashesKept(d: Directory, init: map<Text, Option<Fingerprint>>, applied: map<Text, Option<Fingerprint>>) {
    && (forall f | f in init :: f in applied && applied[f] == init[f])
    && forall f | f in applied && f !in init :: f in d.content && applied[f] == Some(Sha256(d.content[f]))
  }

  /** The rows added are the scripts' and the skips', with the current hashes; the old rows stay. */
  ghost predicate RowsAdded(d: Directory, init: map<Text, Option<Fingerprint>>, applied: map<Text, Option<Fingerprint>>,
                            scripts: seq<Script>, skips: seq<Text>) {
    && IsUnion(applied.Keys, init.Keys, Names(scripts), Elements(skips))
    && |applied| == |init| + |scripts| + |skips|
    && HashesKept(d, init, applied)
  }

  /** Each script is a file among the first `next`, with its text, and was not recorded before. */
  ghost predicate ScriptsOf(d: Directory, init: map<Text, Option<Fingerprint>>, scripts: seq<Script>, next: nat)
    requires next <= |ListUp(d)|
  {
    forall x | x in scripts ::
      x.name in ListUp(d)[..next] && x.name in d.content && x.sql == d.content[x.name] && x.name !in init
  }

  ghost predicate Ascending(scripts: seq<Script>) {
    forall i, j | 0 <= i < j < |scripts| :: LexLe(scripts[i].name, scripts[j].name) && scripts[i].name != scripts[j].name
  }

  ghost predicate SkipsOf<S>(engine: Engine<S>, d: Directory, bootstrap: bool, init: Db<S>, scripts: seq<Script>,
                             skips: seq<Text>, next: nat)
    requires next <= |ListUp(d)|
  {
    && (!bootstrap ==> skips == [])
    && forall f | f in skips ::
         f in ListUp(d)[..next] && f !in init.applied && f !in Names(scripts) && SkipCause(engine, d, init.schema, scripts, f)
  }

  ghost predicate Passed(d: Directory, applied: map<Text, Option<Fingerprint>>, next: nat)
    requires next <= |ListUp(d)|
  {
    forall j | 0 <= j < next :: ListUp(d)[j] in applied
  }

  /** What the file loop has added to the database it started from once it has passed `next` files. */
  ghost predicate Progress<S>(engine: Engine<S>, d: Directory, bootstrap: bool, init: Db<S>, db: Db<S>, next: nat) {
    && next <= |ListUp(d)| && init.log <= db.log && init.skipped <= db.skipped
    && var scripts, skips := db.log[|init.log|..], db.skipped[|init.skipped|..];
       && Fold(engine, init.schema, scripts) == Done(db.schema)
       && RowsAdded(d, init.applied, db.applied, scripts, skips)
       && ScriptsOf(d, init.applied, scripts, next) && Ascending(scripts)
       && SkipsOf(engine, d, bootstrap, init, scripts, skips, next)
       && Passed(d, db.applied, next)
  }

  /** The first file not recorded is the one whose SQL failed, and its failure was not one to skip. */
  ghost predicate StoppedAt<S>(engine: Engine<S>, d: Directory, bootstrap: bool, db: Db<S>, j: nat) {
    && j < |ListUp(d)| && (forall k | 0 <= k < j :: ListUp(d)[k] in db.applied)
    && ListUp(d)[j] !in db.applied && ListUp(d)[j] in d.content
    && (var outcome := engine(d.content[ListUp(d)[j]], db.schema);
        outcome.SqlError? && !(bootstrap && outcome.code in {"42P07", "42701", "42P04", "42710"}))
  }

  /**
    A refused run changes nothing and fails.  Otherwise the new rows are the committed scripts, in ascending order
    and folded into the schema, and, in bootstrap mode only, the duplicates skipped; a run succeeds exactly with
    every file recorded and then reports the rows added, and fails at the first file it leaves unrecorded.
  */
  ghost predicate RunOutcome<S>(engine: Engine<S>, d: Directory, bootstrap: bool, init: Db<S>, db: Db<S>, result: RunResult) {
    if Refused(d, init.applied) then db == init && result == Failure
    else if result.Success? then
      Progress(engine, d, bootstrap, init, db, |ListUp(d)|) && result.count == |db.applied| - |init.applied|
    else exists j :: Progress(engine, d, bootstrap, init, db, j) && StoppedAt(engine, d, bootstrap, db, j)
  }

  /** What a status says of a file, in the units of its name and the row recorded for it. */
  ghost predicate StatusMeans(d: Directory, applied: map<Text, Option<Fingerprint>>, f: Text, status: FileStatus) {
    var sql := |f| >= 4 && f[|f| - 4..] == [46, 115, 113, 108];
    && f in d.content
    && (status == UnsupportedFormat <==> !sql)
    && (status == DownMigration <==> sql && !HasUpName(f))
    && (status == Pending <==> HasUpName(f) && f !in applied)
    && (status == AppliedHashMismatch <==>
          HasUpName(f) && f in applied && applied[f].Some? && applied[f] != Some(Sha256(d.content[f])))
    && (status == Applied <==>
          HasUpName(f) && f in applied && (applied[f].None? || applied[f] == Some(Sha256(d.content[f]))))
  }

  lemma StatusOfMeans(d: Directory, applied: map<Text, Option<Fingerprint>>, f: Text)
    requires f in d.content
    ensures StatusMeans(d, applied, f, StatusOf(d, applied, f))
  {}

  lemma VisibleMeans(f: Text)
    ensures IsVisible(f) <==> !(|f| > 0 && f[0] == 46)
  {
    assert |f| > 0 ==> f[..1] == [f[0]];
  }

  lemma UnsupportedIff(d: Directory)
    requires d.Valid()
    ensures AllSupported(d) <==>
              !exists f :: f in d.listing && !(|f| > 0 && f[0] == 46) && !(|f| >= 4 && f[|f| - 4..] == [46, 115, 113, 108])
  {
    ListingIsSorted(d, IsVisible);
    forall f ensures IsVisible(f) <==> !(|f| > 0 && f[0] == 46) { VisibleMeans(f); }
    hide IsVisible;
    assert forall f :: f in ListAll(d) <==> f in d.listing && IsVisible(f);
    hide ListAll;
  }

  lemma MismatchIff(d: Directory, applied: map<Text, Option<Fingerprint>>)
    requires d.Valid()
    ensures HashesAgree(d, applied) <==>
              !exists f, other :: f in d.listing && HasUpName(f) && f in d.content && other != d.content[f]
                                  && f in applied && applied[f] == Some(Sha256(other))
  {
    ListUpIsSortedDirectory(d);
    hide ListUp, HasUpName;
    if !HashesAgree(d, applied) {
      var f :| f in ListUp(d) && f in d.content && Mismatch(d, applied, f);
      assert applied[f] == Some(Sha256(applied[f].value.of));
    }
  }

  lemma RefusedIffChecksFail(d: Directory, applied: map<Text, Option<Fingerprint>>)
    requires d.Valid()
    ensures Refused(d, applied) <==> !(AllSupported(d) && HashesAgree(d, applied))
  {
    UnsupportedIff(d);
    MismatchIff(d, applied);
    hide AllSupported, HashesAgree, HasUpName;
  }

  lemma ProgressStart<S>(engine: Engine<S>, d: Directory, bootstrap: bool, init: Db<S>)
    ensures Progress(engine, d, bootstrap, init, init, 0)
  {}

  lemma PrefixNext(d: Directory, next: nat)
    requires next < |ListUp(d)|
    ensures ListUp(d)[..next + 1] == ListUp(d)[..next] + [ListUp(d)[next]]
  {}

  lemma PrefixMembers(d: Directory, next: nat)
    requires next < |ListUp(d)|
    ensures forall f :: f in ListUp(d)[..next + 1] <==> f in ListUp(d)[..next] || f == ListUp(d)[next]
  {
    hide ListUp;
    PrefixNext(d, next);
  }

  lemma ProgressSeen<S>(engine: Engine<S>, d: Directory, bootstrap: bool, init: Db<S>, db: Db<S>, next: nat)
    requires Progress(engine, d, bootstrap, init, db, next) && next < |ListUp(d)| && ListUp(d)[next] in init.applied
    ensures Progress(engine, d, bootstrap, init, db, next + 1)
  {
    PrefixMembers(d, next);
    hide Fold, SkipCause, Ascending, ListUp;
  }

  lemma {:induction false} NextIsNew<S>(engine: Engine<S>, d: Directory, bootstrap: bool, init: Db<S>, db: Db<S>, next: nat)
    requires d.Valid() && Progress(engine, d, bootstrap, init, db, next) && next < |ListUp(d)|
    requires ListUp(d)[next] !in init.applied
    ensures ListUp(d)[next] !in db.applied
  {
    ListUpIsSortedDirectory(d);
    hide Fold, SkipCause, Ascending, ListUp, LexLe;
    assert ListUp(d)[next] !in ListUp(d)[..next];
  }

  lemma CauseStays<S>(engine: Engine<S>, d: Directory, schema: S, scripts: seq<Script>, x: Script, f: Text)
    requires SkipCause(engine, d, schema, scripts, f)
    ensures SkipCause(engine, d, schema, scripts + [x], f)
  {
    hide Fold;
    var m, code :| 0 <= m <= |scripts| && code in {"42P07", "42701", "42P04", "42710"} &&
      var reached := Fold(engine, schema, scripts[..m]);
      reached.Done? && engine(d.content[f], reached.schema) == SqlError(code);
    assert (scripts + [x])[..m] == scripts[..m];
  }

  /** Each new script comes after all earlier ones. */
  lemma AscendingNext(d: Directory, init: map<Text, Option<Fingerprint>>, scripts: seq<Script>, next: nat, x: Script)
    requires d.Valid() && next < |ListUp(d)| && ScriptsOf(d, init, scripts, next) && Ascending(scripts)
    requires x.name == ListUp(d)[next]
    ensures Ascending(scripts + [x])
  {
    ListUpIsSortedDirectory(d);
    hide ListUp, LexLe;
    forall i | 0 <= i < |scripts| ensures LexLe(scripts[i].name, x.name) && scripts[i].name != x.name {
      assert scripts[i] in scripts;
      var j :| 0 <= j < next && ListUp(d)[j] == scripts[i].name;
    }
  }

  lemma NotNamed(d: Directory, init: map<Text, Option<Fingerprint>>, applied: map<Text, Option<Fingerprint>>,
                 scripts: seq<Script>, skips: seq<Text>, f: Text)
    requires RowsAdded(d, init, applied, scripts, skips) && f !in applied
    ensures f !in Names(scripts) && f !in skips
  {
    assert f in skips ==> f in Elements(skips);
  }

  lemma OneMore<T, V>(m: map<T, V>, k: T, v: V)
    requires k !in m
    ensures |m[k := v]| == |m| + 1
  {
    var after := m[k := v];
    assert after.Keys == m.Keys + {k};
    assert |after.Keys| == |after| && |m.Keys| == |m|;
  }

  lemma NamesNext(scripts: seq<Script>, x: Script)
    ensures Names(scripts + [x]) == Names(scripts) + {x.name}
  {
    assert x in scripts + [x];
    assert forall y | y in scripts :: y in scripts + [x];
  }

  lemma ElementsNext(skips: seq<Text>, f: Text)
    ensures Elements(skips + [f]) == Elements(skips) + {f}
  {}

  lemma UnionNext(whole: set<Text>, a: set<Text>, b: set<Text>, c: set<Text>, f: Text)
    requires IsUnion(whole, a, b, c)
    ensures IsUnion(whole + {f}, a, b + {f}, c) && IsUnion(whole + {f}, a, b, c + {f})
  {}

  lemma KeyNext<V>(m: map<Text, V>, k: Text, v: V)
    ensures m[k := v].Keys == m.Keys + {k}
  {}

  lemma HashesNext(d: Directory, init: map<Text, Option<Fingerprint>>, applied: map<Text, Option<Fingerprint>>, f: Text)
    requires HashesKept(d, init, applied) && f !in applied && f in d.content
    ensures HashesKept(d, init, applied[f := Some(FileHash(d, f))])
  {}

  lemma {:induction false} RowsAddedScript(d: Directory, init: map<Text, Option<Fingerprint>>, applied: map<Text, Option<Fingerprint>>,
                        scripts: seq<Script>, skips: seq<Text>, x: Script)
    requires RowsAdded(d, init, applied, scripts, skips) && x.name !in applied && x.name in d.content
    ensures RowsAdded(d, init, applied[x.name := Some(FileHash(d, x.name))], scripts + [x], skips)
  {
    hide Names, Elements, HashesKept, FileHash, IsUnion;
    OneMore(applied, x.name, Some(FileHash(d, x.name)));
    NamesNext(scripts, x);
    UnionNext(applied.Keys, init.Keys, Names(scripts), Elements(skips), x.name);
    KeyNext(applied, x.name, Some(FileHash(d, x.name)));
    HashesNext(d, init, applied, x.name);
  }

  lemma {:induction false} RowsAddedSkip(d: Directory, init: map<Text, Option<Fingerprint>>, applied: map<Text, Option<Fingerprint>>,
                      scripts: seq<Script>, skips: seq<Text>, f: Text)
    requires RowsAdded(d, init, applied, scripts, skips) && f !in applied && f in d.content
    ensures RowsAdded(d, init, applied[f := Some(FileHash(d, f))], scripts, skips + [f])
  {
    hide Names, Elements, HashesKept, FileHash, IsUnion;
    OneMore(applied, f, Some(FileHash(d, f)));
    ElementsNext(skips, f);
    UnionNext(applied.Keys, init.Keys, Names(scripts), Elements(skips), f);
    KeyNext(applied, f, Some(FileHash(d, f)));
    HashesNext(d, init, applied, f);
  }

  lemma PassedNext(d: Directory, applied: map<Text, Option<Fingerprint>>, after: map<Text, Option<Fingerprint>>, next: nat)
    requires next < |ListUp(d)| && Passed(d, applied, next)
    requires after.Keys == applied.Keys + {ListUp(d)[next]}
    ensures Passed(d, after, next + 1)
  {}

  lemma ScriptsNext(d: Directory, init: map<Text, Option<Fingerprint>>, scripts: seq<Script>, next: nat)
    requires next < |ListUp(d)| && ScriptsOf(d, init, scripts, next)
    requires ListUp(d)[next] in d.content && ListUp(d)[next] !in init
    ensures ScriptsOf(d, init, scripts, next + 1)
    ensures ScriptsOf(d, init, scripts + [Script(ListUp(d)[next], d.content[ListUp(d)[next]])], next + 1)
  {
    PrefixMembers(d, next);
    hide ListUp;
  }

  lemma SkipsAfterScript<S>(engine: Engine<S>, d: Directory, bootstrap: bool, init: Db<S>, scripts: seq<Script>,
                            skips: seq<Text>, next: nat, x: Script)
    requires next < |ListUp(d)| && SkipsOf(engine, d, bootstrap, init, scripts, skips, next)
    requires x.name == ListUp(d)[next] && x.name !in skips
    ensures SkipsOf(engine, d, bootstrap, init, scripts + [x], skips, next + 1)
  {
    PrefixMembers(d, next);
    hide ListUp, Fold, SkipCause;
    forall f | f in skips ensures f !in Names(scripts + [x]) && SkipCause(engine, d, init.schema, scripts + [x], f) {
      CauseStays(engine, d, init.schema, scripts, x, f);
    }
  }

  lemma SkipsAfterSkip<S>(engine: Engine<S>, d: Directory, init: Db<S>, schema: S, scripts: seq<Script>,
                          skips: seq<Text>, next: nat, code: string)
    requires next < |ListUp(d)| && SkipsOf(engine, d, true, init, scripts, skips, next)
    requires Fold(engine, init.schema, scripts) == Done(schema)
    requires var f := ListUp(d)[next];
             && f in d.content && f !in init.applied && f !in Names(scripts)
             && engine(d.content[f], schema) == SqlError(code) && AlreadyCreated(code)
    ensures SkipsOf(engine, d, true, init, scripts, skips + [ListUp(d)[next]], next + 1)
  {
    PrefixMembers(d, next);
    hide ListUp, Fold;
    assert SkipCause(engine, d, init.schema, scripts, ListUp(d)[next]) by {
      assert scripts[..|scripts|] == scripts;
    }
    hide SkipCause;
  }

  lemma FoldNext<S>(engine: Engine<S>, schema: S, scripts: seq<Script>, reached: S, x: Script)
    requires Fold(engine, schema, scripts) == Done(reached)
    ensures Fold(engine, schema, scripts + [x]) == engine(x.sql, reached)
  {
    assert (scripts + [x])[..|scripts|] == scripts;
  }

  lemma {:induction false} ProgressCommitted<S>(engine: Engine<S>, d: Directory, bootstrap: bool, init: Db<S>, db: Db<S>, next: nat, schema: S)
    requires d.Valid() && Progress(engine, d, bootstrap, init, db, next) && next < |ListUp(d)|
    requires var f := ListUp(d)[next];
             f in d.content && f !in init.applied && engine(d.content[f], db.schema) == Done(schema)
    ensures Progress(engine, d, bootstrap, init, Committed(db, d, ListUp(d)[next], schema), next + 1)
  {
    hide ListUp, Fold, RowsAdded, ScriptsOf, Ascending, SkipsOf, Passed;
    NextIsNew(engine, d, bootstrap, init, db, next);
    var f := ListUp(d)[next];
    var after := Committed(db, d, f, schema);
    var scripts, skips, x := db.log[|init.log|..], db.skipped[|init.skipped|..], Script(f, d.content[f]);
    assert after.log[|init.log|..] == scripts + [x];
    NotNamed(d, init.applied, db.applied, scripts, skips, f);
    FoldNext(engine, init.schema, scripts, db.schema, x);
    RowsAddedScript(d, init.applied, db.applied, scripts, skips, x);
    ScriptsNext(d, init.applied, scripts, next);
    AscendingNext(d, init.applied, scripts, next, x);
    SkipsAfterScript(engine, d, bootstrap, init, scripts, skips, next, x);
    PassedNext(d, db.applied, after.applied, next);
  }

  lemma ProgressSkipped<S>(engine: Engine<S>, d: Directory, init: Db<S>, db: Db<S>, next: nat, code: string)
    requires d.Valid() && Progress(engine, d, true, init, db, next) && next < |ListUp(d)|
    requires var f := ListUp(d)[next];
             f in d.content && f !in init.applied && engine(d.content[f], db.schema) == SqlError(code) && AlreadyCreated(code)
    ensures Progress(engine, d, true, init, RecordedOnly(db, d, ListUp(d)[next]), next + 1)
  {
    hide ListUp, Fold, RowsAdded, ScriptsOf, Ascending, SkipsOf, Passed, AlreadyCreated;
    NextIsNew(engine, d, true, init, db, next);
    var f := ListUp(d)[next];
    var after := RecordedOnly(db, d, f);
    var scripts, skips := db.log[|init.log|..], db.skipped[|init.skipped|..];
    assert after.skipped[|init.skipped|..] == skips + [f];
    NotNamed(d, init.applied, db.applied, scripts, skips, f);
    RowsAddedSkip(d, init.applied, db.applied, scripts, skips, f);
    ScriptsNext(d, init.applied, scripts, next);
    SkipsAfterSkip(engine, d, init, db.schema, scripts, skips, next, code);
    PassedNext(d, db.applied, after.applied, next);
  }

  lemma EarlierRecorded<S>(engine: Engine<S>, d: Directory, bootstrap: bool, init: Db<S>, db: Db<S>, next: nat)
    requires Progress(engine, d, bootstrap, init, db, next)
    ensures next <= |ListUp(d)| && forall k | 0 <= k < next :: ListUp(d)[k] in db.applied
  {}

  lemma LoopStops<S>(engine: Engine<S>, d: Directory, bootstrap: bool, init: Db<S>, db: Db<S>, next: nat)
    requires !Refused(d, init.applied) && Progress(engine, d, bootstrap, init, db, next) && next < |ListUp(d)|
    requires ListUp(d)[next] !in db.applied && ListUp(d)[next] in d.content
    requires var outcome := engine(d.content[ListUp(d)[next]], db.schema);
             outcome.SqlError? && !(bootstrap && AlreadyCreated(outcome.code))
    ensures RunOutcome(engine, d, bootstrap, init, db, Failure)
  {
    EarlierRecorded(engine, d, bootstrap, init, db, next);
    assert StoppedAt(engine, d, bootstrap, db, next);
  }

  lemma {:induction false} LoopOutcome<S>(engine: Engine<S>, d: Directory, bootstrap: bool, init: Db<S>, db: Db<S>, next: nat, count: nat)
    requires d.Valid() && !Refused(d, init.applied) && Progress(engine, d, bootstrap, init, db, next)
    requires (forall f :: f in ListUp(d) ==> f in d.content) && next <= |ListUp(d)| && count == |db.applied| - |init.applied|
    ensures var (after, result) := UpFrom(engine, d, bootstrap, init.applied.Keys, next, count, db);
            RunOutcome(engine, d, bootstrap, init, after, result)
    decreases |ListUp(d)| - next
  {
    hide Progress, Refused, ListUp, StoppedAt, AlreadyCreated;
    if next == |ListUp(d)| {
      assert RunOutcome(engine, d, bootstrap, init, db, Success(count));
    } else {
      hide RunOutcome;
      var f := ListUp(d)[next];
      if f in init.applied {
        ProgressSeen(engine, d, bootstrap, init, db, next);
        LoopOutcome(engine, d, bootstrap, init, db, next + 1, count);
      } else {
        NextIsNew(engine, d, bootstrap, init, db, next);
        OneMore(db.applied, f, Some(FileHash(d, f)));
        match engine(d.content[f], db.schema)
        case Done(schema) =>
          ProgressCommitted(engine, d, bootstrap, init, db, next, schema);
          LoopOutcome(engine, d, bootstrap, init, Committed(db, d, f, schema), next + 1, count + 1);
        case SqlError(code) =>
          if bootstrap && AlreadyCreated(code) {
            ProgressSkipped(engine, d, init, db, next, code);
            LoopOutcome(engine, d, bootstrap, init, RecordedOnly(db, d, f), next + 1, count + 1);
          } else {
            LoopStops(engine, d, bootstrap, init, db, next);
          }
      }
    }
  }

  /** What `up` does, without its loop. */
  lemma {:induction false} UpOutcome<S>(engine: Engine<S>, d: Directory, bootstrap: bool, init: Db<S>)
    requires d.Valid()
    ensures var (after, result) := Up(engine, d, bootstrap, init);
            RunOutcome(engine, d, bootstrap, init, after, result)
  {
    RefusedIffChecksFail(d, init.applied);
    ListUpIsSortedDirectory(d);
    ProgressStart(engine, d, bootstrap, init);
    hide Refused, Progress, ListUp, UpFrom;
    if !Refused(d, init.applied) {
      LoopOutcome(engine, d, bootstrap, init, init, 0, 0);
    }
  }
}
