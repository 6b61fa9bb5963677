/** Migration planning (migrator/src/lib.rs): which migrations `apply` runs,
    which `undo` reverts, and the checks both make first. The migration list
    that sqlx embeds at build time is a parameter, and the database connection
    is a class holding the migrations table, the dirty marker and the log of
    scripts run, in order. Running a script is assumed to succeed. */
module Migrator {
  import opened Common

  datatype MigrationType = Simple | ReversibleUp | ReversibleDown

  predicate IsDownMigration(t: MigrationType) {
    t == ReversibleDown
  }

  /** `MigrationType::suffix`: the file-name ending of each kind. */
  function Suffix(t: MigrationType): string {
    match t
    case Simple => ".sql"
    case ReversibleUp => ".up.sql"
    case ReversibleDown => ".down.sql"
  }

  datatype Migration = Migration(version: I64, description: string, migrationType: MigrationType,
                                 checksum: seq<Byte>)

  /** A row of the migrations table. */
  datatype AppliedMigration = AppliedMigration(version: I64, checksum: seq<Byte>)

  datatype Error =
    | Execute
    | Source
    | VersionPreviouslyApplied(version: I64)
    | VersionMismatch(version: I64)
    | UnknownVersion(version: I64)
    | VersionTooOld(target: I64, latest: I64)
    | VersionTooNew(target: I64, latest: I64)
    | Dirty(version: I64)

  /** A script the connection ran. */
  datatype Step = Apply(migration: Migration) | Revert(migration: Migration)

  /** The versions recorded in the migrations table. */
  function Versions(applied: seq<AppliedMigration>): set<I64> {
    set a | a in applied :: a.version
  }

  lemma VersionsAppend(applied: seq<AppliedMigration>, a: AppliedMigration)
    ensures Versions(applied + [a]) == Versions(applied) + {a.version}
  {
    assert forall b :: b in applied + [a] <==> b in applied || b == a;
  }

  /** The table without the rows of one version. */
  function Without(applied: seq<AppliedMigration>, version: I64): (r: seq<AppliedMigration>)
    ensures Versions(r) == Versions(applied) - {version}
  {
    if applied == [] then []
    else
      var last := applied[|applied| - 1];
      var rest := Without(applied[..|applied| - 1], version);
      assert applied == applied[..|applied| - 1] + [last];
      VersionsAppend(applied[..|applied| - 1], last);
      VersionsAppend(rest, last);
      if last.version == version then rest else rest + [last]
  }

  class Connection {
    var applied: seq<AppliedMigration>
    var dirty: Option<I64>
    var steps: seq<Step>

    constructor(applied: seq<AppliedMigration>, dirty: Option<I64>)
      ensures this.applied == applied && this.dirty == dirty && steps == []
    {
      this.applied, this.dirty, steps := applied, dirty, [];
    }

    /** `Migrate::apply`: runs the script and records it in the table. */
    method ApplyScript(m: Migration)
      modifies this
      ensures applied == old(applied) + [AppliedMigration(m.version, m.checksum)]
      ensures steps == old(steps) + [Apply(m)] && dirty == old(dirty)
    {
      applied := applied + [AppliedMigration(m.version, m.checksum)];
      steps := steps + [Apply(m)];
    }

    /** `Migrate::revert`: runs the down script and removes its version from
        the table. */
    method RevertScript(m: Migration)
      modifies this
      ensures applied == Without(old(applied), m.version)
      ensures steps == old(steps) + [Revert(m)] && dirty == old(dirty)
    {
      applied := Without(applied, m.version);
      steps := steps + [Revert(m)];
    }
  }

  /** `create_file`'s name: the formatted timestamp, an underscore, the name
      and the kind's suffix. */
  method CreateFileName(timestamp: string, name: string, kind: MigrationType) returns (fileName: string)
    ensures fileName == timestamp + "_" + name + Suffix(kind)
    ensures fileName[..|timestamp|] == timestamp && fileName[|timestamp|] == '_'
  {
    fileName := timestamp;
    fileName := fileName + ['_'];
    fileName := fileName + name;
    fileName := fileName + Suffix(kind);
  }

  /** `add` names its up and down scripts apart even when both are created in
      the same second. */
  lemma UpAndDownNamesDiffer(timestamp: string, name: string)
    ensures timestamp + "_" + name + Suffix(ReversibleUp) != timestamp + "_" + name + Suffix(ReversibleDown)
  {
    var prefix := timestamp + "_" + name;
    assert (prefix + Suffix(ReversibleUp))[|prefix| + 1] == 'u';
    assert (prefix + Suffix(ReversibleDown))[|prefix| + 1] == 'd';
  }

  /** `ensure_no_dirty_migrations`: a partially applied migration is an error
      when `shouldError` is set, and only a warning otherwise. */
  function DirtyCheck(dirty: Option<I64>, shouldError: bool): (r: Result<(), Error>)
    ensures r.Err? <==> dirty.Some? && shouldError
    ensures r.Err? ==> r.error == Dirty(dirty.value)
  {
    if dirty.Some? && shouldError then Err(Dirty(dirty.value)) else Ok(())
  }

  /** The up migration the validator finds for a version: the last one in the
      list, as collecting into a map keeps the last entry. */
  function UpFor(ms: seq<Migration>, version: I64): (r: Option<Migration>)
    ensures r.Some? ==> r.value in ms && !IsDownMigration(r.value.migrationType) && r.value.version == version
    ensures r.None? <==> forall m :: m in ms ==> IsDownMigration(m.migrationType) || m.version != version
  {
    if ms == [] then None
    else
      var last := ms[|ms| - 1];
      assert ms == ms[..|ms| - 1] + [last];
      if !IsDownMigration(last.migrationType) && last.version == version then Some(last)
      else UpFor(ms[..|ms| - 1], version)
  }

  /** What the validator reports about one row of the table. */
  function CheckApplied(ms: seq<Migration>, a: AppliedMigration): Option<Error> {
    match UpFor(ms, a.version)
    case None => Some(VersionPreviouslyApplied(a.version))
    case Some(m) => if m.checksum != a.checksum then Some(VersionMismatch(a.version)) else None
  }

  /** The first row the validator objects to, in table order. */
  function FirstInvalid(ms: seq<Migration>, applied: seq<AppliedMigration>): Option<Error> {
    if applied == [] then None
    else if CheckApplied(ms, applied[0]).Some? then CheckApplied(ms, applied[0])
    else FirstInvalid(ms, applied[1..])
  }

  /** The validator accepts the table exactly when every row matches an up
      migration of the same version and checksum; otherwise the first bad
      row's error is a missing or a modified migration. */
  lemma {:induction false} FirstInvalidExact(ms: seq<Migration>, applied: seq<AppliedMigration>)
    ensures FirstInvalid(ms, applied).None? <==>
      forall a :: a in applied ==> UpFor(ms, a.version).Some? && UpFor(ms, a.version).value.checksum == a.checksum
    ensures FirstInvalid(ms, applied).Some? ==>
      exists a :: a in applied && FirstInvalid(ms, applied) == CheckApplied(ms, a)
  {
    if applied != [] {
      FirstInvalidExact(ms, applied[1..]);
      assert applied == [applied[0]] + applied[1..];
      if FirstInvalid(ms, applied[1..]).Some? {
        var a :| a in applied[1..] && FirstInvalid(ms, applied[1..]) == CheckApplied(ms, a);
        assert a in applied;
      }
    }
  }

  /** `validate_applied_migrations`. */
  method ValidateApplied(ms: seq<Migration>, ignoreMissing: bool, applied: seq<AppliedMigration>)
    returns (r: Result<(), Error>)
    ensures ignoreMissing ==> r == Ok(())
    ensures !ignoreMissing ==> (r.Ok? <==> FirstInvalid(ms, applied).None?)
    ensures !ignoreMissing && r.Err? ==> r.error == FirstInvalid(ms, applied).value
  {
    if ignoreMissing {
      return Ok(());
    }
    var i := 0;
    while i < |applied|
      invariant 0 <= i <= |applied|
      invariant FirstInvalid(ms, applied) == FirstInvalid(ms, applied[i..])
    {
      assert applied[i..][1..] == applied[i + 1..];
      match UpFor(ms, applied[i].version)
      case None =>
        return Err(VersionPreviouslyApplied(applied[i].version));
      case Some(m) =>
        if m.checksum != applied[i].checksum {
          return Err(VersionMismatch(applied[i].version));
        }
      i := i + 1;
    }
    r := Ok(());
  }

  /** Whether `apply_migration` runs a migration: an up or simple migration
      whose version is not yet recorded. */
  predicate IsPending(m: Migration, appliedVersions: set<I64>) {
    !IsDownMigration(m.migrationType) && m.version !in appliedVersions
  }

  /** The migrations `apply` runs, in list order. */
  function Pending(ms: seq<Migration>, appliedVersions: set<I64>): seq<Migration> {
    if ms == [] then []
    else Pending(ms[..|ms| - 1], appliedVersions)
         + (if IsPending(ms[|ms| - 1], appliedVersions) then [ms[|ms| - 1]] else [])
  }

  function ApplySteps(ms: seq<Migration>): seq<Step> {
    if ms == [] then [] else ApplySteps(ms[..|ms| - 1]) + [Apply(ms[|ms| - 1])]
  }

  function Rows(ms: seq<Migration>): seq<AppliedMigration> {
    if ms == [] then [] else Rows(ms[..|ms| - 1]) + [AppliedMigration(ms[|ms| - 1].version, ms[|ms| - 1].checksum)]
  }

  lemma AppendMigration(ms: seq<Migration>, m: Migration)
    ensures ApplySteps(ms + [m]) == ApplySteps(ms) + [Apply(m)]
    ensures Rows(ms + [m]) == Rows(ms) + [AppliedMigration(m.version, m.checksum)]
  {
    assert (ms + [m])[..|ms|] == ms;
  }

  /** `apply` runs exactly the listed up migrations whose version was not
      recorded when it started. */
  lemma {:induction false} PendingExact(ms: seq<Migration>, appliedVersions: set<I64>, m: Migration)
    ensures m in Pending(ms, appliedVersions) <==> m in ms && IsPending(m, appliedVersions)
  {
    if ms != [] {
      PendingExact(ms[..|ms| - 1], appliedVersions, m);
      assert ms == ms[..|ms| - 1] + [ms[|ms| - 1]];
    }
  }

  /** `apply_migration`: `true` when the migration was skipped. */
  method ApplyMigration(conn: Connection, m: Migration, appliedVersions: set<I64>) returns (skipped: bool)
    modifies conn
    ensures skipped <==> !IsPending(m, appliedVersions)
    ensures skipped ==> conn.applied == old(conn.applied) && conn.steps == old(conn.steps)
    ensures !skipped ==>
      conn.applied == old(conn.applied) + [AppliedMigration(m.version, m.checksum)] &&
      conn.steps == old(conn.steps) + [Apply(m)]
    ensures conn.dirty == old(conn.dirty)
  {
    if IsDownMigration(m.migrationType) {
      return true;
    }
    if m.version in appliedVersions {
      return true;
    }
    conn.ApplyScript(m);
    skipped := false;
  }

  /** `apply`: refuses a dirty database and a table that does not match the
      migrations, then runs every pending migration in list order. */
  method ApplyAll(conn: Connection, ms: seq<Migration>, ignoreMissing: bool) returns (r: Result<(), Error>)
    modifies conn
    ensures old(conn.dirty).Some? ==>
      r == Err(Dirty(old(conn.dirty).value)) && conn.applied == old(conn.applied) && conn.steps == old(conn.steps)
    ensures old(conn.dirty).None? && !ignoreMissing && FirstInvalid(ms, old(conn.applied)).Some? ==>
      r == Err(FirstInvalid(ms, old(conn.applied)).value) &&
      conn.applied == old(conn.applied) && conn.steps == old(conn.steps)
    ensures old(conn.dirty).None? && (ignoreMissing || FirstInvalid(ms, old(conn.applied)).None?) ==> (
      var pending := Pending(ms, Versions(old(conn.applied)));
      r == Ok(()) &&
      conn.applied == old(conn.applied) + Rows(pending) &&
      conn.steps == old(conn.steps) + ApplySteps(pending))
  {
    var dirtyCheck := DirtyCheck(conn.dirty, true);
    if dirtyCheck.Err? {
      return Err(dirtyCheck.error);
    }
    var listed := conn.applied;
    var valid := ValidateApplied(ms, ignoreMissing, listed);
    if valid.Err? {
      return Err(valid.error);
    }
    var appliedVersions := Versions(listed);

    var i := 0;
    while i < |ms|
      invariant 0 <= i <= |ms|
      invariant conn.applied == listed + Rows(Pending(ms[..i], appliedVersions))
      invariant conn.steps == old(conn.steps) + ApplySteps(Pending(ms[..i], appliedVersions))
      invariant conn.dirty == old(conn.dirty)
    {
      assert ms[..i + 1][..i] == ms[..i];
      assert Pending(ms[..i + 1], appliedVersions) == Pending(ms[..i], appliedVersions)
        + (if IsPending(ms[i], appliedVersions) then [ms[i]] else []);
      var skipped := ApplyMigration(conn, ms[i], appliedVersions);
      var before := Pending(ms[..i], appliedVersions);
      AppendMigration(before, ms[i]);
      if !skipped {
        var row := AppliedMigration(ms[i].version, ms[i].checksum);
        assert Pending(ms[..i + 1], appliedVersions) == before + [ms[i]];
        assert listed + Rows(before) + [row] == listed + (Rows(before) + [row]);
        assert conn.steps == old(conn.steps) + ApplySteps(before) + [Apply(ms[i])];
      } else {
        assert Pending(ms[..i + 1], appliedVersions) == before;
      }
      i := i + 1;
    }
    assert ms[..|ms|] == ms;
    r := Ok(());
  }

  /** After a successful `apply` every up migration's version is recorded. */
  lemma {:induction false} RowsVersions(ms: seq<Migration>)
    ensures Versions(Rows(ms)) == set m | m in ms :: m.version
  {
    if ms != [] {
      var last := ms[|ms| - 1];
      RowsVersions(ms[..|ms| - 1]);
      VersionsAppend(Rows(ms[..|ms| - 1]), AppliedMigration(last.version, last.checksum));
      assert ms == ms[..|ms| - 1] + [last];
      assert forall m :: m in ms <==> m in ms[..|ms| - 1] || m == last;
    }
  }

  lemma ApplyCompletes(ms: seq<Migration>, applied: seq<AppliedMigration>, m: Migration)
    requires m in ms && !IsDownMigration(m.migrationType)
    ensures m.version in Versions(applied + Rows(Pending(ms, Versions(applied))))
  {
    var pending := Pending(ms, Versions(applied));
    if m.version !in Versions(applied) {
      PendingExact(ms, Versions(applied), m);
      RowsVersions(pending);
      assert m.version in Versions(Rows(pending));
      var a :| a in Rows(pending) && a.version == m.version;
      assert a in applied + Rows(pending);
    } else {
      var a :| a in applied && a.version == m.version;
      assert a in applied + Rows(pending);
    }
  }

  /** Whether `undo_migration` reverts a migration: a down migration whose
      version is recorded and, with a target, newer than the target. */
  predicate IsRevertible(m: Migration, appliedVersions: set<I64>, target: Option<I64>) {
    IsDownMigration(m.migrationType) && m.version in appliedVersions
    && !(target.Some? && m.version <= target.value)
  }

  /** The migrations a full backwards pass reverts, in the order it meets
      them: from the end of the list to its start. */
  function Reverted(ms: seq<Migration>, appliedVersions: set<I64>, target: Option<I64>): seq<Migration> {
    if ms == [] then []
    else Reverted(ms[1..], appliedVersions, target)
         + (if IsRevertible(ms[0], appliedVersions, target) then [ms[0]] else [])
  }

  /** The migrations `undo` reverts: all of them down to the target when one
      is given, otherwise only the first it meets. */
  function ToRevert(ms: seq<Migration>, appliedVersions: set<I64>, target: Option<I64>): seq<Migration> {
    var all := Reverted(ms, appliedVersions, target);
    if target.None? && |all| > 1 then all[..1] else all
  }

  function RevertSteps(ms: seq<Migration>): seq<Step> {
    if ms == [] then [] else RevertSteps(ms[..|ms| - 1]) + [Revert(ms[|ms| - 1])]
  }

  /** The versions of a list of migrations. */
  function VersionsOf(ms: seq<Migration>): set<I64> {
    set m | m in ms :: m.version
  }

  lemma {:induction false} RevertedExact(ms: seq<Migration>, appliedVersions: set<I64>, target: Option<I64>, m: Migration)
    ensures m in Reverted(ms, appliedVersions, target) <==> m in ms && IsRevertible(m, appliedVersions, target)
  {
    if ms != [] {
      RevertedExact(ms[1..], appliedVersions, target, m);
      assert ms == [ms[0]] + ms[1..];
    }
  }

  /** A backwards pass over a list is the pass over its tail end followed by
      the pass over its front. */
  lemma {:induction false} RevertedSplit(ms: seq<Migration>, i: nat, appliedVersions: set<I64>, target: Option<I64>)
    requires i <= |ms|
    ensures Reverted(ms, appliedVersions, target)
      == Reverted(ms[i..], appliedVersions, target) + Reverted(ms[..i], appliedVersions, target)
  {
    if i > 0 {
      RevertedSplit(ms[1..], i - 1, appliedVersions, target);
      assert ms[1..][i - 1..] == ms[i..];
      assert ms[..i][1..] == ms[1..][..i - 1];
    } else {
      assert ms[0..] == ms;
    }
  }

  /** `undo_migration`: `true` when the migration was skipped. */
  method UndoMigration(conn: Connection, m: Migration, appliedVersions: set<I64>, target: Option<I64>)
    returns (skipped: bool)
    modifies conn
    ensures skipped <==> !IsRevertible(m, appliedVersions, target)
    ensures skipped ==> conn.applied == old(conn.applied) && conn.steps == old(conn.steps)
    ensures !skipped ==>
      conn.applied == Without(old(conn.applied), m.version) && conn.steps == old(conn.steps) + [Revert(m)]
    ensures conn.dirty == old(conn.dirty)
  {
    if !IsDownMigration(m.migrationType) {
      return true;
    }
    if m.version !in appliedVersions {
      return true;
    }
    if target.Some? && m.version <= target.value {
      return true;
    }
    conn.RevertScript(m);
    skipped := false;
  }

  /** The newest recorded version, or 0 when the table is empty. */
  function Latest(applied: seq<AppliedMigration>): (r: I64)
    ensures applied == [] ==> r == 0
    ensures forall a :: a in applied ==> a.version <= r
    ensures applied != [] ==> exists a :: a in applied && a.version == r
  {
    if applied == [] then 0
    else
      var last := applied[|applied| - 1];
      var rest := applied[..|applied| - 1];
      assert applied == rest + [last];
      if rest == [] then last.version
      else
        var newest := Latest(rest);
        if last.version >= newest then last.version else newest
  }

  /** The backwards pass from index `i` meets the rest of the list first. */
  lemma RevertedFrom(ms: seq<Migration>, i: nat, appliedVersions: set<I64>, target: Option<I64>)
    requires i < |ms|
    ensures Reverted(ms[i..], appliedVersions, target)
      == Reverted(ms[i + 1..], appliedVersions, target)
         + (if IsRevertible(ms[i], appliedVersions, target) then [ms[i]] else [])
  {
    assert ms[i..][1..] == ms[i + 1..];
  }

  lemma RevertStepsAppend(done: seq<Migration>, m: Migration)
    ensures RevertSteps(done + [m]) == RevertSteps(done) + [Revert(m)]
  {
    assert (done + [m])[..|done|] == done;
  }

  lemma VersionsOfAppend(done: seq<Migration>, m: Migration)
    ensures VersionsOf(done + [m]) == VersionsOf(done) + {m.version}
  {
    assert forall x :: x in done + [m] <==> x in done || x == m;
  }

  /** One step of the backwards pass: the pass from index `i` is the pass
      from `i + 1` followed by `ms[i]` when it is reverted. */
  lemma RevertStep(ms: seq<Migration>, i: nat, appliedVersions: set<I64>, target: Option<I64>)
    requires i < |ms|
    ensures var done := Reverted(ms[i + 1..], appliedVersions, target);
      var now := if IsRevertible(ms[i], appliedVersions, target) then done + [ms[i]] else done;
      && Reverted(ms[i..], appliedVersions, target) == now
      && RevertSteps(now) == RevertSteps(done) + (if IsRevertible(ms[i], appliedVersions, target) then [Revert(ms[i])] else [])
      && VersionsOf(now) == VersionsOf(done) + (if IsRevertible(ms[i], appliedVersions, target) then {ms[i].version} else {})
  {
    RevertedFrom(ms, i, appliedVersions, target);
    var done := Reverted(ms[i + 1..], appliedVersions, target);
    RevertStepsAppend(done, ms[i]);
    VersionsOfAppend(done, ms[i]);
  }

  /** Without a target, the first migration the backwards pass reverts is the
      only one `undo` reverts. */
  lemma FirstRevert(ms: seq<Migration>, i: nat, appliedVersions: set<I64>)
    requires i < |ms| && IsRevertible(ms[i], appliedVersions, None)
    requires Reverted(ms[i + 1..], appliedVersions, None) == []
    ensures ToRevert(ms, appliedVersions, None) == [ms[i]]
  {
    RevertStep(ms, i, appliedVersions, None);
    RevertedSplit(ms, i, appliedVersions, None);
    var all := Reverted(ms, appliedVersions, None);
    assert all == [ms[i]] + Reverted(ms[..i], appliedVersions, None);
    assert all[..1] == [ms[i]];
  }

  /** One turn of the backwards pass of `undo`, at index `i`: the pass has
      so far logged `base` followed by the reverts of everything after `i`.
      `true` when the pass stops here, which happens only without a target,
      after the first revert. */
  method RevertAt(conn: Connection, ms: seq<Migration>, i: nat, appliedVersions: set<I64>, target: Option<I64>,
                  ghost base: seq<Step>)
    returns (stop: bool)
    modifies conn
    requires i < |ms|
    requires conn.steps == base + RevertSteps(Reverted(ms[i + 1..], appliedVersions, target))
    requires Versions(conn.applied) == appliedVersions - VersionsOf(Reverted(ms[i + 1..], appliedVersions, target))
    requires target.None? ==> Reverted(ms[i + 1..], appliedVersions, target) == []
    ensures stop ==> target.None?
    ensures stop ==> conn.steps == base + RevertSteps(ToRevert(ms, appliedVersions, target))
    ensures stop ==> Versions(conn.applied) == appliedVersions - VersionsOf(ToRevert(ms, appliedVersions, target))
    ensures !stop ==> conn.steps == base + RevertSteps(Reverted(ms[i..], appliedVersions, target))
    ensures !stop ==> Versions(conn.applied) == appliedVersions - VersionsOf(Reverted(ms[i..], appliedVersions, target))
    ensures !stop && target.None? ==> Reverted(ms[i..], appliedVersions, target) == []
    ensures conn.dirty == old(conn.dirty)
  {
    RevertStep(ms, i, appliedVersions, target);
    ghost var done := Reverted(ms[i + 1..], appliedVersions, target);
    ghost var versionsBefore := Versions(conn.applied);
    var skipped := UndoMigration(conn, ms[i], appliedVersions, target);
    if skipped {
      return false;
    }
    assert Versions(conn.applied) == versionsBefore - {ms[i].version};
    assert Versions(conn.applied) == appliedVersions - (VersionsOf(done) + {ms[i].version});
    if target.None? {
      // `undo` breaks out of its loop here; nothing else follows the loop.
      FirstRevert(ms, i, appliedVersions);
      assert RevertSteps([ms[i]]) == [Revert(ms[i])];
      assert VersionsOf([ms[i]]) == {ms[i].version};
      return true;
    }
    return false;
  }

  /** The backwards pass of `undo`: with a target it reverts every recorded
      down migration newer than the target; without one it stops after the
      first it reverts. */
  method RevertPass(conn: Connection, ms: seq<Migration>, appliedVersions: set<I64>, target: Option<I64>)
    modifies conn
    requires Versions(conn.applied) == appliedVersions
    ensures conn.steps == old(conn.steps) + RevertSteps(ToRevert(ms, appliedVersions, target))
    ensures Versions(conn.applied) == appliedVersions - VersionsOf(ToRevert(ms, appliedVersions, target))
    ensures conn.dirty == old(conn.dirty)
  {
    var i := |ms|;
    while i > 0
      invariant 0 <= i <= |ms|
      invariant conn.steps == old(conn.steps) + RevertSteps(Reverted(ms[i..], appliedVersions, target))
      invariant Versions(conn.applied) == appliedVersions - VersionsOf(Reverted(ms[i..], appliedVersions, target))
      invariant target.None? ==> Reverted(ms[i..], appliedVersions, target) == []
      invariant conn.dirty == old(conn.dirty)
    {
      i := i - 1;
      var stop := RevertAt(conn, ms, i, appliedVersions, target, old(conn.steps));
      if stop {
        return;
      }
    }
    assert ms[0..] == ms;
    assert ToRevert(ms, appliedVersions, target) == Reverted(ms, appliedVersions, target);
  }

  /** `undo`. A target that names no migration (other than 0) is refused
      before the database is consulted; then a dirty database, a table that
      does not match the migrations and a target newer than the latest
      recorded version are refused, in that order. */
  method Undo(conn: Connection, ms: seq<Migration>, ignoreMissing: bool, target: Option<I64>)
    returns (r: Result<(), Error>)
    modifies conn
    ensures target.Some? && target.value != 0 && (forall m :: m in ms ==> m.version != target.value) ==>
      r == Err(VersionPreviouslyApplied(target.value))
    ensures r.Err? ==> conn.applied == old(conn.applied) && conn.steps == old(conn.steps)
    ensures r.Ok? ==> old(conn.dirty).None?
    ensures r.Ok? && !ignoreMissing ==> FirstInvalid(ms, old(conn.applied)).None?
    ensures r.Ok? && target.Some? ==> target.value <= Latest(old(conn.applied))
    ensures (target.None? || target.value == 0 || exists m :: m in ms && m.version == target.value) &&
            old(conn.dirty).Some? ==>
      r == Err(Dirty(old(conn.dirty).value))
    ensures (target.None? || target.value == 0 || exists m :: m in ms && m.version == target.value) &&
            old(conn.dirty).None? && !ignoreMissing && FirstInvalid(ms, old(conn.applied)).Some? ==>
      r == Err(FirstInvalid(ms, old(conn.applied)).value)
    ensures ((target.None? || target.value == 0 || exists m :: m in ms && m.version == target.value) &&
             old(conn.dirty).None? && (ignoreMissing || FirstInvalid(ms, old(conn.applied)).None?)) ==> (
      if target.Some? && target.value > Latest(old(conn.applied)) then
        r == Err(VersionTooNew(target.value, Latest(old(conn.applied))))
      else
        r == Ok(()) &&
        conn.steps == old(conn.steps) + RevertSteps(ToRevert(ms, Versions(old(conn.applied)), target)) &&
        Versions(conn.applied)
          == Versions(old(conn.applied)) - VersionsOf(ToRevert(ms, Versions(old(conn.applied)), target)))
  {
    if target.Some? && target.value != 0 {
      var known := exists m :: m in ms && m.version == target.value;
      if !known {
        return Err(VersionPreviouslyApplied(target.value));
      }
    }
    var dirtyCheck := DirtyCheck(conn.dirty, true);
    if dirtyCheck.Err? {
      return Err(dirtyCheck.error);
    }
    var listed := conn.applied;
    var valid := ValidateApplied(ms, ignoreMissing, listed);
    if valid.Err? {
      return Err(valid.error);
    }
    var latest := Latest(listed);
    if target.Some? && target.value > latest {
      return Err(VersionTooNew(target.value, latest));
    }
    RevertPass(conn, ms, Versions(listed), target);
    r := Ok(());
  }
}
