/** Users and their partial-update builder (database/src/user.rs). A `User` is a
    row held in memory; `UserUpdater` collects pending changes and `save` writes
    them, in SQL and then in the row, only when there is something to write. The
    outcome of the UPDATE statement is a parameter. */
module Users {
  import opened Common
  import Database

  /** The columns of a user row. */
  datatype UserRow = UserRow(
    id: I32,
    givenName: string,
    familyName: string,
    primaryEmail: string,
    isAdmin: bool,
    createdAt: int,
    updatedAt: int)

  class User {
    var id: I32
    var givenName: string
    var familyName: string
    var primaryEmail: string
    var isAdmin: bool
    var createdAt: int
    var updatedAt: int

    /** A user as read from the database. */
    constructor(row: UserRow)
      ensures Row() == row
    {
      id, givenName, familyName, primaryEmail := row.id, row.givenName, row.familyName, row.primaryEmail;
      isAdmin, createdAt, updatedAt := row.isAdmin, row.createdAt, row.updatedAt;
    }

    function Row(): UserRow
      reads this
    {
      UserRow(id, givenName, familyName, primaryEmail, isAdmin, createdAt, updatedAt)
    }
  }

  /** The changes an updater holds. */
  datatype Pending = Pending(
    givenName: Option<string>,
    familyName: Option<string>,
    primaryEmail: Option<string>,
    isAdmin: Option<bool>)

  const NoChanges: Pending := Pending(None, None, None, None)

  /** `save`'s no-op test as written: it looks at the names and the email only. */
  predicate NothingToWriteAsWritten(p: Pending) {
    p.givenName.None? && p.familyName.None? && p.primaryEmail.None?
  }

  /** The row after a successful write as the source performs it: each pending
      name or email replaces its column, and the admin flag is never written. */
  function AppliedAsWritten(row: UserRow, p: Pending): (r: UserRow)
    ensures r.id == row.id && r.isAdmin == row.isAdmin
    ensures NothingToWriteAsWritten(p) ==> r == row
  {
    row.(givenName := Override(p.givenName, row.givenName),
         familyName := Override(p.familyName, row.familyName),
         primaryEmail := Override(p.primaryEmail, row.primaryEmail))
  }

  /** As written, a pending admin flag is lost: an update that only sets it
      leaves the row as it was, even when the flag differs from the row's. */
  lemma AdminFlagDropped(row: UserRow)
    ensures var p := NoChanges.(isAdmin := Some(!row.isAdmin));
      AppliedAsWritten(row, p) == row && AppliedAsWritten(row, p).isAdmin != p.isAdmin.value
  {
  }

  /** `save`'s no-op test, corrected: nothing is pending in any field. */
  predicate NothingToWrite(p: Pending) {
    p.givenName.None? && p.familyName.None? && p.primaryEmail.None? && p.isAdmin.None?
  }

  /** The row after a successful write, corrected: each pending field replaces its
      column; the id and the timestamps stay as they were, and so does everything
      when there is nothing to write. */
  function Applied(row: UserRow, p: Pending): (r: UserRow)
    ensures r.id == row.id
    ensures r.createdAt == row.createdAt && r.updatedAt == row.updatedAt
    ensures NothingToWrite(p) ==> r == row
    ensures p.primaryEmail.Some? ==> r.primaryEmail == p.primaryEmail.value
    ensures p.isAdmin.Some? ==> r.isAdmin == p.isAdmin.value
    ensures p.isAdmin.None? ==> r.isAdmin == row.isAdmin
  {
    row.(givenName := Override(p.givenName, row.givenName),
         familyName := Override(p.familyName, row.familyName),
         primaryEmail := Override(p.primaryEmail, row.primaryEmail),
         isAdmin := Override(p.isAdmin, row.isAdmin))
  }

  /** Writing the same changes twice is writing them once. */
  lemma AppliedIdempotent(row: UserRow, p: Pending)
    ensures Applied(Applied(row, p), p) == Applied(row, p)
  {
  }

  /** The correction changes nothing for updates that leave the admin flag alone. */
  lemma CorrectionOnlyAddsAdminFlag(row: UserRow, p: Pending)
    requires p.isAdmin.None?
    ensures Applied(row, p) == AppliedAsWritten(row, p)
    ensures NothingToWrite(p) <==> NothingToWriteAsWritten(p)
  {
  }

  /** The columns `save` sets, in the order it pushes them; `withAdmin` adds the
      admin flag, which only the corrected save writes. */
  function SetColumns(p: Pending, withAdmin: bool): (cols: seq<string>)
    ensures |cols| == 0 <==> (if withAdmin then NothingToWrite(p) else NothingToWriteAsWritten(p))
  {
    (if p.givenName.Some? then ["given_name"] else []) +
    (if p.familyName.Some? then ["family_name"] else []) +
    (if p.primaryEmail.Some? then ["primary_email"] else []) +
    (if withAdmin && p.isAdmin.Some? then ["is_admin"] else [])
  }

  /** No column name holds a digit. */
  lemma SetColumnsDigitFree(p: Pending, withAdmin: bool)
    ensures var cols := SetColumns(p, withAdmin);
      forall j, i :: 0 <= j < |cols| && 0 <= i < |cols[j]| ==> !Database.IsAsciiDigit(cols[j][i])
  {
  }

  /** The `separated(", ")` list of `column = $n` assignments, numbered from `n`. */
  function Assignments(cols: seq<string>, n: nat): (s: string)
    ensures cols != [] ==> |s| > 0 && Database.IsAsciiDigit(s[|s| - 1])
  {
    if cols == [] then ""
    else if |cols| == 1 then cols[0] + " = " + Database.Placeholder(n)
    else cols[0] + " = " + Database.Placeholder(n) + ", " + Assignments(cols[1..], n + 1)
  }

  /** The UPDATE `save` builds, as written: the WHERE clause is pushed with no
      leading space, so it follows the last parameter directly. */
  function UpdateStatementAsWritten(p: Pending): string {
    var cols := SetColumns(p, false);
    "UPDATE users SET " + Assignments(cols, 1) + "WHERE id = " + Database.Placeholder(|cols| + 1)
  }

  /** As written, every UPDATE the save issues has a parameter running straight
      into `WHERE`. */
  lemma WhereRunsIntoParameter(p: Pending)
    requires !NothingToWriteAsWritten(p)
    ensures !Database.ParametersDelimited(UpdateStatementAsWritten(p))
  {
    var cols := SetColumns(p, false);
    var head := "UPDATE users SET " + Assignments(cols, 1);
    var s := UpdateStatementAsWritten(p);
    assert s == head + ("WHERE id = " + Database.Placeholder(|cols| + 1));
    assert s[|head| - 1] == head[|head| - 1];
    assert s[|head|] == 'W';
  }

  /** The statement for a given name alone, as written. */
  lemma GivenNameStatementAsWritten(name: string)
    ensures UpdateStatementAsWritten(NoChanges.(givenName := Some(name))) ==
      "UPDATE users SET " + "given_name = $1" + "WHERE id = " + "$2"
  {
    var p := NoChanges.(givenName := Some(name));
    GivenNameAssignment();
    assert SetColumns(p, false) == ["given_name"];
    assert Database.Placeholder(2) == "$2" by { assert NatDigits(2) == ['2']; }
  }

  lemma GivenNameAssignment()
    ensures Assignments(["given_name"], 1) == "given_name = $1"
  {
    assert Database.Placeholder(1) == "$1" by { assert NatDigits(1) == ['1']; }
  }

  /** The UPDATE, corrected: `WHERE` is preceded by a space, and the admin flag
      is written like the other columns. */
  function UpdateStatement(p: Pending): string {
    var cols := SetColumns(p, true);
    "UPDATE users SET " + Assignments(cols, 1) + " WHERE id = " + Database.Placeholder(|cols| + 1)
  }

  /** Every `column = $n` list is delimited when no column name holds a digit. */
  lemma {:induction false} AssignmentsDelimited(cols: seq<string>, n: nat)
    requires forall j, i :: 0 <= j < |cols| && 0 <= i < |cols[j]| ==> !Database.IsAsciiDigit(cols[j][i])
    ensures Database.ParametersDelimited(Assignments(cols, n))
  {
    if cols != [] {
      var name := cols[0] + " = ";
      assert forall i :: 0 <= i < |name| ==> !Database.IsAsciiDigit(name[i]);
      Database.DigitFreeDelimited(name);
      Database.DigitFreeDelimited(Database.Placeholder(n));
      Database.DelimitedConcat(name, Database.Placeholder(n));
      if |cols| > 1 {
        var first := name + Database.Placeholder(n);
        Database.DigitFreeDelimited(", ");
        Database.DelimitedConcat(first, ", ");
        AssignmentsDelimited(cols[1..], n + 1);
        Database.DelimitedConcat(first + ", ", Assignments(cols[1..], n + 1));
        assert Assignments(cols, n) == first + ", " + Assignments(cols[1..], n + 1);
      }
    }
  }

  /** Corrected, no parameter of the UPDATE runs into a word. */
  lemma UpdateStatementDelimited(p: Pending)
    ensures Database.ParametersDelimited(UpdateStatement(p))
  {
    var cols := SetColumns(p, true);
    var set_ := "UPDATE users SET ";
    var where := " WHERE id = ";
    var last := Database.Placeholder(|cols| + 1);
    assert forall i :: 0 <= i < |set_| ==> !Database.IsAsciiDigit(set_[i]);
    assert forall i :: 0 <= i < |where| ==> !Database.IsAsciiDigit(where[i]);
    Database.DigitFreeDelimited(set_);
    Database.DigitFreeDelimited(where);
    Database.DigitFreeDelimited(last);
    SetColumnsDigitFree(p, true);
    AssignmentsDelimited(cols, 1);
    Database.DelimitedConcat(set_, Assignments(cols, 1));
    Database.DelimitedConcat(set_ + Assignments(cols, 1), where);
    Database.DelimitedConcat(set_ + Assignments(cols, 1) + where, last);
  }

  class UserUpdater {
    const user: User
    var givenName: Option<string>
    var familyName: Option<string>
    var primaryEmail: Option<string>
    var isAdmin: Option<bool>

    /** `User::update`: an updater with nothing pending. */
    constructor(user: User)
      ensures this.user == user && Changes() == NoChanges
    {
      this.user := user;
      givenName, familyName, primaryEmail, isAdmin := None, None, None, None;
    }

    function Changes(): Pending
      reads this
    {
      Pending(givenName, familyName, primaryEmail, isAdmin)
    }

    method GivenName(v: string)
      modifies this
      ensures Changes() == old(Changes()).(givenName := Some(v))
    {
      givenName := Some(v);
    }

    method OverrideGivenName(o: Option<string>)
      modifies this
      ensures Changes() == old(Changes()).(givenName := o)
    {
      givenName := o;
    }

    method FamilyName(v: string)
      modifies this
      ensures Changes() == old(Changes()).(familyName := Some(v))
    {
      familyName := Some(v);
    }

    method OverrideFamilyName(o: Option<string>)
      modifies this
      ensures Changes() == old(Changes()).(familyName := o)
    {
      familyName := o;
    }

    method PrimaryEmail(v: string)
      modifies this
      ensures Changes() == old(Changes()).(primaryEmail := Some(v))
    {
      primaryEmail := Some(v);
    }

    method OverridePrimaryEmail(o: Option<string>)
      modifies this
      ensures Changes() == old(Changes()).(primaryEmail := o)
    {
      primaryEmail := o;
    }

    method IsAdmin(v: bool)
      modifies this
      ensures Changes() == old(Changes()).(isAdmin := Some(v))
    {
      isAdmin := Some(v);
    }

    method OverrideIsAdmin(o: Option<bool>)
      modifies this
      ensures Changes() == old(Changes()).(isAdmin := o)
    {
      isAdmin := o;
    }

    /** `UserUpdater::save`, corrected to write the admin flag. With nothing
        pending nothing is written and the outcome of the statement does not matter; a failed UPDATE leaves the
        user as it was; a successful one applies the pending changes. */
    method Save(outcome: Option<Database.Error>) returns (r: Result<(), Database.Error>)
      modifies user
      ensures NothingToWrite(Changes()) ==> r == Ok(()) && user.Row() == old(user.Row())
      ensures !NothingToWrite(Changes()) && outcome.Some? ==>
        r == Err(outcome.value) && user.Row() == old(user.Row())
      ensures !NothingToWrite(Changes()) && outcome.None? ==>
        r == Ok(()) && user.Row() == Applied(old(user.Row()), Changes())
    {
      if givenName.None? && familyName.None? && primaryEmail.None? && isAdmin.None? {
        return Ok(());
      }
      if outcome.Some? {
        return Err(outcome.value);
      }
      if givenName.Some? {
        user.givenName := givenName.value;
      }
      if familyName.Some? {
        user.familyName := familyName.value;
      }
      if primaryEmail.Some? {
        user.primaryEmail := primaryEmail.value;
      }
      if isAdmin.Some? {
        user.isAdmin := isAdmin.value;
      }
      r := Ok(());
    }
  }
}
