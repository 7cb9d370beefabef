/**
 * Document spaces: creation under a unique name, the S3 key prefix of a space,
 * the CSV import of members, the privilege lookup that guards a space and the
 * clean-up when a dashboard user leaves one.
 */
module DocumentSpaces {
  import opened Wrappers
  import opened Text
  import opened DocumentSpacePrivileges

  /** The global privilege every document-space user holds. */
  const DocumentSpaceUserPrivilege: string := "DOCUMENT_SPACE_USER"

  /** The privilege every dashboard user holds. */
  const DashboardUserPrivilege: string := "DASHBOARD_USER"

  // ---------------------------------------------------------------------------
  // Values in a CSV row

  /**
   * `parseBooleanPrivilegeValue`: "true" or "yes" in any case, or exactly "1"
   * (ignoring case against a lower-case word is lower-casing the value).
   */
  predicate ParseBooleanPrivilegeValue(v: string)
  {
    Lower(v) == "true" || Lower(v) == "yes" || v == "1"
  }

  /** Only "1" lower-cases to "1". */
  lemma LowerIsOne(v: string)
    requires Lower(v) == "1"
    ensures v == "1"
  {
    assert |v| == 1;
    assert Lower(v)[0] == LowerChar(v[0]);
  }

  /** Two values that differ only in letter case parse alike. */
  lemma ParseBooleanIgnoresCase(v: string, w: string)
    requires Lower(v) == Lower(w)
    ensures ParseBooleanPrivilegeValue(v) == ParseBooleanPrivilegeValue(w)
  {
    if v == "1" {
      assert Lower(w) == Lower("1") == "1";
      LowerIsOne(w);
    }
    if w == "1" {
      assert Lower(v) == Lower("1") == "1";
      LowerIsOne(v);
    }
  }

  // ---------------------------------------------------------------------------
  // Object keys

  /** `createDocumentSpacePathPrefix`: the space id's text and a slash. */
  function PathPrefix(spaceId: string): (r: string)
    ensures |r| == |spaceId| + 1 && r[|spaceId|] == '/'
  {
    spaceId + "/"
  }

  /** Java `String.replace(target, "")`: every occurrence of `target`, scanned left to right, removed. */
  function RemoveAll(s: string, target: string): (r: string)
    requires target != []
    ensures |r| <= |s|
    decreases |s|
  {
    if |s| < |target| then s
    else if s[..|target|] == target then RemoveAll(s[|target|..], target)
    else [s[0]] + RemoveAll(s[1..], target)
  }

  lemma {:induction false} RemoveAllAbsent(s: string, target: string)
    requires target != [] && !Contains(s, target)
    ensures RemoveAll(s, target) == s
    decreases |s|
  {
    if |s| >= |target| {
      assert s[0..] == s;
      assert !StartsWith(s[0..], target);
      forall i | 0 <= i <= |s[1..]|
        ensures !StartsWith(s[1..][i..], target)
      {
        assert s[1..][i..] == s[i + 1..];
      }
      RemoveAllAbsent(s[1..], target);
      assert s == [s[0]] + s[1..];
    }
  }

  /**
   * `convertS3SummaryToDto`: the key shown for an object is its S3 key with the
   * space's prefix removed, so a name that does not repeat the prefix comes back whole.
   */
  lemma KeyInSpaceStripsPrefix(spaceId: string, name: string)
    requires !Contains(name, PathPrefix(spaceId))
    ensures RemoveAll(PathPrefix(spaceId) + name, PathPrefix(spaceId)) == name
  {
    var key := PathPrefix(spaceId) + name;
    assert key[..|PathPrefix(spaceId)|] == PathPrefix(spaceId);
    assert key[|PathPrefix(spaceId)|..] == name;
    RemoveAllAbsent(name, PathPrefix(spaceId));
  }

  // ---------------------------------------------------------------------------
  // CSV import

  /** The errors of a CSV import; rows are numbered from 1 as in the file. */
  datatype CsvError =
    | ImproperHeader(column: nat)
    | ImproperRowLength(row: nat)
    | MissingEmail(row: nat)
    | AlreadyMember(email: string)
    | DuplicateEmail(row: nat)

  /** A member a row asks to add. */
  datatype Member = Member(email: string, privileges: seq<PrivType>)

  /** The header the import expects, in lower case: the email and the three privilege types. */
  const HeaderNames: seq<string> := ["email", "read", "write", "membership"]

  /**
   * Every cell the import looks at it reads trimmed, so the rows below are
   * taken with their cells already trimmed.
   */
  function TrimRow(row: seq<string>): (r: seq<string>)
    ensures |r| == |row|
  {
    if row == [] then [] else [Trim(row[0])] + TrimRow(row[1..])
  }

  function TrimRows(rows: seq<seq<string>>): (r: seq<seq<string>>)
    ensures |r| == |rows| && forall i :: 0 <= i < |rows| ==> r[i] == TrimRow(rows[i])
  {
    seq(|rows|, i requires 0 <= i < |rows| => TrimRow(rows[i]))
  }

  /** A header cell as compared: lower-cased. */
  function HeaderCells(row: seq<string>): (r: seq<string>)
    ensures |r| == |row|
  {
    if row == [] then [] else [Lower(row[0])] + HeaderCells(row[1..])
  }

  /**
   * `validateCSVHeader` as written, over the compared cells: columns are
   * read in order and the first mismatch is reported, but a missing column
   * is read anyway, which throws an index-out-of-bounds exception no handler
   * catches.
   */
  function HeaderErrorAsWritten(cells: seq<string>, k: nat): Result<Option<CsvError>, Failure>
    requires k <= |HeaderNames|
    decreases |HeaderNames| - k
  {
    if k == |HeaderNames| then Ok(None)
    else if k >= |cells| then Err(ServerError)
    else if cells[k] != HeaderNames[k] then Ok(Some(ImproperHeader(k + 1)))
    else HeaderErrorAsWritten(cells, k + 1)
  }

  /** `validateCSVHeader` with a missing column reported as an improper header. */
  function HeaderError(cells: seq<string>, k: nat): (r: Option<CsvError>)
    requires k <= |HeaderNames|
    ensures r.Some? ==> r.value.ImproperHeader? && k < r.value.column <= |HeaderNames|
    decreases |HeaderNames| - k
  {
    if k == |HeaderNames| then None
    else if k >= |cells| || cells[k] != HeaderNames[k] then Some(ImproperHeader(k + 1))
    else HeaderError(cells, k + 1)
  }

  /** A two-column header that starts correctly makes the import throw. */
  lemma ShortHeaderThrows()
    ensures HeaderErrorAsWritten(["email", "read"], 0) == Err(ServerError)
    ensures HeaderError(["email", "read"], 0) == Some(ImproperHeader(3))
  {
    assert HeaderErrorAsWritten(["email", "read"], 2) == Err(ServerError);
  }

  /**
   * The corrected check accepts exactly a header whose columns from `k` on
   * are all present and match, and otherwise reports the first column that
   * is missing or does not match.
   */
  lemma {:induction false} HeaderErrorMeaning(cells: seq<string>, k: nat)
    requires k <= |HeaderNames|
    ensures HeaderError(cells, k) == None <==>
            k == |HeaderNames|
            || (|HeaderNames| <= |cells| && forall j :: k <= j < |HeaderNames| ==> cells[j] == HeaderNames[j])
    ensures HeaderError(cells, k).Some? ==>
              var c := HeaderError(cells, k).value.column - 1;
              (c >= |cells| || cells[c] != HeaderNames[c])
              && forall j :: k <= j < c ==> cells[j] == HeaderNames[j]
    decreases |HeaderNames| - k
  {
    if k < |HeaderNames| {
      if k < |cells| && cells[k] == HeaderNames[k] {
        HeaderErrorMeaning(cells, k + 1);
        assert HeaderError(cells, k) == HeaderError(cells, k + 1);
        if HeaderError(cells, k + 1).Some? {
          var c := HeaderError(cells, k + 1).value.column - 1;
          assert !(c < |cells| && cells[c] == HeaderNames[c]);
        }
      } else {
        assert HeaderError(cells, k) == Some(ImproperHeader(k + 1));
        assert !(k < |cells| && cells[k] == HeaderNames[k]);
      }
    }
  }

  /** With all four columns present the code as written and the corrected check agree. */
  lemma {:induction false} HeaderErrorAgrees(cells: seq<string>, k: nat)
    requires k <= |HeaderNames| <= |cells|
    ensures HeaderErrorAsWritten(cells, k) == Ok(HeaderError(cells, k))
    decreases |HeaderNames| - k
  {
    if k < |HeaderNames| && cells[k] == HeaderNames[k] {
      HeaderErrorAgrees(cells, k + 1);
    }
  }

  /** The column of a data row that asks for a privilege type. */
  function Column(t: PrivType): nat
  {
    match t
    case Read => 1
    case Write => 2
    case Membership => 3
  }

  /** Column `k` is present and its value parses as true. */
  predicate Asks(row: seq<string>, k: nat)
  {
    k < |row| && ParseBooleanPrivilegeValue(row[k])
  }

  /** The types selected by the three flags, in the order READ, WRITE, MEMBERSHIP. */
  function Selected(read: bool, write: bool, membership: bool): seq<PrivType>
  {
    (if read then [Read] else []) + (if write then [Write] else []) + (if membership then [Membership] else [])
  }

  /** A type is selected exactly when its flag is set, and no type twice. */
  lemma SelectedMeaning(read: bool, write: bool, membership: bool, t: PrivType)
    ensures t in Selected(read, write, membership) <==> (match t case Read => read case Write => write case Membership => membership)
    ensures forall k, l :: 0 <= k < l < |Selected(read, write, membership)| ==>
              Selected(read, write, membership)[k] != Selected(read, write, membership)[l]
  {
    var r := if read then [Read] else [];
    var w := if write then [Write] else [];
    var m := if membership then [Membership] else [];
    assert t in r + w + m <==> t in r || t in w || t in m;
  }

  /** The types a data row asks for. */
  function RowPrivileges(row: seq<string>): seq<PrivType>
  {
    Selected(Asks(row, 1), Asks(row, 2), Asks(row, 3))
  }

  /** A row asks for a type exactly when that type's column parses as true, and lists it once. */
  lemma RowPrivilegesMeaning(row: seq<string>, t: PrivType)
    ensures t in RowPrivileges(row) <==> Asks(row, Column(t))
    ensures forall k, l :: 0 <= k < l < |RowPrivileges(row)| ==> RowPrivileges(row)[k] != RowPrivileges(row)[l]
  {
    SelectedMeaning(Asks(row, 1), Asks(row, 2), Asks(row, 3), t);
  }

  /** `processCSVRow`: a member, or the error that makes the row skipped. */
  function ProcessCsvRow(row: seq<string>, i: nat): (r: Result<Member, CsvError>)
    ensures r.Err? <==> |row| < 2 || row[0] == ""
    ensures r.Err? ==> r.error == if |row| < 2 then ImproperRowLength(i + 1) else MissingEmail(i + 1)
    ensures r.Ok? ==> r.value.email == row[0] && r.value.email != "" && r.value.privileges == RowPrivileges(row)
  {
    if |row| < 2 then Err(ImproperRowLength(i + 1))
    else if row[0] == "" then Err(MissingEmail(i + 1))
    else Ok(Member(row[0], RowPrivileges(row)))
  }

  /** The import's state: the error list and the members to add. */
  datatype CsvState = CsvState(errors: seq<CsvError>, toAdd: seq<Member>)

  predicate Listed(toAdd: seq<Member>, email: string)
  {
    exists k :: 0 <= k < |toAdd| && toAdd[k].email == email
  }

  /**
   * A data row checked against the space and the members collected so far:
   * the member to add, or the row's error.
   */
  function CheckRow(toAdd: seq<Member>, row: seq<string>, i: nat, inSpace: set<string>): (r: Result<Member, CsvError>)
    ensures r.Ok? ==> r.value.email != "" && r.value.email !in inSpace && !Listed(toAdd, r.value.email)
  {
    match ProcessCsvRow(row, i)
    case Err(e) => Err(e)
    case Ok(m) =>
      if m.email in inSpace then Err(AlreadyMember(m.email))
      else if Listed(toAdd, m.email) then Err(DuplicateEmail(i + 1))
      else Ok(m)
  }

  /** One row of `batchAddDashboardUserToDocumentSpace`: the header, a skipped empty row, or a member. */
  function CsvStep(st: CsvState, row: seq<string>, i: nat, inSpace: set<string>): CsvState
  {
    if i == 0 then
      match HeaderError(HeaderCells(row), 0)
      case Some(e) => st.(errors := st.errors + [e])
      case None => st
    else if |row| == 0 then st
    else
      match CheckRow(st.toAdd, row, i, inSpace)
      case Err(e) => st.(errors := st.errors + [e])
      case Ok(m) => st.(toAdd := st.toAdd + [m])
  }

  /** The state after the first `n` rows, their cells trimmed. */
  function CsvRead(rows: seq<seq<string>>, n: nat, inSpace: set<string>): CsvState
    requires n <= |rows|
  {
    if n == 0 then CsvState([], []) else CsvStep(CsvRead(rows, n - 1, inSpace), rows[n - 1], n - 1, inSpace)
  }

  /** Members with distinct, non-blank emails none of which is already in the space. */
  predicate NewMembers(toAdd: seq<Member>, inSpace: set<string>)
  {
    (forall k :: 0 <= k < |toAdd| ==> toAdd[k].email != "" && toAdd[k].email !in inSpace)
    && forall k, l :: 0 <= k < l < |toAdd| ==> toAdd[k].email != toAdd[l].email
  }

  /**
   * One row only appends: to the errors, or a member that keeps the members
   * to add new to the space and distinct.
   */
  lemma CsvStepAppends(st: CsvState, row: seq<string>, i: nat, inSpace: set<string>)
    requires NewMembers(st.toAdd, inSpace)
    ensures st.errors <= CsvStep(st, row, i, inSpace).errors && st.toAdd <= CsvStep(st, row, i, inSpace).toAdd
    ensures NewMembers(CsvStep(st, row, i, inSpace).toAdd, inSpace)
  {
    if i != 0 && |row| != 0 && CheckRow(st.toAdd, row, i, inSpace).Ok? {
      var m := CheckRow(st.toAdd, row, i, inSpace).value;
      var next := st.toAdd + [m];
      forall k | 0 <= k < |st.toAdd|
        ensures next[k].email != m.email
      {
        assert !(st.toAdd[k].email == m.email);
      }
    }
  }

  /** Members to add have distinct emails, none blank and none already in the space. */
  lemma {:induction false} CsvMembersAreNew(rows: seq<seq<string>>, n: nat, inSpace: set<string>)
    requires n <= |rows|
    ensures NewMembers(CsvRead(rows, n, inSpace).toAdd, inSpace)
  {
    if n > 0 {
      CsvMembersAreNew(rows, n - 1, inSpace);
      CsvStepAppends(CsvRead(rows, n - 1, inSpace), rows[n - 1], n - 1, inSpace);
    }
  }

  /** Errors and members only ever grow: earlier rows' results stay at the front. */
  lemma {:induction false} CsvGrows(rows: seq<seq<string>>, n: nat, m: nat, inSpace: set<string>)
    requires n <= m <= |rows|
    ensures CsvRead(rows, n, inSpace).errors <= CsvRead(rows, m, inSpace).errors
    ensures CsvRead(rows, n, inSpace).toAdd <= CsvRead(rows, m, inSpace).toAdd
    decreases m - n
  {
    if n < m {
      CsvGrows(rows, n, m - 1, inSpace);
      CsvMembersAreNew(rows, m - 1, inSpace);
      CsvStepAppends(CsvRead(rows, m - 1, inSpace), rows[m - 1], m - 1, inSpace);
    }
  }

  /** A data row with a single field is reported with its 1-based number. */
  lemma CsvShortRowReported(rows: seq<seq<string>>, i: nat, inSpace: set<string>)
    requires 1 <= i < |rows| && |rows[i]| == 1
    ensures ImproperRowLength(i + 1) in CsvRead(rows, |rows|, inSpace).errors
  {
    CsvGrows(rows, i + 1, |rows|, inSpace);
    var errors := CsvRead(rows, i + 1, inSpace).errors;
    assert errors[|errors| - 1] == ImproperRowLength(i + 1);
  }

  /**
   * With no error in the whole file, every non-empty data row is read into
   * a member to add.
   */
  lemma CsvCleanFileAddsEveryRow(rows: seq<seq<string>>, i: nat, inSpace: set<string>)
    requires 1 <= i < |rows| && |rows[i]| != 0
    requires CsvRead(rows, |rows|, inSpace).errors == []
    ensures ProcessCsvRow(rows[i], i).Ok?
    ensures ProcessCsvRow(rows[i], i).value in CsvRead(rows, |rows|, inSpace).toAdd
  {
    CsvGrows(rows, i + 1, |rows|, inSpace);
    CsvGrows(rows, i, i + 1, inSpace);
    var before := CsvRead(rows, i, inSpace);
    var after := CsvRead(rows, i + 1, inSpace);
    assert after == CsvStep(before, rows[i], i, inSpace);
    assert after.errors == [] && before.errors == [];
    var checked := CheckRow(before.toAdd, rows[i], i, inSpace);
    assert checked.Ok? && after.toAdd == before.toAdd + [checked.value];
    assert checked.value == ProcessCsvRow(rows[i], i).value;
    assert after.toAdd[|before.toAdd|] == checked.value;
  }

  /** The `anyMatch` scan over the members collected so far. */
  method AnyMatch(toAdd: seq<Member>, email: string) returns (b: bool)
    ensures b == Listed(toAdd, email)
  {
    for k := 0 to |toAdd|
      invariant !Listed(toAdd[..k], email)
    {
      if toAdd[k].email == email {
        assert toAdd[k] == toAdd[..k + 1][k];
        return true;
      }
      assert toAdd[..k + 1] == toAdd[..k] + [toAdd[k]];
    }
    assert toAdd[..|toAdd|] == toAdd;
    b := false;
  }

  /** One pass of the row loop over a trimmed row. */
  method ReadRow(errors: seq<CsvError>, toAdd: seq<Member>, row: seq<string>, i: nat, inSpace: set<string>)
    returns (errors': seq<CsvError>, toAdd': seq<Member>)
    ensures CsvState(errors', toAdd') == CsvStep(CsvState(errors, toAdd), row, i, inSpace)
  {
    errors', toAdd' := errors, toAdd;
    if i == 0 {
      var header := HeaderError(HeaderCells(row), 0);
      if header.Some? {
        errors' := errors + [header.value];
      }
    } else if |row| != 0 {
      var member := ProcessCsvRow(row, i);
      if member.Err? {
        errors' := errors + [member.error];
      } else if member.value.email in inSpace {
        errors' := errors + [AlreadyMember(member.value.email)];
      } else {
        var seen := AnyMatch(toAdd, member.value.email);
        if seen {
          errors' := errors + [DuplicateEmail(i + 1)];
        } else {
          toAdd' := toAdd + [member.value];
        }
      }
    }
  }

  /** The row loop of `batchAddDashboardUserToDocumentSpace`, over rows with trimmed cells. */
  method ReadCsv(rows: seq<seq<string>>, inSpace: set<string>) returns (errors: seq<CsvError>, toAdd: seq<Member>)
    ensures CsvState(errors, toAdd) == CsvRead(rows, |rows|, inSpace)
  {
    errors, toAdd := [], [];
    for i := 0 to |rows|
      invariant CsvState(errors, toAdd) == CsvRead(rows, i, inSpace)
    {
      errors, toAdd := ReadRow(errors, toAdd, rows[i], i, inSpace);
    }
  }

  // ---------------------------------------------------------------------------
  // The space repository

  datatype User = User(id: Uuid, privileges: set<string>)

  /** The three privileges of a new space, one per type. */
  function NewSpacePrivileges(spaceId: string): (r: Privileges)
    ensures Read in r && Write in r && Membership in r
    ensures forall t :: t in r ==> r[t] == NewPrivilege(spaceId, t)
  {
    map t | t in AllTypes :: NewPrivilege(spaceId, t)
  }

  /** The types whose privilege of the space holds dashboard user `id`. */
  function HeldTypes(privs: Privileges, id: Uuid): set<PrivType>
  {
    set t | t in privs && DashboardUser(id) in privs[t].holders
  }

  /**
   * The global privileges a user keeps on leaving a space, or None when the
   * user is deleted: the document-space-user privilege goes once the user is
   * in no space (if that privilege exists at all), and a user left with the
   * dashboard-user privilege alone is deleted.
   */
  function Leave(held: set<string>, inNoSpace: bool, global: set<string>): (r: Option<set<string>>)
    ensures r.None? <==> (if inNoSpace && DocumentSpaceUserPrivilege in global then held - {DocumentSpaceUserPrivilege} else held) == {DashboardUserPrivilege}
    ensures r.Some? ==> r.value <= held && r.value != {DashboardUserPrivilege}
    ensures r.Some? && inNoSpace && DocumentSpaceUserPrivilege in global ==> DocumentSpaceUserPrivilege !in r.value
    ensures r.Some? && !(inNoSpace && DocumentSpaceUserPrivilege in global) ==> r.value == held
    ensures r.Some? ==> held - r.value <= {DocumentSpaceUserPrivilege}
  {
    var kept := if inNoSpace && DocumentSpaceUserPrivilege in global then held - {DocumentSpaceUserPrivilege} else held;
    if kept == {DashboardUserPrivilege} then None else Some(kept)
  }

  /** A space holding a privilege object of every type, as `createSpace` leaves it. */
  predicate HasAllTypes(privs: Privileges)
  {
    Read in privs && Write in privs && Membership in privs
  }

  /** Every space holds a privilege object of every type. */
  predicate AllTyped(spaces: map<string, Privileges>)
  {
    forall s :: s in spaces ==> HasAllTypes(spaces[s])
  }

  lemma AllTypedUpdate(spaces: map<string, Privileges>, s: string, privs: Privileges)
    requires AllTyped(spaces) && HasAllTypes(privs)
    ensures AllTyped(spaces[s := privs])
  {
  }

  /** The privileges of one space and the dashboard users, as adding members changes them. */
  datatype Enrolment = Enrolment(privs: Privileges, users: map<string, User>)

  /**
   * `createDashboardUserOrReturnExisting`, whose body is not part of this
   * model: the user stored under the email, or a new one with id `newId` that
   * holds the dashboard-user privilege alone.
   */
  function UserOrNew(users: map<string, User>, email: string, newId: Uuid): User
  {
    if email in users then users[email] else User(newId, {DashboardUserPrivilege})
  }

  /**
   * `createDashboardUserWithPrivileges` in one space: the user of the email,
   * found or new, loses every privilege of the space and gets the types its
   * request covers, then gains the global document-space-user privilege when
   * that privilege exists. A covered type without a privilege object is an
   * IllegalArgument.
   */
  function Enroll(e: Enrolment, m: Member, newId: Uuid, global: set<string>): Result<Enrolment, Failure>
  {
    var user := UserOrNew(e.users, m.email, newId);
    var granted := GrantOutcome(e.privs, DashboardUser(user.id), m.privileges);
    if granted.Err? then Err(granted.error)
    else
      var held := if DocumentSpaceUserPrivilege in global then user.privileges + {DocumentSpaceUserPrivilege} else user.privileges;
      Ok(Enrolment(granted.value, e.users[m.email := user.(privileges := held)]))
  }

  /**
   * The members an import collected, enrolled one after the other in row
   * order; new users take their ids from `newIds`.
   */
  function EnrollAll(e: Enrolment, toAdd: seq<Member>, newIds: string -> Uuid, global: set<string>): Result<Enrolment, Failure>
    decreases |toAdd|
  {
    if toAdd == [] then Ok(e)
    else match Enroll(e, toAdd[0], newIds(toAdd[0].email), global)
      case Err(f) => Err(f)
      case Ok(next) => EnrollAll(next, toAdd[1..], newIds, global)
  }

  /**
   * In a space with all three privilege objects, enrolling cannot fail; it
   * adds the member's email to the users, changes no other user, and gives
   * the member's user the document-space-user privilege when that exists.
   */
  lemma EnrollUsers(e: Enrolment, m: Member, newId: Uuid, global: set<string>)
    requires HasAllTypes(e.privs)
    ensures Enroll(e, m, newId, global).Ok?
    ensures var next := Enroll(e, m, newId, global).value;
            HasAllTypes(next.privs) && next.privs.Keys == e.privs.Keys
            && next.users.Keys == e.users.Keys + {m.email}
            && (forall x :: x in e.users && x != m.email ==> next.users[x] == e.users[x])
            && (DocumentSpaceUserPrivilege in global ==> DocumentSpaceUserPrivilege in next.users[m.email].privileges)
  {
    var user := UserOrNew(e.users, m.email, newId);
    GrantOutcomeMeaning(e.privs, DashboardUser(user.id), m.privileges, Read, DashboardUser(user.id));
    assert !exists u :: Covers(m.privileges, u) && u !in e.privs by {
      forall u ensures u in e.privs {
        EveryType(u);
      }
    }
  }

  /**
   * What enrolling does to the member's own user: it keeps its stored id (a
   * new user takes `newId`) and its global privileges (a new one holds the
   * dashboard-user privilege), and in the space it holds exactly the types
   * its request covers while no other holder changes.
   */
  lemma EnrollMeaning(e: Enrolment, m: Member, newId: Uuid, global: set<string>, t: PrivType, g: Holder)
    requires HasAllTypes(e.privs)
    ensures Enroll(e, m, newId, global).Ok?
    ensures var next := Enroll(e, m, newId, global).value;
            var u := next.users[m.email];
            u.id == (if m.email in e.users then e.users[m.email].id else newId)
            && (m.email in e.users ==> e.users[m.email].privileges <= u.privileges)
            && (m.email !in e.users ==> DashboardUserPrivilege in u.privileges)
            && (DashboardUser(u.id) in next.privs[t].holders <==> Covers(m.privileges, t))
            && (g != DashboardUser(u.id) ==> (g in next.privs[t].holders <==> g in e.privs[t].holders))
  {
    EnrollUsers(e, m, newId, global);
    var user := UserOrNew(e.users, m.email, newId);
    GrantOutcomeMeaning(e.privs, DashboardUser(user.id), m.privileges, t, g);
  }

  /** An email is listed by a non-empty member list when it is the first member's or is listed by the rest. */
  lemma ListedCons(toAdd: seq<Member>, x: string)
    requires toAdd != []
    ensures Listed(toAdd, x) <==> x == toAdd[0].email || Listed(toAdd[1..], x)
  {
    if Listed(toAdd, x) && x != toAdd[0].email {
      var k :| 0 <= k < |toAdd| && toAdd[k].email == x;
      assert toAdd[1..][k - 1].email == x;
    }
    if Listed(toAdd[1..], x) {
      var k :| 0 <= k < |toAdd[1..]| && toAdd[1..][k].email == x;
      assert toAdd[k + 1].email == x;
    }
  }

  /**
   * Enrolling every collected member of a space with all three privilege
   * objects succeeds; afterwards the users are the old ones and the listed
   * emails, a user not listed is unchanged, and every listed user holds the
   * document-space-user privilege when that exists.
   */
  lemma {:induction false} EnrollAllMeaning(e: Enrolment, toAdd: seq<Member>, newIds: string -> Uuid, global: set<string>, x: string)
    requires HasAllTypes(e.privs)
    ensures EnrollAll(e, toAdd, newIds, global).Ok?
    ensures var after := EnrollAll(e, toAdd, newIds, global).value;
            HasAllTypes(after.privs) && after.privs.Keys == e.privs.Keys
            && (x in after.users <==> x in e.users || Listed(toAdd, x))
            && (x in e.users && !Listed(toAdd, x) ==> after.users[x] == e.users[x])
            && (Listed(toAdd, x) && DocumentSpaceUserPrivilege in global ==> DocumentSpaceUserPrivilege in after.users[x].privileges)
    decreases |toAdd|
  {
    if toAdd != [] {
      var m := toAdd[0];
      EnrollUsers(e, m, newIds(m.email), global);
      var next := Enroll(e, m, newIds(m.email), global).value;
      EnrollAllMeaning(next, toAdd[1..], newIds, global, x);
      ListedCons(toAdd, x);
    }
  }

  /** After its removal a dashboard user holds no type of the space, so its next lookup is refused. */
  lemma LeavingRevokesAccess(privs: Privileges, id: Uuid)
    ensures HeldTypes(Removed(privs, DashboardUser(id)), id) == {}
  {
  }

  /** The member loop of `batchAddDashboardUserToDocumentSpace`: every member enrolled, one after the other. */
  method EnrollEach(start: Enrolment, toAdd: seq<Member>, newIds: string -> Uuid, global: set<string>) returns (e: Enrolment)
    requires HasAllTypes(start.privs)
    ensures EnrollAll(start, toAdd, newIds, global) == Ok(e) && HasAllTypes(e.privs)
  {
    e := start;
    for i := 0 to |toAdd|
      invariant HasAllTypes(e.privs)
      invariant EnrollAll(start, toAdd, newIds, global) == EnrollAll(e, toAdd[i..], newIds, global)
    {
      var m := toAdd[i];
      EnrollUsers(e, m, newIds(m.email), global);
      assert toAdd[i..][1..] == toAdd[i + 1..];
      e := Enroll(e, m, newIds(m.email), global).value;
    }
  }

  /**
   * Spaces (id to name), their privileges and dashboard-user members (by
   * email), the dashboard users (by email, with their global privilege
   * names) and the names in the privilege repository.
   */
  class SpaceStore {
    var names: map<string, string>
    var privileges: map<string, Privileges>
    var members: map<string, set<string>>
    var users: map<string, User>
    var globalPrivileges: set<string>

    ghost predicate Valid()
      reads this
    {
      names.Keys == privileges.Keys == members.Keys
      && AllTyped(privileges)
    }

    constructor(globalPrivileges: set<string>)
      ensures Valid() && names == map[] && users == map[] && this.globalPrivileges == globalPrivileges
    {
      names, privileges, members, users := map[], map[], map[], map[];
      this.globalPrivileges := globalPrivileges;
    }

    /** In no space at all. */
    predicate InNoSpace(email: string)
      reads this
    {
      forall s :: s in members ==> email !in members[s]
    }

    /**
     * `createSpace`: a name already in use is refused; otherwise the space is
     * stored under the requested id, or `newId` when none is given, with one
     * new privilege per type and no members.
     */
    method CreateSpace(id: Option<string>, name: string, newId: string) returns (r: Result<string, Failure>)
      requires Valid()
      modifies this
      ensures Valid() && users == old(users) && globalPrivileges == old(globalPrivileges)
      ensures name in old(names).Values ==>
                r == Err(ResourceAlreadyExists) && names == old(names) && privileges == old(privileges) && members == old(members)
      ensures name !in old(names).Values ==>
                r == Ok(id.UnwrapOr(newId))
                && names == old(names)[r.value := name]
                && privileges == old(privileges)[r.value := NewSpacePrivileges(r.value)]
                && members == old(members)[r.value := {}]
    {
      if name in names.Values {
        return Err(ResourceAlreadyExists);
      }
      var spaceId := if id.Some? then id.value else newId;
      names := names[spaceId := name];
      privileges := privileges[spaceId := NewSpacePrivileges(spaceId)];
      members := members[spaceId := {}];
      r := Ok(spaceId);
    }

    /**
     * `removeDashboardUserFromDocumentSpace`: the user loses every privilege
     * of the space and its membership; a user left in no space loses the
     * global document-space privilege, and a user left with only the
     * dashboard-user privilege is deleted.
     */
    method RemoveDashboardUserFromDocumentSpace(spaceId: string, email: string) returns (r: Result<(), Failure>)
      requires Valid()
      modifies this
      ensures Valid() && names == old(names) && globalPrivileges == old(globalPrivileges)
      ensures spaceId !in old(names) || email !in old(users) ==>
                r == Err(RecordNotFound) && privileges == old(privileges) && members == old(members) && users == old(users)
      ensures spaceId in old(names) && email in old(users) ==>
                var user := old(users)[email];
                var left := Leave(user.privileges, InNoSpace(email), globalPrivileges);
                r == Ok(())
                && privileges == old(privileges)[spaceId := Removed(old(privileges)[spaceId], DashboardUser(user.id))]
                && members == old(members)[spaceId := old(members)[spaceId] - {email}]
                && users == if left.None? then old(users) - {email} else old(users)[email := user.(privileges := left.value)]
    {
      if spaceId !in names {
        return Err(RecordNotFound);
      }
      if email !in users {
        return Err(RecordNotFound);
      }
      var user := users[email];
      var privs := Removed(privileges[spaceId], DashboardUser(user.id));
      AllTypedUpdate(privileges, spaceId, privs);
      privileges, members := privileges[spaceId := privs], members[spaceId := members[spaceId] - {email}];
      var left := Leave(user.privileges, InNoSpace(email), globalPrivileges);
      users := if left.None? then users - {email} else users[email := user.(privileges := left.value)];
      r := Ok(());
    }

    /**
     * `getDashboardUserPrivilegesForDocumentSpace`: the types the user holds
     * in the space; holding none is NotAuthorized.
     */
    method GetDashboardUserPrivilegesForDocumentSpace(spaceId: string, email: string) returns (r: Result<seq<PrivType>, Failure>)
      requires Valid()
      ensures spaceId !in names || email !in users ==> r == Err(RecordNotFound)
      ensures spaceId in names && email in users ==>
                (r == Err(NotAuthorized) <==> HeldTypes(privileges[spaceId], users[email].id) == {})
      ensures r.Ok? ==> spaceId in names && email in users
                        && forall t :: t in r.value <==> t in HeldTypes(privileges[spaceId], users[email].id)
      ensures r.Err? ==> r.error == RecordNotFound || r.error == NotAuthorized
    {
      if spaceId !in names || email !in users {
        return Err(RecordNotFound);
      }
      var privs := privileges[spaceId];
      var id := users[email].id;
      var held: seq<PrivType> := [];
      for i := 0 to |AllTypes|
        invariant forall t :: t in held <==> t in AllTypes[..i] && t in HeldTypes(privs, id)
      {
        var t := AllTypes[i];
        if t in privs && DashboardUser(id) in privs[t].holders {
          held := held + [t];
        }
        assert AllTypes[..i + 1] == AllTypes[..i] + [t];
      }
      forall t
        ensures t in held <==> t in HeldTypes(privs, id)
      {
        EveryType(t);
        assert AllTypes[..|AllTypes|] == AllTypes;
      }
      if held == [] {
        assert forall t :: t !in HeldTypes(privs, id);
        return Err(NotAuthorized);
      }
      assert held[0] in HeldTypes(privs, id);
      r := Ok(held);
    }

    /**
     * The grants of `createDashboardUserWithPrivileges` applied to the
     * members of one space in order; new users take their ids from `newIds`.
     */
    method EnrollMembers(spaceId: string, toAdd: seq<Member>, newIds: string -> Uuid)
      requires Valid() && spaceId in privileges
      modifies this
      ensures Valid() && names == old(names) && members == old(members) && globalPrivileges == old(globalPrivileges)
      ensures var after := EnrollAll(Enrolment(old(privileges)[spaceId], old(users)), toAdd, newIds, globalPrivileges);
              after.Ok? && privileges == old(privileges)[spaceId := after.value.privs] && users == after.value.users
    {
      var e := EnrollEach(Enrolment(privileges[spaceId], users), toAdd, newIds, globalPrivileges);
      AllTypedUpdate(privileges, spaceId, e.privs);
      privileges := privileges[spaceId := e.privs];
      users := e.users;
    }

    /**
     * `addDashboardUserToDocumentSpace`: an unknown space is not found;
     * otherwise the email's user, found or new with id `newId`, gets the
     * requested privileges in the space and becomes a member.
     */
    method AddDashboardUserToDocumentSpace(spaceId: string, m: Member, newId: Uuid) returns (r: Result<(), Failure>)
      requires Valid()
      modifies this
      ensures Valid() && names == old(names) && globalPrivileges == old(globalPrivileges)
      ensures spaceId !in old(names) ==>
                r == Err(RecordNotFound) && privileges == old(privileges) && members == old(members) && users == old(users)
      ensures spaceId in old(names) ==>
                var after := Enroll(Enrolment(old(privileges)[spaceId], old(users)), m, newId, globalPrivileges);
                r == Ok(()) && after.Ok?
                && privileges == old(privileges)[spaceId := after.value.privs] && users == after.value.users
                && members == old(members)[spaceId := old(members)[spaceId] + {m.email}]
    {
      if spaceId !in names {
        return Err(RecordNotFound);
      }
      EnrollMembers(spaceId, [m], _ => newId);
      assert [m][1..] == [];
      members := members[spaceId := members[spaceId] + {m.email}];
      r := Ok(());
    }

    /**
     * `batchAddDashboardUserToDocumentSpace`: reads the rows, and only when no
     * row produced an error enrolls every collected member: its user, found or
     * new with an id from `newIds`, gets the row's privileges in the space and
     * becomes a member.
     */
    method BatchAddDashboardUserToDocumentSpace(spaceId: string, rows: seq<seq<string>>, newIds: string -> Uuid)
      returns (r: Result<seq<CsvError>, Failure>)
      requires Valid()
      modifies this
      ensures Valid() && names == old(names) && globalPrivileges == old(globalPrivileges)
      ensures spaceId !in old(names) ==>
                r == Err(RecordNotFound) && privileges == old(privileges) && members == old(members) && users == old(users)
      ensures spaceId in old(names) ==>
                var read := CsvRead(TrimRows(rows), |rows|, old(members)[spaceId]);
                var after := EnrollAll(Enrolment(old(privileges)[spaceId], old(users)), read.toAdd, newIds, globalPrivileges);
                r == Ok(read.errors)
                && (read.errors != [] ==> privileges == old(privileges) && members == old(members) && users == old(users))
                && (read.errors == [] ==>
                      after.Ok?
                      && privileges == old(privileges)[spaceId := after.value.privs] && users == after.value.users
                      && members == old(members)[spaceId := old(members)[spaceId] + set m | m in read.toAdd :: m.email])
    {
      if spaceId !in names {
        return Err(RecordNotFound);
      }
      var errors, toAdd := ReadCsv(TrimRows(rows), members[spaceId]);
      if errors == [] {
        EnrollMembers(spaceId, toAdd, newIds);
        members := members[spaceId := members[spaceId] + set m | m in toAdd :: m.email];
      }
      r := Ok(errors);
    }
  }
}
