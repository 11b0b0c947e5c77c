/** The rows, roles and read-only lookups of the SoundCloud account table:
    what `SoundCloudAccountModel::data` answers for a row and a role, given the
    table's rows and the user id of the current SoundCloud session. */
module AccountData {

  /** One stored account. The fields are the table's columns, in column
      order; column 0 is the user id. */
  datatype Account = Account(userId: string, username: string, accessToken: string,
                             refreshToken: string, scopes: string)
  {
    /** The value held in column `c`. */
    function Column(c: int): string
      requires 0 <= c < ColumnCount
    {
      if c == 0 then userId
      else if c == 1 then username
      else if c == 2 then accessToken
      else if c == 3 then refreshToken
      else scopes
    }
  }

  const ColumnCount := 5

  /** The table seen together with the user id the SoundCloud session holds
      ("" when no account is current). */
  datatype AccountState = AccountState(rows: seq<Account>, current: string)

  /** A model index: a row and a column of the table, not necessarily valid. */
  datatype ModelIndex = ModelIndex(row: int, column: int)

  /** The values `data` can return: no value (an invalid index or an unknown
      role), a column's text, or the active flag. */
  datatype Variant = Null | Text(text: string) | Flag(flag: bool)

  /** The conversion the source applies with `toString()`. */
  function AsString(v: Variant): string
  {
    match v
    case Null => ""
    case Text(t) => t
    case Flag(b) => if b then "true" else "false"
  }

  // Item roles. Qt's own roles, then the model's roles in declaration order.
  const DisplayRole := 0
  const EditRole := 2
  const UserRole := 0x0100
  const UserIdRole := UserRole + 1
  const UsernameRole := UserRole + 2
  const AccessTokenRole := UserRole + 3
  const RefreshTokenRole := UserRole + 4
  const ScopesRole := UserRole + 5
  const ActiveRole := UserRole + 6

  /** The role names the model registers for its own roles. */
  const RoleNames: map<int, string> :=
    map[UserIdRole := "userId", UsernameRole := "username", AccessTokenRole := "accessToken",
        RefreshTokenRole := "refreshToken", ScopesRole := "scopes", ActiveRole := "active"]

  /** The role registered under `name`, and 0 (the display role) when no role
      has that name, as a hash lookup by value returns a default key. */
  function RoleKey(name: string): (role: int)
    ensures role in RoleNames ==> RoleNames[role] == name
    ensures role !in RoleNames ==> role == DisplayRole
    ensures (exists r :: r in RoleNames && RoleNames[r] == name) ==> role in RoleNames
  {
    if name == "userId" then UserIdRole
    else if name == "username" then UsernameRole
    else if name == "accessToken" then AccessTokenRole
    else if name == "refreshToken" then RefreshTokenRole
    else if name == "scopes" then ScopesRole
    else if name == "active" then ActiveRole
    else DisplayRole
  }

  /** Every registered role is found again from its name. */
  lemma RoleNameRoundTrip(role: int)
    requires role in RoleNames
    ensures RoleKey(RoleNames[role]) == role
  {
  }

  /** The base table model's value for the cell at (row, column), shown with the
      display role: nothing for an index outside the table. */
  function Cell(rows: seq<Account>, row: int, column: int): Variant
  {
    if 0 <= row < |rows| && 0 <= column < ColumnCount then Text(rows[row].Column(column)) else Null
  }

  /** Whether row `row` holds the account of the current session. */
  predicate IsActive(s: AccountState, row: int)
  {
    0 <= row < |s.rows| && s.rows[row].userId == s.current
  }

  /** `data(idx, role)`: the active flag, a column chosen by the role, or the
      base model's answer for Qt's own roles. */
  function Data(s: AccountState, idx: ModelIndex, role: int): (v: Variant)
    decreases if role == ActiveRole then 1 else 0
    ensures role == ActiveRole ==> v == Flag(IsActive(s, idx.row))
    ensures UserIdRole <= role < ActiveRole ==>
              v == Cell(s.rows, idx.row, role - UserIdRole)
    ensures role > ActiveRole ==> v == Null
    ensures role < UserIdRole && role != DisplayRole && role != EditRole ==> v == Null
    ensures role == DisplayRole || role == EditRole ==> v == Cell(s.rows, idx.row, idx.column)
  {
    if role == ActiveRole then
      Flag(Text(s.current) == Data(s, idx, UserIdRole))
    else if role >= UserIdRole then
      Cell(s.rows, idx.row, role - UserIdRole)
    else if role == DisplayRole || role == EditRole then
      Cell(s.rows, idx.row, idx.column)
    else
      Null
  }

  /** `data(row, roleName)`: the lookup by role name, on column 0 of the row. */
  function DataByName(s: AccountState, row: int, name: string): (v: Variant)
    ensures name == "active" ==> v == Flag(IsActive(s, row))
    ensures name == "userId" || name !in RoleNames.Values ==>
              v == (if 0 <= row < |s.rows| then Text(s.rows[row].userId) else Null)
    ensures forall r :: r in RoleNames && RoleNames[r] == name && r != ActiveRole ==>
              v == (if 0 <= row < |s.rows| then Text(s.rows[row].Column(r - UserIdRole)) else Null)
  {
    Data(s, ModelIndex(row, 0), RoleKey(name))
  }

  /** The user id read from column 0 of `row`, "" when the row does not exist. */
  function UserIdAt(s: AccountState, row: int): (id: string)
    ensures id == if 0 <= row < |s.rows| then s.rows[row].userId else ""
  {
    AsString(Data(s, ModelIndex(row, 0), DisplayRole))
  }

  /** One named field of a record. */
  datatype Field = Field(name: string, value: string)

  /** The record addAccount assembles: one field per column, named after it. */
  function AccountRecord(userId: string, username: string, accessToken: string,
                         refreshToken: string, scopes: string): seq<Field>
  {
    [Field("userId", userId), Field("username", username), Field("accessToken", accessToken),
     Field("refreshToken", refreshToken), Field("scopes", scopes)]
  }

  /** The value of the first field called `name`, "" when the record has none
      (the column is then left empty). Only records whose field names are
      distinct are modelled: the base model assigns fields one at a time, so
      with a repeated name the last field would win, and the record addAccount
      builds never repeats a name. */
  function FieldValue(record: seq<Field>, name: string): (v: string)
    ensures (forall i :: 0 <= i < |record| ==> record[i].name != name) ==> v == ""
    ensures forall i :: 0 <= i < |record| && record[i].name == name &&
                        (forall j :: 0 <= j < i ==> record[j].name != name)
                        ==> v == record[i].value
  {
    if record == [] then ""
    else if record[0].name == name then record[0].value
    else FieldValue(record[1..], name)
  }

  /** The row a record becomes when inserted: fields are matched to columns by name. */
  function FromRecord(record: seq<Field>): Account
  {
    Account(FieldValue(record, "userId"), FieldValue(record, "username"),
            FieldValue(record, "accessToken"), FieldValue(record, "refreshToken"),
            FieldValue(record, "scopes"))
  }

  /** Inserting the record addAccount builds stores exactly the five given
      values, each in its own column. */
  lemma RecordRoundTrip(a: Account)
    ensures FromRecord(AccountRecord(a.userId, a.username, a.accessToken, a.refreshToken, a.scopes)) == a
  {
    var r := AccountRecord(a.userId, a.username, a.accessToken, a.refreshToken, a.scopes);
    assert r[0].name == "userId";
    assert r[1].name == "username" && r[1].name != "userId";
    assert r[2].name == "accessToken" && r[2].name != "userId" && r[2].name != "username";
    assert r[3].name == "refreshToken" && r[3].name != "userId" && r[3].name != "username"
           && r[3].name != "accessToken";
    assert r[4].name == "scopes" && r[4].name != "userId" && r[4].name != "username"
           && r[4].name != "accessToken" && r[4].name != "refreshToken";
  }
}
