# SoundCloud account model

This project models the list of SoundCloud accounts that the application
keeps, together with the "current user" of the SoundCloud session. The list
is a database table of accounts. Each account has five columns: user id,
username, access token, refresh token and scopes. The session holds one user
id, or the empty string when no account is current.

Three operations keep the current user in step with the table:

- `addAccount` builds a five-field record, inserts it, and makes the new account current.
- `removeAccount` reads the row's user id, then deletes the row. If that
  account was current, it selects row 0, or clears the current user when no
  rows remain.
- `selectAccount` makes a row's account current, unless its user id is empty.

`data` answers two kinds of read. For the "active" role it says whether the
row's user id is the current user. For the other model roles it returns the
column `role - UserIdRole` of the row. The lookup by role name maps the name
back to a role first.

Layout:

- `account_data.dfy`, module `AccountData`: accounts, roles, `Data`, `DataByName`, and the record matched to columns by name.
- `account_ops.dfy`, module `AccountOps`: each operation as a function of the
  state before the call (`AddStep`, `RemoveStep`, `SelectStep`). It also holds
  the invariant the operations keep and `Run`, which applies a sequence of
  operations.
- `account_model.dfy`, module `AccountModel`: the classes `SoundCloud` (the
  session's user id) and `SoundCloudAccountModel` (the table as a `seq`). Their
  methods change the fields in place and are proved equal to the step functions.

The database's answer to each write is a parameter, `accepted`. An insert
succeeds exactly when the database accepts it. A deletion succeeds exactly
when the row exists and the database accepts it.

Proved beyond the per-operation contracts:

- The invariant `Good` says every row has a user id, and the current user is
  either nobody or the account of some row. All three operations keep it,
  as long as accounts are only added with non-empty user ids
  (`RunPreservesGood`, for any sequence of operations).
- That proviso is needed. Add an account without a user id, then one with a
  user id, then remove the second: the session is left on a user id no row
  holds (`RemoveCanLeaveStaleCurrent`). The fallback to row 0 goes through
  `selectAccount`, and `selectAccount` refuses an empty id.
- Removing an account just added restores the table (`AddThenRemoveLast`).
- Selecting a row twice has the same effect as selecting it once (`SelectIdempotent`).

## Model

| member | source | states |
|---|---|---|
| AccountData.Data | app/src/soundcloud/soundcloudaccountmodel.cpp:52-62 | the active role yields true exactly when the row exists and its user id is the current user; roles from UserIdRole up to ScopesRole yield that column of the row, or no value for a missing row; roles past ActiveRole yield no value; display and edit roles yield the indexed cell |
| AccountData.DataByName | app/src/soundcloud/soundcloudaccountmodel.cpp:64-66 | "active" yields the row's active flag; each of the five column names ("userId", "username", "accessToken", "refreshToken", "scopes") yields that column of the row, or no value for a missing row; every unregistered name yields the row's user id, because an unknown name falls back to the display role on column 0 |
| AccountData.RoleKey | app/src/soundcloud/soundcloudaccountmodel.cpp:26-31 | the role found for a name is one registered under that name, and it is the display role exactly when no role has the name |
| AccountData.RoleNameRoundTrip | app/src/soundcloud/soundcloudaccountmodel.cpp:26-31 | each of the six registered roles is found again from its name |
| AccountData.UserIdAt | app/src/soundcloud/soundcloudaccountmodel.cpp:105 | the user id read from column 0 is the row's user id, or "" for a row that does not exist |
| AccountData.FieldValue | app/src/soundcloud/soundcloudaccountmodel.cpp:93 | a column takes the value of the first record field carrying its name, and stays empty when no field does |
| AccountData.RecordRoundTrip | app/src/soundcloud/soundcloudaccountmodel.cpp:71-91 | the record addAccount builds stores each of the five arguments in its own column |
| AccountOps.AddStep | app/src/soundcloud/soundcloudaccountmodel.cpp:68-101 | succeeds exactly when the insert is accepted; on success the table gains exactly the new account at its end and that account becomes current (its row is active); on failure nothing changes |
| AccountOps.Without | app/src/soundcloud/soundcloudaccountmodel.cpp:107 | deleting a row keeps every other row in order, shifting later ones down by one, and drops exactly one copy of the deleted account |
| AccountOps.RemoveStep | app/src/soundcloud/soundcloudaccountmodel.cpp:104-122 | succeeds exactly when the row exists and the deletion is accepted; failure changes nothing; removing another user's row keeps the current user; removing the current user's row clears it when no rows remain, and otherwise takes the new row 0's user id if non-empty, else leaves the current user as it was |
| AccountOps.SelectStep | app/src/soundcloud/soundcloudaccountmodel.cpp:124-134 | succeeds exactly when the row exists and has a non-empty user id, which then becomes current (the row is active); the table never changes; on failure nothing changes |
| AccountOps.ActiveRowShowsCurrent | app/src/soundcloud/soundcloudaccountmodel.cpp:53-55 | under the invariant, a non-empty current user is shown as active by some row |
| AccountOps.SelectPreservesGood | app/src/soundcloud/soundcloudaccountmodel.cpp:124-134 | selecting keeps the invariant: every row has a user id and the current user is nobody or some row's account |
| AccountOps.AddPreservesGood | app/src/soundcloud/soundcloudaccountmodel.cpp:93-98 | adding an account with a non-empty user id keeps the invariant |
| AccountOps.RemovePreservesGood | app/src/soundcloud/soundcloudaccountmodel.cpp:104-122 | removing a row keeps the invariant, including the fallback to row 0 and the clearing on an empty table |
| AccountOps.RemoveCanLeaveStaleCurrent | app/src/soundcloud/soundcloudaccountmodel.cpp:108-111 | starting from an empty table, adding an account without a user id and then one with id "42" gives a consistent state; removing the "42" account then leaves the current user at "42", which no row holds, because the fallback to row 0 is refused |
| AccountOps.SelectIdempotent | app/src/soundcloud/soundcloudaccountmodel.cpp:124-134 | selecting the same row twice leaves the same state as selecting it once |
| AccountOps.AddThenRemoveLast | app/src/soundcloud/soundcloudaccountmodel.cpp:68-122 | removing the account just added restores the table, and the current user becomes row 0's user id, or the removed id if row 0 has none, or nobody on an empty table |
| AccountOps.RunPreservesGood | app/src/soundcloud/soundcloudaccountmodel.cpp:68-134 | any sequence of adds, removes and selects that adds only accounts with user ids keeps the invariant |
| AccountModel.SoundCloudAccountModel.InsertRecord | app/src/soundcloud/soundcloudaccountmodel.cpp:93 | an accepted insert appends the row the record describes; a refused one leaves the table unchanged |
| AccountModel.SoundCloudAccountModel.RemoveRow | app/src/soundcloud/soundcloudaccountmodel.cpp:107 | the deletion succeeds exactly when the row exists and is accepted, and then removes just that row |
| AccountModel.SoundCloudAccountModel.AddAccount | app/src/soundcloud/soundcloudaccountmodel.cpp:68-101 | the result, the new table and the session's new user id are those AddStep gives for the state before the call |
| AccountModel.SoundCloudAccountModel.RemoveAccount | app/src/soundcloud/soundcloudaccountmodel.cpp:104-122 | the result, the new table and the session's new user id are those RemoveStep gives for the state before the call |
| AccountModel.SoundCloudAccountModel.SelectAccount | app/src/soundcloud/soundcloudaccountmodel.cpp:124-134 | the result and the session's new user id are those SelectStep gives; the table is not touched (the method may modify only the session) |
| AccountModel.SoundCloudAccountModel.constructor | app/src/soundcloud/soundcloudaccountmodel.cpp:23-40 | the model starts over the accounts the table already holds, attached to the session |

## Left out

- The database itself is left out: opening the table, loading rows, the edit strategy and `errorString` (the driver's last error text). Each write's outcome is the `accepted` parameter.
- Re-sorting by username after each write is left out. Rows are kept in insertion order, so an added account goes at the end and the fallback takes whatever row 0 holds.
- The `dataChanged` and `countChanged` notifications and the role-name hash handed to views are left out. They announce changes but hold no state.
- The header that declares the role enum is not part of this model. The roles are taken to run from `Qt::UserRole + 1` (UserIdRole) to `Qt::UserRole + 6` (ActiveRole), in the order the constructor registers their names.
- FieldValue: only records whose field names are distinct are modelled (the first field with a name gives the column). The base model assigns fields one at a time, so with a repeated name the last one would win. The record addAccount builds never repeats a name.
- The base table model answers the display and edit roles with the cell's value and gives no value for any other role of its own. Its other roles (decoration, tool tips and so on) are not modelled.
- For a row that does not exist, comparing the current user id with an empty value is taken as false. So the active flag is false for a missing row.
- The transfer engine (app/src/base/transfer.h) is only declared in the files modelled. Its implementation, transfer.cpp, is not part of this model, so neither its state machine, redirects, resume nor scheduling is modelled.
- The Maemo plugin windows and the activity model are user interface, or network-fed lists with no bodies to model.
