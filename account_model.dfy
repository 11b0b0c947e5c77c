/** The SoundCloud account list model and the session object whose user id it
    keeps up to date. The account table is held in row order; the database
    behind it is reduced to one answer per write: whether it accepts the write. */
module AccountModel {
  import opened AccountData
  import opened AccountOps

  /** The SoundCloud session: the user id of the current account, "" for none. */
  class SoundCloud {
    var userId: string

    constructor (userId: string)
      ensures this.userId == userId
    {
      this.userId := userId;
    }

    method SetUserId(userId: string)
      modifies this
      ensures this.userId == userId
    {
      this.userId := userId;
    }
  }

  class SoundCloudAccountModel {
    /** The stored accounts, in row order. */
    var rows: seq<Account>
    /** The session whose current user the model selects. */
    const soundCloud: SoundCloud

    /** The model over the accounts the table already holds. */
    constructor (soundCloud: SoundCloud, stored: seq<Account>)
      ensures this.soundCloud == soundCloud && rows == stored
    {
      this.soundCloud := soundCloud;
      rows := stored;
    }

    /** The table together with the session's current user id. */
    function State(): AccountState
      reads this, soundCloud
    {
      AccountState(rows, soundCloud.userId)
    }

    /** Appends the row a record describes, when the database accepts it. */
    method InsertRecord(record: seq<Field>, accepted: bool) returns (ok: bool)
      modifies this
      ensures ok == accepted
      ensures rows == if ok then old(rows) + [FromRecord(record)] else old(rows)
    {
      ok := accepted;
      if ok {
        rows := rows + [FromRecord(record)];
      }
    }

    /** Deletes one row, when it exists and the database accepts the deletion. */
    method RemoveRow(row: int, accepted: bool) returns (ok: bool)
      modifies this
      ensures ok == (accepted && 0 <= row < |old(rows)|)
      ensures rows == if ok then Without(old(rows), row) else old(rows)
    {
      ok := accepted && 0 <= row < |rows|;
      if ok {
        rows := Without(rows, row);
      }
    }

    /** Builds the five-field record, inserts it, and makes the new account current. */
    method AddAccount(userId: string, username: string, accessToken: string,
                      refreshToken: string, scopes: string, accepted: bool) returns (ok: bool)
      modifies this, soundCloud
      ensures var r := AddStep(old(State()), userId, username, accessToken, refreshToken, scopes, accepted);
              ok == r.ok && State() == r.state
    {
      var record: seq<Field> := [];
      record := record + [Field("userId", userId)];
      record := record + [Field("username", username)];
      record := record + [Field("accessToken", accessToken)];
      record := record + [Field("refreshToken", refreshToken)];
      record := record + [Field("scopes", scopes)];
      assert record == AccountRecord(userId, username, accessToken, refreshToken, scopes);

      ok := InsertRecord(record, accepted);
      if ok {
        soundCloud.SetUserId(userId);
      }
    }

    /** Deletes a row; when it held the current account, falls back to row 0 or to nobody. */
    method RemoveAccount(row: int, accepted: bool) returns (ok: bool)
      modifies this, soundCloud
      ensures var r := RemoveStep(old(State()), row, accepted);
              ok == r.ok && State() == r.state
    {
      var userId := UserIdAt(State(), row);

      ok := RemoveRow(row, accepted);
      if ok {
        if userId == soundCloud.userId {
          if |rows| > 0 {
            var selected := SelectAccount(0);
          } else {
            soundCloud.SetUserId("");
          }
        }
      }
    }

    /** Makes a row's account current, unless the row has no user id. */
    method SelectAccount(row: int) returns (ok: bool)
      modifies soundCloud
      ensures var r := SelectStep(old(State()), row);
              ok == r.ok && State() == r.state
      ensures rows == old(rows)
    {
      var userId := UserIdAt(State(), row);

      if userId != "" {
        soundCloud.SetUserId(userId);
        return true;
      }

      return false;
    }
  }
}
