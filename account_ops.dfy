/** What addAccount, removeAccount and selectAccount do to the account table and
    to the current user id, as functions of the state before the call. The
    methods of `AccountModel.SoundCloudAccountModel` are proved against these. */
module AccountOps {
  import opened AccountData

  /** What an operation returns, and the state it leaves. */
  datatype Outcome = Outcome(ok: bool, state: AccountState)

  /** selectAccount(row): the row's account becomes current when its user id is
      non-empty; otherwise nothing changes. The table itself never changes. */
  function SelectStep(s: AccountState, row: int): (r: Outcome)
    ensures r.ok <==> 0 <= row < |s.rows| && s.rows[row].userId != ""
    ensures r.state.rows == s.rows
    ensures r.ok ==> IsActive(r.state, row)
    ensures !r.ok ==> r.state == s
  {
    var userId := UserIdAt(s, row);
    if userId != "" then Outcome(true, AccountState(s.rows, userId)) else Outcome(false, s)
  }

  /** addAccount(...): when the database accepts the new row, the table gains
      exactly that account at its end and it becomes current; otherwise
      nothing changes. */
  function AddStep(s: AccountState, userId: string, username: string, accessToken: string,
                   refreshToken: string, scopes: string, accepted: bool): (r: Outcome)
    ensures r.ok == accepted
    ensures r.ok ==> r.state.rows == s.rows + [Account(userId, username, accessToken, refreshToken, scopes)]
    ensures r.ok ==> r.state.current == userId && IsActive(r.state, |s.rows|)
    ensures !r.ok ==> r.state == s
  {
    if accepted then
      RecordRoundTrip(Account(userId, username, accessToken, refreshToken, scopes));
      var row := FromRecord(AccountRecord(userId, username, accessToken, refreshToken, scopes));
      Outcome(true, AccountState(s.rows + [row], userId))
    else
      Outcome(false, s)
  }

  /** `rows` without the row at index `row`. */
  function Without(rows: seq<Account>, row: int): (r: seq<Account>)
    requires 0 <= row < |rows|
    ensures |r| == |rows| - 1
    ensures forall j :: 0 <= j < row ==> r[j] == rows[j]
    ensures forall j :: row <= j < |r| ==> r[j] == rows[j + 1]
    ensures multiset(r) + multiset{rows[row]} == multiset(rows)
  {
    assert rows == rows[..row] + [rows[row]] + rows[row + 1..];
    rows[..row] + rows[row + 1..]
  }

  /** removeAccount(row): the user id of the row is read first; the row is
      deleted when it exists and the database accepts the deletion. When the
      deleted account was current, row 0 is selected if rows remain and the
      current user is cleared if none do. */
  function RemoveStep(s: AccountState, row: int, accepted: bool): (r: Outcome)
    ensures r.ok <==> accepted && 0 <= row < |s.rows|
    ensures !r.ok ==> r.state == s
    ensures r.ok ==> r.state.rows == Without(s.rows, row)
    ensures r.ok && s.rows[row].userId != s.current ==> r.state.current == s.current
    ensures r.ok && s.rows[row].userId == s.current && |s.rows| == 1 ==> r.state.current == ""
    ensures r.ok && s.rows[row].userId == s.current && |s.rows| > 1 ==>
              r.state.current == (if r.state.rows[0].userId != "" then r.state.rows[0].userId
                                  else s.current)
  {
    var userId := UserIdAt(s, row);
    if accepted && 0 <= row < |s.rows| then
      var after := AccountState(Without(s.rows, row), s.current);
      if userId == s.current then
        if |after.rows| > 0 then Outcome(true, SelectStep(after, 0).state)
        else Outcome(true, AccountState(after.rows, ""))
      else
        Outcome(true, after)
    else
      Outcome(false, s)
  }

  /** Every account in the table has a user id. */
  predicate NonEmptyIds(rows: seq<Account>)
  {
    forall i :: 0 <= i < |rows| ==> rows[i].userId != ""
  }

  /** The current user is either nobody or the account of some row, so that
      some row shows the active flag. */
  ghost predicate Consistent(s: AccountState)
  {
    s.current == "" || exists i :: IsActive(s, i)
  }

  /** The invariant the three operations keep together. */
  ghost predicate Good(s: AccountState)
  {
    NonEmptyIds(s.rows) && Consistent(s)
  }

  /** A current user is never an account-less user id when the invariant holds. */
  lemma ActiveRowShowsCurrent(s: AccountState)
    requires Good(s) && s.current != ""
    ensures exists i :: Data(s, ModelIndex(i, 0), ActiveRole) == Flag(true)
  {
    var i :| IsActive(s, i);
    assert Data(s, ModelIndex(i, 0), ActiveRole) == Flag(true);
  }

  lemma SelectPreservesGood(s: AccountState, row: int)
    requires Good(s)
    ensures Good(SelectStep(s, row).state)
  {
    if SelectStep(s, row).ok {
      assert IsActive(SelectStep(s, row).state, row);
    }
  }

  lemma AddPreservesGood(s: AccountState, userId: string, username: string, accessToken: string,
                         refreshToken: string, scopes: string, accepted: bool)
    requires Good(s) && userId != ""
    ensures Good(AddStep(s, userId, username, accessToken, refreshToken, scopes, accepted).state)
  {
    var r := AddStep(s, userId, username, accessToken, refreshToken, scopes, accepted);
    if accepted {
      assert IsActive(r.state, |s.rows|);
    }
  }

  lemma RemovePreservesGood(s: AccountState, row: int, accepted: bool)
    requires Good(s)
    ensures Good(RemoveStep(s, row, accepted).state)
  {
    var r := RemoveStep(s, row, accepted);
    if r.ok {
      var rows' := r.state.rows;
      assert NonEmptyIds(rows');
      if s.rows[row].userId == s.current {
        if |rows'| > 0 {
          assert IsActive(r.state, 0);
        }
      } else if s.current != "" {
        var i :| IsActive(s, i);
        var j := if i < row then i else i - 1;
        assert IsActive(r.state, j);
      }
    }
  }

  /** Without the rule that accounts are added with a user id, removing the
      current account can leave the session on a user id no row holds: an
      account without a user id is added, then one with id "42", which becomes
      current. Removing it makes the first account row 0, and the fallback
      selection of row 0 is refused. */
  lemma RemoveCanLeaveStaleCurrent()
    ensures var s0 := AccountState([], "");
            var s1 := AddStep(s0, "", "a", "", "", "", true).state;
            var s2 := AddStep(s1, "42", "b", "", "", "", true).state;
            var r := RemoveStep(s2, 1, true);
            Consistent(s2) && r.ok && r.state.current == "42" && !Consistent(r.state)
  {
    var s1 := AddStep(AccountState([], ""), "", "a", "", "", "", true).state;
    var s2 := AddStep(s1, "42", "b", "", "", "", true).state;
    assert s2 == AccountState([Account("", "a", "", "", ""), Account("42", "b", "", "", "")], "42");
    assert IsActive(s2, 1);
    var r := RemoveStep(s2, 1, true);
    assert r.ok && r.state.current == "42";
    assert r.state.rows == [Account("", "a", "", "", "")];
    assert !IsActive(r.state, 0);
  }

  /** Selecting a row twice is the same as selecting it once. */
  lemma SelectIdempotent(s: AccountState, row: int)
    ensures SelectStep(SelectStep(s, row).state, row).state == SelectStep(s, row).state
  {
  }

  /** Removing an account just added leaves the table as it was; the new
      account is current, so row 0 is selected, or nobody when the table was empty. */
  lemma AddThenRemoveLast(s: AccountState, userId: string, username: string, accessToken: string,
                          refreshToken: string, scopes: string)
    ensures var added := AddStep(s, userId, username, accessToken, refreshToken, scopes, true).state;
            var r := RemoveStep(added, |s.rows|, true);
            r.ok && r.state.rows == s.rows &&
            r.state.current == (if s.rows == [] then ""
                                else if s.rows[0].userId != "" then s.rows[0].userId
                                else userId)
  {
    var a := Account(userId, username, accessToken, refreshToken, scopes);
    var added := AddStep(s, userId, username, accessToken, refreshToken, scopes, true).state;
    assert added.rows == s.rows + [a];
    assert Without(added.rows, |s.rows|) == s.rows;
  }

  /** A call to one of the three operations, with the database's answer where
      the operation writes to it. */
  datatype Command =
    | Add(userId: string, username: string, accessToken: string, refreshToken: string,
          scopes: string, accepted: bool)
    | Remove(row: int, accepted: bool)
    | Select(row: int)

  function Apply(s: AccountState, c: Command): Outcome
  {
    match c
    case Add(u, n, a, t, sc, ok) => AddStep(s, u, n, a, t, sc, ok)
    case Remove(row, ok) => RemoveStep(s, row, ok)
    case Select(row) => SelectStep(s, row)
  }

  /** The state after running the commands in order. */
  function Run(s: AccountState, cs: seq<Command>): AccountState
    decreases |cs|
  {
    if cs == [] then s else Run(Apply(s, cs[0]).state, cs[1..])
  }

  /** Commands that never add an account without a user id. */
  predicate AddsNamedAccounts(cs: seq<Command>)
  {
    forall i :: 0 <= i < |cs| && cs[i].Add? ==> cs[i].userId != ""
  }

  /** Any sequence of operations that only adds accounts with user ids keeps
      the current user pointing at an account of the table, or at nobody. */
  lemma {:induction false} RunPreservesGood(s: AccountState, cs: seq<Command>)
    requires Good(s) && AddsNamedAccounts(cs)
    ensures Good(Run(s, cs))
    decreases |cs|
  {
    if cs != [] {
      match cs[0] {
        case Add(u, n, a, t, sc, ok) => AddPreservesGood(s, u, n, a, t, sc, ok);
        case Remove(row, ok) => RemovePreservesGood(s, row, ok);
        case Select(row) => SelectPreservesGood(s, row);
      }
      assert AddsNamedAccounts(cs[1..]) by {
        forall i | 0 <= i < |cs[1..]| && cs[1..][i].Add? ensures cs[1..][i].userId != "" {
          assert cs[1..][i] == cs[i + 1];
        }
      }
      RunPreservesGood(Apply(s, cs[0]).state, cs[1..]);
    }
  }
}
