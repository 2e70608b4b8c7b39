/**
 * The admin settings panel: the user list built from the account listing and the
 * role rows, and the two per-user actions, flipping a role and deleting an account,
 * which refuse to act on the signed-in user. The notifications of this panel carry
 * only a title.
 */
module AdminSettings {
  import opened Common
  import opened Notices

  datatype Role = Admin | User

  /** A row of the `user_roles` table. */
  datatype RoleRow = RoleRow(user_id: string, role: Role)

  /** An account as the account listing returns it. */
  datatype AuthUser = AuthUser(id: string, email: Option<string>, created_at: string)

  /** The signed-in user. */
  datatype SessionUser = SessionUser(id: string, email: Option<string>, created_at: Option<string>)

  /** A line of the user table. */
  datatype UserWithRole = UserWithRole(id: string, email: string, role: Role, created_at: string)

  /** The answer of the role query: an error, or the rows (`null` when there are none to give). */
  datatype RolesAnswer = RolesFailed | RolesReturned(rows: Option<seq<RoleRow>>)

  /** The writes this panel makes to the store, in order. */
  datatype StoreWrite = UpdateRole(userId: string, role: Role) | InsertRole(userId: string, role: Role) | DeleteAccount(userId: string)

  function RoleName(role: Role): string {
    match role
    case Admin => "admin"
    case User => "user"
  }

  /** The role map the `reduce` builds: each row assigns its role to its user, in order. */
  function RoleMapOf(rows: seq<RoleRow>): map<string, Role>
    decreases |rows|
  {
    if rows == [] then map[]
    else RoleMapOf(rows[..|rows| - 1])[rows[|rows| - 1].user_id := rows[|rows| - 1].role]
  }

  /** A user has an entry in the role map exactly when some row names them. */
  lemma {:induction false} RoleMapDomain(rows: seq<RoleRow>, id: string)
    ensures id in RoleMapOf(rows) <==> exists i | 0 <= i < |rows| :: rows[i].user_id == id
    decreases |rows|
  {
    if rows != [] {
      var init := rows[..|rows| - 1];
      RoleMapDomain(init, id);
      assert forall i | 0 <= i < |init| :: init[i] == rows[i];
      if id in RoleMapOf(rows) && id != rows[|rows| - 1].user_id {
        var i :| 0 <= i < |init| && init[i].user_id == id;
        assert rows[i].user_id == id;
      }
    }
  }

  /** When several rows name the same user, the last of them decides the user's role. */
  lemma {:induction false} RoleMapLastWins(rows: seq<RoleRow>, k: nat)
    requires k < |rows|
    requires forall j | k < j < |rows| :: rows[j].user_id != rows[k].user_id
    ensures rows[k].user_id in RoleMapOf(rows) && RoleMapOf(rows)[rows[k].user_id] == rows[k].role
    decreases |rows|
  {
    if k < |rows| - 1 {
      var init := rows[..|rows| - 1];
      assert init[k] == rows[k];
      assert forall j | k < j < |init| :: init[j] == rows[j];
      RoleMapLastWins(init, k);
    }
  }

  /** The `reduce` over the role rows, one assignment into the accumulator per row. */
  method BuildRoleMap(rows: seq<RoleRow>) returns (m: map<string, Role>)
    ensures m == RoleMapOf(rows)
  {
    m := map[];
    var k := 0;
    while k < |rows|
      invariant 0 <= k <= |rows|
      invariant m == RoleMapOf(rows[..k])
    {
      assert rows[..k + 1][..k] == rows[..k];
      m := m[rows[k].user_id := rows[k].role];
      k := k + 1;
    }
    assert rows[..k] == rows;
  }

  /** `email || 'No email'`: a missing or empty address is shown as "No email". */
  function EmailShown(email: Option<string>): (shown: string)
    ensures email.Some? && email.value != "" ==> shown == email.value
    ensures email.None? || email.value == "" ==> shown == "No email"
    ensures shown != ""
  {
    if email.Some? && email.value != "" then email.value else "No email"
  }

  /** `userRolesMap[id] || 'user'`: the mapped role, and "user" for a user without a row. */
  function RoleOf(m: map<string, Role>, id: string): (role: Role)
    ensures id in m ==> role == m[id]
    ensures id !in m ==> role == User
  {
    if id in m then m[id] else User
  }

  /** One line of the table for a listed account. */
  function FormatUser(u: AuthUser, m: map<string, Role>): (r: UserWithRole)
    ensures r.id == u.id && r.created_at == u.created_at
    ensures r.email == EmailShown(u.email) && r.role == RoleOf(m, u.id)
  {
    UserWithRole(u.id, EmailShown(u.email), RoleOf(m, u.id), u.created_at)
  }

  /** The listed accounts, one line each, in the listing's order. */
  function FormatUsers(accounts: seq<AuthUser>, m: map<string, Role>): (r: seq<UserWithRole>)
    ensures |r| == |accounts|
    ensures forall i | 0 <= i < |accounts| :: r[i] == FormatUser(accounts[i], m)
  {
    seq(|accounts|, i requires 0 <= i < |accounts| => FormatUser(accounts[i], m))
  }

  /** A listed account named by no role row is shown as a plain user. */
  lemma {:induction false} UnassignedIsUser(accounts: seq<AuthUser>, rows: seq<RoleRow>, i: nat)
    requires i < |accounts|
    requires forall j | 0 <= j < |rows| :: rows[j].user_id != accounts[i].id
    ensures FormatUsers(accounts, RoleMapOf(rows))[i].role == User
  {
    RoleMapDomain(rows, accounts[i].id);
  }

  /** When a listed account is named by role rows, the last of those rows gives its role. */
  lemma {:induction false} LastRoleRowDecides(accounts: seq<AuthUser>, rows: seq<RoleRow>, i: nat, k: nat)
    requires i < |accounts| && k < |rows| && rows[k].user_id == accounts[i].id
    requires forall j | k < j < |rows| :: rows[j].user_id != accounts[i].id
    ensures FormatUsers(accounts, RoleMapOf(rows))[i].role == rows[k].role
  {
    RoleMapLastWins(rows, k);
  }

  /** Whether `fetchUsers` reaches `setUsers(formattedUsers)`: both queries answer, and the role rows are there unless nobody is listed (looking into a missing map throws). */
  predicate FetchSucceeds(listing: Option<seq<AuthUser>>, roles: RolesAnswer) {
    listing.Some? && roles.RolesReturned? && (roles.rows.Some? || listing.value == [])
  }

  function RowsOf(roles: RolesAnswer): seq<RoleRow> {
    if roles.RolesReturned? && roles.rows.Some? then roles.rows.value else []
  }

  /** The line shown for the signed-in user when the listing fails, with the role found for them or "user". */
  function FallbackUser(user: SessionUser, ownRole: Option<Role>, now: string): (r: UserWithRole)
    ensures r.id == user.id && r.email == EmailShown(user.email)
    ensures r.role == (if ownRole.Some? then ownRole.value else User)
    ensures user.created_at.Some? && user.created_at.value != "" ==> r.created_at == user.created_at.value
    ensures user.created_at.None? || user.created_at.value == "" ==> r.created_at == now
  {
    UserWithRole(user.id, EmailShown(user.email), if ownRole.Some? then ownRole.value else User,
                 if user.created_at.Some? && user.created_at.value != "" then user.created_at.value else now)
  }

  /** The opposite role: `currentRole === 'admin' ? 'user' : 'admin'`. */
  function Flip(role: Role): (r: Role)
    ensures r != role
  {
    if role == Admin then User else Admin
  }

  /** The role write: an update when the user already has a role row, an insert otherwise. */
  function RoleWriteFor(userId: string, role: Role, rowExists: bool): (w: StoreWrite)
    ensures rowExists ==> w == UpdateRole(userId, role)
    ensures !rowExists ==> w == InsertRole(userId, role)
  {
    if rowExists then UpdateRole(userId, role) else InsertRole(userId, role)
  }

  /** The local update after a role write: every line of the user gets the new role, and nothing else changes. */
  function SetRole(users: seq<UserWithRole>, id: string, role: Role): (r: seq<UserWithRole>)
    ensures |r| == |users|
    ensures forall i | 0 <= i < |users| ::
      r[i].id == users[i].id && r[i].email == users[i].email && r[i].created_at == users[i].created_at
    ensures forall i | 0 <= i < |users| :: r[i].role == (if users[i].id == id then role else users[i].role)
    decreases |users|
  {
    if users == [] then []
    else
      var rest := SetRole(users[1..], id, role);
      [if users[0].id == id then users[0].(role := role) else users[0]] + rest
  }

  /** The local update after a deletion: the user's lines go, the others stay in order. */
  function RemoveUser(users: seq<UserWithRole>, id: string): (r: seq<UserWithRole>)
    ensures forall u :: u in r <==> u in users && u.id != id
    ensures forall u: UserWithRole :: u.id != id ==> multiset(r)[u] == multiset(users)[u]
    ensures IsSubsequence(r, users)
  {
    FilterIsSubsequence(users, (u: UserWithRole) => u.id != id);
    Filter(users, (u: UserWithRole) => u.id != id)
  }

  /** Flipping a user's role and flipping it back gives the list it started from. */
  lemma ToggleBack(users: seq<UserWithRole>, id: string, role: Role)
    requires forall i | 0 <= i < |users| :: users[i].id == id ==> users[i].role == role
    ensures SetRole(SetRole(users, id, Flip(role)), id, role) == users
  {
    var r := SetRole(SetRole(users, id, Flip(role)), id, role);
    assert forall i | 0 <= i < |users| :: r[i] == users[i];
  }

  /** Deleting a user nobody in the list is leaves the list as it was. */
  lemma RemoveAbsentUser(users: seq<UserWithRole>, id: string)
    requires forall i | 0 <= i < |users| :: users[i].id != id
    ensures RemoveUser(users, id) == users
  {
    FilterAll(users, (u: UserWithRole) => u.id != id);
  }

  const LoadFailedToast := ErrorToast("Failed to load users", "")
  const OwnRoleToast := ErrorToast("You cannot change your own role", "")
  const RoleFailedToast := ErrorToast("Failed to update user role", "")
  const OwnAccountToast := ErrorToast("You cannot delete your own account", "")
  const DeletedToast := InfoToast("User deleted successfully", "")
  const DeleteFailedToast := ErrorToast("Failed to delete user", "")

  function RoleUpdatedToast(role: Role): Toast {
    InfoToast("User role updated to " + RoleName(role), "")
  }

  class AdminPanel {
    /** The signed-in user, `user` of the auth context. */
    const currentUser: Option<SessionUser>
    var users: seq<UserWithRole>
    var loading: bool
    var processingUser: Option<string>
    var toasts: seq<Toast>
    var writes: seq<StoreWrite>

    constructor (currentUser: Option<SessionUser>)
      ensures this.currentUser == currentUser
      ensures users == [] && loading && processingUser.None? && toasts == [] && writes == []
    {
      this.currentUser := currentUser;
      users := [];
      loading := true;
      processingUser := None;
      toasts := [];
      writes := [];
    }

    /** `userId === user?.id`: with nobody signed in, no id is the user's own. */
    predicate IsSelf(userId: string) {
      currentUser.Some? && currentUser.value.id == userId
    }

    /**
     * `fetchUsers`, with the account listing (`None` for an error), the role query's
     * answer, the signed-in user's own role row and the clock as parameters. On
     * failure only the signed-in user is shown, or the list is kept when nobody is
     * signed in.
     */
    method FetchUsers(listing: Option<seq<AuthUser>>, roles: RolesAnswer, ownRole: Option<Role>, now: string)
      modifies this
      ensures !loading
      ensures FetchSucceeds(listing, roles) ==>
        users == FormatUsers(listing.value, RoleMapOf(RowsOf(roles))) && toasts == old(toasts)
      ensures !FetchSucceeds(listing, roles) ==>
        && toasts == old(toasts) + [LoadFailedToast]
        && users == (if currentUser.Some? then [FallbackUser(currentUser.value, ownRole, now)] else old(users))
      ensures processingUser == old(processingUser) && writes == old(writes)
    {
      loading := true;
      if FetchSucceeds(listing, roles) {
        var m := BuildRoleMap(RowsOf(roles));
        users := FormatUsers(listing.value, m);
      } else {
        toasts := toasts + [LoadFailedToast];
        if currentUser.Some? {
          users := [FallbackUser(currentUser.value, ownRole, now)];
        }
      }
      loading := false;
    }

    /**
     * `toggleUserRole(userId, currentRole)`, with whether the user has a role row and
     * whether the write fails as parameters. The signed-in user's own role is never
     * changed; otherwise the opposite role is written and, when the write succeeds,
     * set on the user's lines.
     */
    method ToggleUserRole(userId: string, currentRole: Role, rowExists: bool, writeFails: bool)
      modifies this
      ensures IsSelf(userId) ==>
        && toasts == old(toasts) + [OwnRoleToast]
        && users == old(users) && processingUser == old(processingUser) && writes == old(writes)
      ensures !IsSelf(userId) ==>
        && writes == old(writes) + [RoleWriteFor(userId, Flip(currentRole), rowExists)]
        && processingUser.None?
        && users == (if writeFails then old(users) else SetRole(old(users), userId, Flip(currentRole)))
        && toasts == old(toasts) + [if writeFails then RoleFailedToast else RoleUpdatedToast(Flip(currentRole))]
      ensures loading == old(loading)
    {
      if IsSelf(userId) {
        toasts := toasts + [OwnRoleToast];
        return;
      }
      processingUser := Some(userId);
      var newRole := Flip(currentRole);
      writes := writes + [RoleWriteFor(userId, newRole, rowExists)];
      if writeFails {
        toasts := toasts + [RoleFailedToast];
      } else {
        users := SetRole(users, userId, newRole);
        toasts := toasts + [RoleUpdatedToast(newRole)];
      }
      processingUser := None;
    }

    /**
     * `deleteUser(userId)`, with whether the deletion fails as a parameter. The
     * signed-in user's own account is never deleted; otherwise, when the deletion
     * succeeds, the user's lines leave the list.
     */
    method DeleteUser(userId: string, deleteFails: bool)
      modifies this
      ensures IsSelf(userId) ==>
        && toasts == old(toasts) + [OwnAccountToast]
        && users == old(users) && processingUser == old(processingUser) && writes == old(writes)
      ensures !IsSelf(userId) ==>
        && writes == old(writes) + [DeleteAccount(userId)]
        && processingUser.None?
        && users == (if deleteFails then old(users) else RemoveUser(old(users), userId))
        && toasts == old(toasts) + [if deleteFails then DeleteFailedToast else DeletedToast]
      ensures loading == old(loading)
    {
      if IsSelf(userId) {
        toasts := toasts + [OwnAccountToast];
        return;
      }
      processingUser := Some(userId);
      writes := writes + [DeleteAccount(userId)];
      if deleteFails {
        toasts := toasts + [DeleteFailedToast];
      } else {
        users := RemoveUser(users, userId);
        toasts := toasts + [DeletedToast];
      }
      processingUser := None;
    }
  }
}
