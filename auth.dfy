/**
 * Session helpers over the browser's key-value store (lib/auth.ts): the stored
 * user under "user", the tokens under "accessToken" and "refreshToken".
 */
module Auth {
  import opened Wrappers
  import JsonText

  const AccessTokenKey := "accessToken"
  const RefreshTokenKey := "refreshToken"
  const UserKey := "user"

  /** The stored user record; a member missing from the stored object reads as `None`. */
  datatype User = User(
    email: Option<string>,
    role: Option<string>,
    matricNumber: Option<string>,
    firstName: Option<string>,
    lastName: Option<string>)

  /** The body a successful sign-in or registration returns. */
  datatype Session = Session(accessToken: string, refreshToken: string, user: User)

  /** What `getStoredUser` yields: `null`, a user, or an exception from `JSON.parse`. */
  datatype StoredUser = NoUser | Found(user: User) | Unreadable

  function OptMember(key: string, v: Option<string>): JsonText.Members {
    if v.Some? then [(key, v.value)] else []
  }

  /** The members `JSON.stringify` writes for a user (absent fields are omitted). */
  function UserMembers(u: User): JsonText.Members {
    OptMember("email", u.email) + OptMember("role", u.role) + OptMember("matricNumber", u.matricNumber)
    + OptMember("firstName", u.firstName) + OptMember("lastName", u.lastName)
  }

  /** The value `JSON.parse` gives for `key`: the last member with that key wins. */
  function LastValue(ms: JsonText.Members, key: string): Option<string> {
    if ms == [] then None
    else
      var later := LastValue(ms[1..], key);
      if later.Some? then later else if ms[0].0 == key then Some(ms[0].1) else None
  }

  function MembersUser(ms: JsonText.Members): User {
    User(LastValue(ms, "email"), LastValue(ms, "role"), LastValue(ms, "matricNumber"),
         LastValue(ms, "firstName"), LastValue(ms, "lastName"))
  }

  /** `JSON.stringify(user)`. */
  function UserText(u: User): string {
    JsonText.Serialize(UserMembers(u))
  }

  lemma {:induction false} LastValueAppend(a: JsonText.Members, b: JsonText.Members, key: string)
    ensures LastValue(a + b, key) == if LastValue(b, key).Some? then LastValue(b, key) else LastValue(a, key)
  {
    if a != [] {
      assert (a + b)[1..] == a[1..] + b;
      LastValueAppend(a[1..], b, key);
    } else {
      assert a + b == b;
    }
  }

  lemma LastValueOpt(key: string, v: Option<string>, k: string)
    ensures LastValue(OptMember(key, v), k) == if k == key then v else None
  {
    if v.Some? {
      assert OptMember(key, v)[1..] == [];
    }
  }

  /** The value `JSON.parse` finds under `k` in the members written for `u`. */
  lemma UserMembersValue(u: User, k: string)
    ensures LastValue(UserMembers(u), k) ==
      if k == "email" then u.email
      else if k == "role" then u.role
      else if k == "matricNumber" then u.matricNumber
      else if k == "firstName" then u.firstName
      else if k == "lastName" then u.lastName
      else None
  {
    var a := OptMember("email", u.email);
    var b := OptMember("role", u.role);
    var c := OptMember("matricNumber", u.matricNumber);
    var d := OptMember("firstName", u.firstName);
    var e := OptMember("lastName", u.lastName);
    LastValueAppend(a + b + c + d, e, k);
    LastValueAppend(a + b + c, d, k);
    LastValueAppend(a + b, c, k);
    LastValueAppend(a, b, k);
    LastValueOpt("email", u.email, k);
    LastValueOpt("role", u.role, k);
    LastValueOpt("matricNumber", u.matricNumber, k);
    LastValueOpt("firstName", u.firstName, k);
    LastValueOpt("lastName", u.lastName, k);
  }

  /** Writing a user as text and reading the text back gives the same user. */
  lemma UserTextRoundTrip(u: User)
    ensures JsonText.Parse(UserText(u)).Some?
    ensures MembersUser(JsonText.Parse(UserText(u)).value) == u
  {
    JsonText.ParseSerialize(UserMembers(u));
    UserMembersValue(u, "email");
    UserMembersValue(u, "role");
    UserMembersValue(u, "matricNumber");
    UserMembersValue(u, "firstName");
    UserMembersValue(u, "lastName");
  }

  /** `getStoredUser()` over a snapshot of the store; without a window there is no store to read. */
  function StoredUserIn(entries: map<string, string>, windowPresent: bool): StoredUser {
    if !windowPresent then NoUser
    else if UserKey !in entries || entries[UserKey] == "" then NoUser
    else match JsonText.Parse(entries[UserKey])
      case None => Unreadable
      case Some(ms) => Found(MembersUser(ms))
  }

  /** `isAuthenticated()`: a non-empty access token is stored. */
  predicate AuthenticatedIn(entries: map<string, string>) {
    AccessTokenKey in entries && entries[AccessTokenKey] != ""
  }

  /** `hasRole(allowed)`; `None` where reading the stored user throws. */
  function HasRoleIn(entries: map<string, string>, windowPresent: bool, allowed: seq<string>): Option<bool> {
    match StoredUserIn(entries, windowPresent)
    case NoUser => Some(false)
    case Unreadable => None
    case Found(u) => Some(u.role.Some? && u.role.value in allowed)
  }

  /** The store after `clearAuth()`. */
  function Cleared(entries: map<string, string>): map<string, string> {
    entries - {AccessTokenKey, RefreshTokenKey, UserKey}
  }

  /** `setStoredUser(u)` followed by `getStoredUser()` returns `u`. */
  lemma SetThenGetStoredUser(entries: map<string, string>, u: User)
    ensures StoredUserIn(entries[UserKey := UserText(u)], true) == Found(u)
  {
    UserTextRoundTrip(u);
  }

  /** `clearAuth()` removes exactly the two tokens and the user, so the session is over. */
  lemma ClearAuthEffect(entries: map<string, string>, windowPresent: bool)
    ensures Cleared(entries).Keys == entries.Keys - {"accessToken", "refreshToken", "user"}
    ensures forall k :: k in Cleared(entries) ==> Cleared(entries)[k] == entries[k]
    ensures !AuthenticatedIn(Cleared(entries))
    ensures StoredUserIn(Cleared(entries), windowPresent) == NoUser
  {
  }

  /** `hasRole` is true only for a stored user whose role is listed; an empty list never matches. */
  lemma HasRoleSpec(entries: map<string, string>, windowPresent: bool, allowed: seq<string>)
    ensures HasRoleIn(entries, windowPresent, allowed) == Some(true) <==>
      (StoredUserIn(entries, windowPresent).Found? && StoredUserIn(entries, windowPresent).user.role.Some?
       && StoredUserIn(entries, windowPresent).user.role.value in allowed)
    ensures StoredUserIn(entries, windowPresent).NoUser? ==> HasRoleIn(entries, windowPresent, allowed) == Some(false)
    ensures allowed == [] ==> HasRoleIn(entries, windowPresent, allowed) != Some(true)
  {
  }

  /** The browser's key-value store, with the helpers of lib/auth.ts as its operations. */
  class Storage {
    var entries: map<string, string>
    var windowPresent: bool

    constructor (initial: map<string, string>, windowPresent: bool)
      ensures entries == initial && this.windowPresent == windowPresent
    {
      entries := initial;
      this.windowPresent := windowPresent;
    }

    function GetStoredUser(): StoredUser
      reads this
    {
      StoredUserIn(entries, windowPresent)
    }

    predicate IsAuthenticated()
      reads this
    {
      AuthenticatedIn(entries)
    }

    function HasRole(allowed: seq<string>): Option<bool>
      reads this
    {
      HasRoleIn(entries, windowPresent, allowed)
    }

    /** `localStorage.setItem(key, value)`. */
    method SetItem(key: string, value: string)
      modifies this
      ensures entries == old(entries)[key := value]
      ensures windowPresent == old(windowPresent)
    {
      entries := entries[key := value];
    }

    /** `localStorage.removeItem(key)`. */
    method RemoveItem(key: string)
      modifies this
      ensures entries == old(entries) - {key}
      ensures windowPresent == old(windowPresent)
    {
      entries := entries - {key};
    }

    /** `setStoredUser(u)`: the user's JSON text under "user"; a later read returns `u`. */
    method SetStoredUser(u: User)
      modifies this
      ensures entries == old(entries)[UserKey := UserText(u)]
      ensures windowPresent == old(windowPresent)
      ensures windowPresent ==> GetStoredUser() == Found(u)
    {
      entries := entries[UserKey := UserText(u)];
      SetThenGetStoredUser(old(entries), u);
    }

    /** What every sign-in flow writes: both tokens, then the user; the session then reads back. */
    method StoreSession(access: string, refresh: string, u: User)
      modifies this
      ensures entries == old(entries)[AccessTokenKey := access][RefreshTokenKey := refresh][UserKey := UserText(u)]
      ensures windowPresent == old(windowPresent)
      ensures access != "" <==> IsAuthenticated()
      ensures windowPresent ==> GetStoredUser() == Found(u)
    {
      SetItem(AccessTokenKey, access);
      SetItem(RefreshTokenKey, refresh);
      SetStoredUser(u);
    }

    /** `clearAuth()`: both tokens and the user are gone, nothing else changes. */
    method ClearAuth()
      modifies this
      ensures entries == Cleared(old(entries))
      ensures windowPresent == old(windowPresent)
      ensures !IsAuthenticated() && GetStoredUser() == NoUser
    {
      entries := entries - {AccessTokenKey};
      entries := entries - {RefreshTokenKey};
      entries := entries - {UserKey};
    }
  }
}
