/** `UserService`: registration, deletion, role and lock changes over the
    user table. Usernames are compared case-insensitively, so the table is
    a map keyed by the upper-cased username. Password hashing is the
    parameter `encode`. */
module Users {
  import opened Base
  import opened Text

  datatype Role = Administrator | Merchant | Support

  datatype User = User(id: nat, name: string, username: string, password: string, role: Role, locked: bool)

  /** The user table and the next identity value the database hands out. */
  datatype Store = Store(users: map<string, User>, nextId: nat)

  const Empty := Store(map[], 1)

  /** The empty table satisfies both invariants, so the preservation
      lemmas below start from a reachable state. */
  lemma EmptyValid()
    ensures Valid(Empty) && AtMostOneAdmin(Empty)
  {
  }

  /** The key under which a username is looked up, ignoring case. */
  function Key(username: string): string {
    Upper(username)
  }

  /** Every user is stored under its own key and has an issued id. */
  ghost predicate Valid(st: Store) {
    forall k :: k in st.users ==> Key(st.users[k].username) == k && st.users[k].id < st.nextId
  }

  /** At most one account is an administrator. */
  ghost predicate AtMostOneAdmin(st: Store) {
    forall k, k' ::
      (k in st.users && k' in st.users
       && st.users[k].role == Administrator && st.users[k'].role == Administrator) ==> k == k'
  }

  /** `findByUsernameIgnoreCase`. */
  function Find(st: Store, username: string): (r: Option<User>)
    ensures r.Some? ==> r.value in st.users.Values
    ensures Valid(st) ==> (r.Some? <==> exists u :: u in st.users.Values && EqualsIgnoreCase(u.username, username))
    ensures Valid(st) && r.Some? ==> EqualsIgnoreCase(r.value.username, username)
  {
    if Key(username) in st.users then Some(st.users[Key(username)]) else None
  }

  /** `registerUser`: refused when the name is taken in any letter case;
      the very first account is an unlocked administrator and every later
      one a locked merchant. */
  function RegisterUser(st: Store, name: string, username: string, password: string,
                        encode: string -> string): (r: Step<Store, User>)
    ensures r.out.Ok? <==> Find(st, username).None?
    ensures r.out.Err? ==> r == Step(st, Err(Conflict))
    ensures r.out.Ok? ==>
      var u := r.out.value;
      && u.id == st.nextId && u.name == name && u.username == username
      && u.password == encode(password)
      && r.next.users == st.users[Key(username) := u]
      && Find(r.next, username) == Some(u)
    ensures r.out.Ok? && |st.users| == 0 ==> r.out.value.role == Administrator && !r.out.value.locked
    ensures r.out.Ok? && |st.users| > 0 ==> r.out.value.role == Merchant && r.out.value.locked
  {
    if Find(st, username).Some? then Step(st, Err(Conflict))
    else
      var first := |st.users| == 0;
      var u := User(st.nextId, name, username, encode(password),
                    if first then Administrator else Merchant, !first);
      Step(Store(st.users[Key(username) := u], st.nextId + 1), Ok(u))
  }

  /** `deleteUser`: removes exactly the matching account. */
  function DeleteUser(st: Store, username: string): (r: Step<Store, ()>)
    ensures r.out.Ok? <==> Find(st, username).Some?
    ensures r.out.Err? ==> r == Step(st, Err(NotFound))
    ensures r.out.Ok? ==> Find(r.next, username).None? && r.next.nextId == st.nextId
    ensures r.out.Ok? ==> |r.next.users| == |st.users| - 1
    ensures forall k :: k in st.users && k != Key(username) ==> k in r.next.users && r.next.users[k] == st.users[k]
    ensures forall k :: k in r.next.users ==> k in st.users
  {
    if Find(st, username).None? then Step(st, Err(NotFound))
    else Step(Store(st.users - {Key(username)}, st.nextId), Ok(()))
  }

  /** The roles a role change may assign, matched ignoring case; the
      administrator role can never be assigned. */
  function AssignableRole(requested: string): (r: Option<Role>)
    ensures r.Some? ==> r.value != Administrator
    ensures r == Some(Merchant) <==> EqualsIgnoreCase("MERCHANT", requested)
    ensures r == Some(Support) <==> EqualsIgnoreCase("SUPPORT", requested)
  {
    if EqualsIgnoreCase("MERCHANT", requested) then Some(Merchant)
    else if EqualsIgnoreCase("SUPPORT", requested) then Some(Support)
    else None
  }

  /** `changeUserRole`: not found, then an unassignable role, then the role
      the user already has; otherwise only that user's role changes. */
  function ChangeUserRole(st: Store, username: string, requested: string): (r: Step<Store, User>)
    ensures Find(st, username).None? ==> r == Step(st, Err(NotFound))
    ensures Find(st, username).Some? && AssignableRole(requested).None? ==> r == Step(st, Err(BadRequest))
    ensures (Find(st, username).Some? && AssignableRole(requested).Some?
             && Find(st, username).value.role == AssignableRole(requested).value)
         ==> r == Step(st, Err(Conflict))
    ensures r.out.Ok? <==>
      Find(st, username).Some? && AssignableRole(requested).Some?
      && Find(st, username).value.role != AssignableRole(requested).value
    ensures r.out.Err? ==> r.next == st
    ensures r.out.Ok? ==>
      var current := Find(st, username).value;
      && Some(r.out.value.role) == AssignableRole(requested)
      && r.out.value.role != current.role
      && r.out.value == current.(role := r.out.value.role)
      && r.next == Store(st.users[Key(username) := r.out.value], st.nextId)
  {
    match Find(st, username)
    case None => Step(st, Err(NotFound))
    case Some(u) =>
      match AssignableRole(requested)
      case None => Step(st, Err(BadRequest))
      case Some(role) =>
        if u.role == role then Step(st, Err(Conflict))
        else
          var u' := u.(role := role);
          Step(Store(st.users[Key(username) := u'], st.nextId), Ok(u'))
  }

  /** `changeUserAccess`: not found, then the administrator refusal, then
      an unknown operation; otherwise only the lock flag changes. */
  function ChangeUserAccess(st: Store, username: string, operation: string): (r: Step<Store, string>)
    ensures Find(st, username).None? ==> r == Step(st, Err(NotFound))
    ensures (Find(st, username).Some? && Find(st, username).value.role == Administrator)
         ==> r == Step(st, Err(BadRequest))
    ensures r.out.Ok? <==>
      Find(st, username).Some? && Find(st, username).value.role != Administrator
      && (EqualsIgnoreCase("LOCK", operation) || EqualsIgnoreCase("UNLOCK", operation))
    ensures r.out.Err? ==> r.next == st
    ensures r.out.Ok? ==>
      var u := Find(st, username).value;
      && u.role != Administrator
      && (EqualsIgnoreCase("LOCK", operation) || EqualsIgnoreCase("UNLOCK", operation))
      && r.next == Store(st.users[Key(username) := u.(locked := EqualsIgnoreCase("LOCK", operation))], st.nextId)
      && r.out.value == "User " + u.username + (if EqualsIgnoreCase("LOCK", operation) then " locked!" else " unlocked!")
    ensures (Find(st, username).Some? && Find(st, username).value.role != Administrator
             && !EqualsIgnoreCase("LOCK", operation) && !EqualsIgnoreCase("UNLOCK", operation))
         ==> r == Step(st, Err(BadRequest))
  {
    match Find(st, username)
    case None => Step(st, Err(NotFound))
    case Some(u) =>
      if u.role == Administrator then Step(st, Err(BadRequest))
      else if EqualsIgnoreCase("LOCK", operation) || EqualsIgnoreCase("UNLOCK", operation) then
        var lock := EqualsIgnoreCase("LOCK", operation);
        Step(Store(st.users[Key(username) := u.(locked := lock)], st.nextId),
             Ok("User " + u.username + (if lock then " locked!" else " unlocked!")))
      else Step(st, Err(BadRequest))
  }

  /** Every operation keeps the table well keyed and leaves at most one
      administrator. */
  lemma RegisterPreservesInvariants(st: Store, name: string, username: string, password: string,
                                    encode: string -> string)
    requires Valid(st) && AtMostOneAdmin(st)
    ensures Valid(RegisterUser(st, name, username, password, encode).next)
    ensures AtMostOneAdmin(RegisterUser(st, name, username, password, encode).next)
  {
  }

  lemma DeletePreservesInvariants(st: Store, username: string)
    requires Valid(st) && AtMostOneAdmin(st)
    ensures Valid(DeleteUser(st, username).next) && AtMostOneAdmin(DeleteUser(st, username).next)
  {
  }

  lemma ChangeRolePreservesInvariants(st: Store, username: string, requested: string)
    requires Valid(st) && AtMostOneAdmin(st)
    ensures Valid(ChangeUserRole(st, username, requested).next)
    ensures AtMostOneAdmin(ChangeUserRole(st, username, requested).next)
  {
  }

  lemma ChangeAccessPreservesInvariants(st: Store, username: string, operation: string)
    requires Valid(st) && AtMostOneAdmin(st)
    ensures Valid(ChangeUserAccess(st, username, operation).next)
    ensures AtMostOneAdmin(ChangeUserAccess(st, username, operation).next)
  {
  }

  /** A name registered once cannot be registered again in another case. */
  lemma RegisterIgnoresCase(st: Store, name: string, username: string, other: string,
                            password: string, encode: string -> string)
    requires EqualsIgnoreCase(username, other)
    requires RegisterUser(st, name, username, password, encode).out.Ok?
    ensures RegisterUser(RegisterUser(st, name, username, password, encode).next,
                         name, other, password, encode).out == Err(Conflict)
  {
  }
}
