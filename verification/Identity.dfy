/** Identity resolution of the model base class: how setIdentity turns what
    it is given into a role, and how getIdentity answers from the cached role
    or from the authentication service. */
module Identity {
  import opened Values

  /** What the authentication service reports: whether a user is logged in
      and, if so, the identity it stored for them. */
  datatype Auth = Auth(hasIdentity: bool, identity: Value)

  /** What getIdentity hands out: the bare role name "Guest" when nobody is
      known, or a role. */
  datatype Caller = GuestName | Resolved(role: Role)

  /** The role setIdentity stores for a value, or the exception it throws. */
  function ToRole(v: Value): (r: Result<Role>)
    ensures r.Err? <==> v.Bool? || v.Object?
    ensures r.Err? ==> r.error == InvalidIdentity
  {
    match v
    case Arr(entries) =>
      // isset($identity['role']) is false both for a missing key and for a null value
      if "role" !in entries || entries["role"].Null? then Ok(Role(GuestId))
      else Ok(Role(entries["role"]))
    case Null => Ok(Role(GuestId))
    case RoleObject(role) => Ok(role)
    case _ =>
      if v.IsScalar() && !v.Bool? then Ok(Role(v)) else Err(InvalidIdentity)
  }

  /** An array without a usable "role" entry gives a Guest role; with one, a
      role named by that entry. */
  lemma ToRoleArray(entries: map<string, Value>)
    ensures "role" in entries && !entries["role"].Null? ==> ToRole(Arr(entries)) == Ok(Role(entries["role"]))
    ensures "role" !in entries || entries["role"].Null? ==> ToRole(Arr(entries)) == Ok(Role(GuestId))
  {
  }

  /** A scalar that is not a boolean names the role; null gives Guest; a role
      object passes through unchanged. */
  lemma ToRoleScalarNullRole(v: Value)
    ensures v.IsScalar() && !v.Bool? ==> ToRole(v) == Ok(Role(v))
    ensures v.Null? ==> ToRole(v) == Ok(Role(GuestId))
    ensures v.RoleObject? ==> ToRole(v) == Ok(v.role)
  {
  }

  /** The outcome of getIdentity: what it returns and what is cached after. */
  datatype Resolution = Resolution(caller: Caller, cached: Option<Role>)

  /** getIdentity: the cached role if there is one; otherwise "Guest" without
      caching when nobody is logged in; otherwise what setIdentity makes of
      the logged-in identity, cached. */
  function Resolve(cached: Option<Role>, auth: Auth): (r: Result<Resolution>)
    ensures r.Ok? ==> (r.value.caller.GuestName? <==> r.value.cached.None?)
    ensures r.Err? <==> cached.None? && auth.hasIdentity && ToRole(auth.identity).Err?
  {
    if cached.Some? then Ok(Resolution(Resolved(cached.value), cached))
    else if !auth.hasIdentity then Ok(Resolution(GuestName, None))
    else
      match ToRole(auth.identity)
      case Err(e) => Err(e)
      case Ok(role) => Ok(Resolution(Resolved(role), Some(role)))
  }

  /** Once a role is cached, getIdentity returns it without looking at the
      authentication service, and keeps it. */
  lemma ResolveCached(role: Role, auth: Auth)
    ensures Resolve(Some(role), auth) == Ok(Resolution(Resolved(role), Some(role)))
  {
  }

  /** Nobody cached and nobody logged in: the answer is "Guest" and nothing is
      cached, so a later call sees whoever has logged in by then. */
  lemma ResolveGuestNotCached(auth: Auth, later: Auth)
    requires !auth.hasIdentity
    ensures Resolve(None, auth) == Ok(Resolution(GuestName, None))
    ensures Resolve(Resolve(None, auth).value.cached, later) == Resolve(None, later)
  {
  }

  /** A logged-in identity is resolved exactly as setIdentity would store it,
      and an identity setIdentity rejects makes getIdentity fail the same way. */
  lemma ResolveAgreesWithSetIdentity(auth: Auth)
    requires auth.hasIdentity
    ensures ToRole(auth.identity).Ok? ==>
      Resolve(None, auth) == Ok(Resolution(Resolved(ToRole(auth.identity).value), Some(ToRole(auth.identity).value)))
    ensures ToRole(auth.identity).Err? ==> Resolve(None, auth) == Err(InvalidIdentity)
  {
  }

  /** Idempotence: after a call that resolved a role, every later call,
      whatever the authentication service then says, returns the same role
      and leaves the cache as it is. */
  lemma ResolveStable(cached: Option<Role>, auth: Auth, later: Auth)
    requires Resolve(cached, auth).Ok? && Resolve(cached, auth).value.caller.Resolved?
    ensures var first := Resolve(cached, auth).value;
      Resolve(first.cached, later) == Ok(first)
  {
  }
}
