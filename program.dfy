/** The request gate, the token-validation flag and the admin seeding run at
    start-up. Token validation itself is library code: the model sees only
    the event it raises. User creation inside the identity store is likewise
    an outcome passed in. */
module Startup {

  // ---------------------------------------------------------------------
  // Request gate

  /** Paths served without the logged-in check. */
  const BypassPaths: seq<string> := ["/api/users/login", "/api/users/register", "/swagger"]

  const NotLoggedInBody: string := "User is not logged in."

  /** Upper-case mapping of the ASCII letters. */
  function UpperAscii(c: char): char {
    if 'a' <= c <= 'z' then (c as int - 32) as char else c
  }

  /** Ordinal comparison of two characters, ignoring case. */
  predicate SameIgnoringCase(a: char, b: char) {
    UpperAscii(a) == UpperAscii(b)
  }

  /** `path` begins with `prefix`, comparing ordinally and ignoring case. */
  predicate StartsWithIgnoringCase(path: string, prefix: string) {
    |prefix| <= |path| && forall i :: 0 <= i < |prefix| ==> SameIgnoringCase(path[i], prefix[i])
  }

  /** `PathString.StartsWithSegments` with `OrdinalIgnoreCase`: `path` begins
      with `other`, and the match ends at the end of `path` or at a '/'. */
  predicate StartsWithSegments(path: string, other: string): (r: bool)
    ensures r <==> |other| <= |path| && UpperPath(path[..|other|]) == UpperPath(other) &&
                   (|path| == |other| || path[|other|] == '/')
  {
    PrefixIgnoringCase(path, other);
    StartsWithIgnoringCase(path, other) && (|path| == |other| || path[|other|] == '/')
  }

  /** Comparing character by character ignoring case is comparing the
      upper-cased strings. */
  lemma PrefixIgnoringCase(path: string, other: string)
    ensures StartsWithIgnoringCase(path, other) <==>
            |other| <= |path| && UpperPath(path[..|other|]) == UpperPath(other)
  {
    if |other| <= |path| {
      var a, b := UpperPath(path[..|other|]), UpperPath(other);
      if StartsWithIgnoringCase(path, other) {
        assert forall i :: 0 <= i < |other| ==> a[i] == b[i];
      }
      if a == b {
        forall i | 0 <= i < |other|
          ensures SameIgnoringCase(path[i], other[i])
        {
          assert a[i] == UpperAscii(path[i]) && b[i] == UpperAscii(other[i]);
        }
      }
    }
  }

  /** Some bypass path is a segment prefix of `path`. */
  predicate IsBypass(path: string): (r: bool)
    ensures r <==> StartsWithSegments(path, "/api/users/login") ||
                   StartsWithSegments(path, "/api/users/register") ||
                   StartsWithSegments(path, "/swagger")
  {
    assert BypassPaths[0] == "/api/users/login" && BypassPaths[1] == "/api/users/register" &&
           BypassPaths[2] == "/swagger";
    assert (StartsWithSegments(path, BypassPaths[0]) || StartsWithSegments(path, BypassPaths[1]) ||
            StartsWithSegments(path, BypassPaths[2])) ==>
           exists i :: 0 <= i < |BypassPaths| && StartsWithSegments(path, BypassPaths[i]);
    exists i :: 0 <= i < |BypassPaths| && StartsWithSegments(path, BypassPaths[i])
  }

  /** What `InvokeAsync` does with a request: hand it to the next stage, or
      end it with a status code and a body. */
  datatype GateOutcome = CallNext | Respond(status: int, body: string)

  /** The gate's decision for a request path and the logged-in flag. */
  function Decide(path: string, isLoggedIn: bool): (o: GateOutcome)
    ensures o == CallNext <==> IsBypass(path) || isLoggedIn
    ensures o != CallNext ==> o == Respond(401, NotLoggedInBody)
    ensures IsBypass(path) ==> o == CallNext
  {
    if IsBypass(path) then CallNext
    else if !isLoggedIn then Respond(401, NotLoggedInBody)
    else CallNext
  }

  /** The path with its ASCII letters upper-cased. */
  function UpperPath(path: string): (u: string)
    ensures |u| == |path|
    ensures forall i :: 0 <= i < |path| ==> u[i] == UpperAscii(path[i])
  {
    seq(|path|, i requires 0 <= i < |path| => UpperAscii(path[i]))
  }

  /** Changing the case of a request path never changes the gate's answer. */
  lemma DecisionIgnoresCase(path: string, isLoggedIn: bool)
    ensures Decide(UpperPath(path), isLoggedIn) == Decide(path, isLoggedIn)
  {
  }

  /** A bypass path followed by nothing or by further segments is let through. */
  lemma BypassCoversSubpaths(k: nat, rest: string, isLoggedIn: bool)
    requires k < |BypassPaths|
    requires rest == [] || rest[0] == '/'
    ensures Decide(BypassPaths[k] + rest, isLoggedIn) == CallNext
  {
  }

  /** Matching is by whole segments: a path that merely begins with the
      letters of a bypass path is not let through while logged out. */
  lemma SwaggerUiIsGated()
    ensures Decide("/swaggerui", false) == Respond(401, NotLoggedInBody)
  {
  }

  lemma LoginSuffixIsGated()
    ensures Decide("/api/users/loginx", false) == Respond(401, NotLoggedInBody)
  {
  }

  /** Case does not matter: upper-case documentation paths are let through. */
  lemma UpperCaseDocsPass()
    ensures Decide("/SWAGGER/index.html", false) == CallNext
  {
    assert StartsWithSegments("/SWAGGER/index.html", BypassPaths[2]);
  }

  /** An API path is refused while logged out. */
  lemma SalesApiIsGated()
    ensures Decide("/api/sales", false) == Respond(401, NotLoggedInBody)
  {
  }

  // ---------------------------------------------------------------------
  // The logged-in flag and the token events

  /** The events of the JWT bearer handler. */
  datatype AuthEvent = TokenValidated | AuthenticationFailed | Challenge

  /** The flag after one event: only a validated token touches it. */
  function AfterEvent(isLoggedIn: bool, e: AuthEvent): (r: bool)
    ensures r <==> isLoggedIn || e == TokenValidated
    ensures isLoggedIn ==> r
  {
    if e == TokenValidated then true else isLoggedIn
  }

  /** The flag after a sequence of events, from a given start value: it
      ends set exactly when it started set or some token was validated, so
      no event ever clears it. */
  function AfterEvents(isLoggedIn: bool, events: seq<AuthEvent>): (r: bool)
    ensures r <==> isLoggedIn || TokenValidated in events
    decreases |events|
  {
    if events == [] then isLoggedIn
    else
      assert events == [events[0]] + events[1..];
      AfterEvents(AfterEvent(isLoggedIn, events[0]), events[1..])
  }

  /** Before any token is validated every request outside the bypass paths
      is refused; after any one token is validated every request is let
      through, whoever sends it (the flag is process-wide). */
  lemma GateAfterEvents(events: seq<AuthEvent>, path: string)
    ensures TokenValidated !in events && !IsBypass(path) ==>
      Decide(path, AfterEvents(false, events)) == Respond(401, NotLoggedInBody)
    ensures TokenValidated in events ==> Decide(path, AfterEvents(false, events)) == CallNext
  {
  }

  /** `CheckUserLoggedInMiddleware`; one object stands for the static flag. */
  class CheckUserLoggedInMiddleware {
    var isLoggedIn: bool

    constructor ()
      ensures !isLoggedIn
    {
      isLoggedIn := false;
    }

    /** The `OnTokenValidated`, `OnAuthenticationFailed` and `OnChallenge`
        callbacks. */
    method OnEvent(e: AuthEvent)
      modifies this
      ensures isLoggedIn == AfterEvent(old(isLoggedIn), e)
      ensures old(isLoggedIn) ==> isLoggedIn
    {
      match e
      case TokenValidated =>
        isLoggedIn := true;
      case AuthenticationFailed =>
      case Challenge =>
    }

    /** `InvokeAsync`: bypass paths go on; otherwise 401 unless logged in. */
    method Invoke(path: string) returns (o: GateOutcome)
      ensures o == Decide(path, isLoggedIn)
      ensures o == CallNext <==> IsBypass(path) || isLoggedIn
    {
      if IsBypass(path) {
        return CallNext;
      }
      if !isLoggedIn {
        return Respond(401, NotLoggedInBody);
      }
      o := CallNext;
    }
  }

  /** A run of the gate: refused before the first token, passed after. */
  method GateScenario() returns (before: GateOutcome, docs: GateOutcome, after: GateOutcome)
    ensures before == Respond(401, NotLoggedInBody)
    ensures docs == CallNext
    ensures after == CallNext
  {
    var gate := new CheckUserLoggedInMiddleware();
    SalesApiIsGated();
    UpperCaseDocsPass();
    before := gate.Invoke("/api/sales");
    docs := gate.Invoke("/SWAGGER/index.html");
    gate.OnEvent(AuthenticationFailed);
    gate.OnEvent(TokenValidated);
    after := gate.Invoke("/api/sales");
  }

  // ---------------------------------------------------------------------
  // Admin seeding

  const AdminEmail: string := "admin@domain.com"
  const AdminUserName: string := "admin"
  const AdminRole: string := "admin"

  /** An identity user with the roles assigned to it. */
  datatype IdentityUser = IdentityUser(userName: string, email: string, emailConfirmed: bool, roles: set<string>)

  /** The role store and the user store, users keyed by name. */
  datatype IdentityState = IdentityState(roles: set<string>, users: map<string, IdentityUser>)

  /** Every user sits under its own name and holds only existing roles. */
  ghost predicate Consistent(st: IdentityState) {
    forall name :: name in st.users ==>
      st.users[name].userName == name && st.users[name].roles <= st.roles
  }

  datatype SeedOutcome = Seeded | UserCreationFailed

  datatype SeedResult = SeedResult(state: IdentityState, outcome: SeedOutcome)

  /** The admin account as seeding creates it, before any role is added. */
  const NewAdmin: IdentityUser := IdentityUser(AdminUserName, AdminEmail, true, {})

  /** `SeedAdminUserAsync` as a function of the stores and of whether the
      user store accepts the new account. */
  function SeedAdmin(st: IdentityState, createSucceeds: bool): (r: SeedResult)
    ensures r.state.roles == st.roles + {AdminRole}
    ensures r.outcome == Seeded <==> AdminUserName in st.users || createSucceeds
    ensures r.outcome == Seeded ==> AdminUserName in r.state.users
    ensures AdminUserName in st.users ==> r.state.users == st.users
    ensures r.outcome == UserCreationFailed ==> r.state.users == st.users
    ensures AdminUserName !in st.users && createSucceeds ==>
      r.state.users == st.users[AdminUserName := NewAdmin.(roles := {AdminRole})]
  {
    var roles := if AdminRole in st.roles then st.roles else st.roles + {AdminRole};
    if AdminUserName in st.users then SeedResult(IdentityState(roles, st.users), Seeded)
    else if createSucceeds then
      SeedResult(IdentityState(roles, st.users[AdminUserName := NewAdmin.(roles := {AdminRole})]), Seeded)
    else SeedResult(IdentityState(roles, st.users), UserCreationFailed)
  }

  /** Seeding keeps the stores consistent. */
  lemma SeedKeepsConsistent(st: IdentityState, createSucceeds: bool)
    requires Consistent(st)
    ensures Consistent(SeedAdmin(st, createSucceeds).state)
  {
  }

  /** Once seeding has succeeded, running it again changes nothing and
      succeeds again, whatever the user store would answer. */
  lemma SeedIdempotent(st: IdentityState, first: bool, second: bool)
    requires SeedAdmin(st, first).outcome == Seeded
    ensures SeedAdmin(SeedAdmin(st, first).state, second) == SeedAdmin(st, first)
  {
  }

  /** The identity stores that `RoleManager` and `UserManager` update. */
  class IdentityStores {
    var roles: set<string>
    var users: map<string, IdentityUser>

    function State(): IdentityState
      reads this
    {
      IdentityState(roles, users)
    }

    constructor (roles0: set<string>, users0: map<string, IdentityUser>)
      ensures State() == IdentityState(roles0, users0)
    {
      roles := roles0;
      users := users0;
    }

    /** `SeedAdminUserAsync`: create the role if missing; if no admin user
        exists, create it and then give it the role, or fail if the user
        store refuses it. */
    method SeedAdminUser(createSucceeds: bool) returns (outcome: SeedOutcome)
      modifies this
      ensures SeedResult(State(), outcome) == SeedAdmin(old(State()), createSucceeds)
    {
      if AdminRole !in roles {
        roles := roles + {AdminRole};
      }
      if AdminUserName in users {
        return Seeded;
      }
      var admin := NewAdmin;
      if !createSucceeds {
        return UserCreationFailed;
      }
      users := users[AdminUserName := admin];
      admin := admin.(roles := admin.roles + {AdminRole});
      users := users[AdminUserName := admin];
      assert admin.roles == {AdminRole};
      outcome := Seeded;
    }
  }

  /** Two start-ups in a row: once the first has seeded, the second leaves
      the stores exactly as the first left them. */
  method SeedTwice(stores: IdentityStores, first: bool, second: bool)
    returns (once: IdentityState, twice: IdentityState, o1: SeedOutcome, o2: SeedOutcome)
    modifies stores
    ensures once == SeedAdmin(old(stores.State()), first).state
    ensures o1 == Seeded ==> twice == once && o2 == Seeded
  {
    o1 := stores.SeedAdminUser(first);
    once := stores.State();
    o2 := stores.SeedAdminUser(second);
    twice := stores.State();
    if o1 == Seeded {
      SeedIdempotent(old(stores.State()), first, second);
    }
  }
}
