/** Creation of a system token in the gate service: an ordered chain of
    checks (the caller's authorization token parses, its user exists, every
    requested permission and workspace exists), then the token is built and
    stored. The authorization-token parser and the repositories are total
    functions given as ports; each call made through them is recorded, in
    order, so that the contracts can say which calls happen. */
module SystemToken {
  import opened Wrappers

  /** The name every error of this operation is tagged with. */
  const Operation: string := "CreateSystemToken.Execute"

  datatype AuthToken = AuthToken(email: string)

  datatype Permission = Permission(id: string, name: string)

  datatype CreateSystemTokenInput = CreateSystemTokenInput(
    name: string,
    permissions: seq<string>,
    workspaces: seq<string>,
    allWorkspaces: bool)

  datatype SystemTokenRecord = SystemTokenRecord(
    id: string,
    name: string,
    permissions: seq<Permission>,
    workspaces: seq<string>,
    allWorkspaces: bool,
    token: string,
    author: string)

  /** `domain.SystemToken{}`. */
  const EmptyToken := SystemTokenRecord("", "", [], [], false, "", "")

  datatype Error =
    | Propagated(cause: string, operation: string)  // a port's error, tagged with the operation
    | Business(message: string, operation: string)  // a business error raised here

  /** The parser of the authorization header, the repositories and the
      input-to-domain conversion (whose code is not part of this model). */
  datatype Ports = Ports(
    parseAuthorizationToken: string -> Result<AuthToken, string>,
    existsByEmail: string -> Result<bool, string>,
    findAllPermissions: seq<string> -> Result<seq<Permission>, string>,
    countByIds: seq<string> -> Result<int, string>,
    create: (SystemTokenRecord, seq<Permission>) -> Result<SystemTokenRecord, string>,
    inputToDomain: CreateSystemTokenInput -> SystemTokenRecord)

  /** A call made through a port. */
  datatype Call =
    | ParseCall(authorization: string)
    | ExistsByEmailCall(email: string)
    | FindAllPermissionsCall(names: seq<string>)
    | CountByIdsCall(ids: seq<string>)
    | CreateCall(token: SystemTokenRecord, permissions: seq<Permission>)

  /** What the checks established: the caller's email and the permissions
      found. */
  datatype Checked = Checked(email: string, permissions: seq<Permission>)

  /** The authorization token parses. */
  predicate ParsePasses(ports: Ports, authorization: string)
  {
    ports.parseAuthorizationToken(authorization).Success?
  }

  /** The email of the parsed authorization token. */
  function CallerEmail(ports: Ports, authorization: string): string
    requires ParsePasses(ports, authorization)
  {
    ports.parseAuthorizationToken(authorization).value.email
  }

  /** The token parses and a user with its email exists. */
  predicate UserPasses(ports: Ports, authorization: string)
  {
    ParsePasses(ports, authorization) && ports.existsByEmail(CallerEmail(ports, authorization)) == Success(true)
  }

  /** The checks up to the user pass and every requested permission is found. */
  predicate PermissionsPass(ports: Ports, authorization: string, input: CreateSystemTokenInput)
  {
    && UserPasses(ports, authorization)
    && ports.findAllPermissions(input.permissions).Success?
    && |ports.findAllPermissions(input.permissions).value| == |input.permissions|
  }

  /** Every check passes. */
  predicate AllChecksPass(ports: Ports, authorization: string, input: CreateSystemTokenInput)
  {
    && PermissionsPass(ports, authorization, input)
    && ports.countByIds(input.workspaces).Success?
    && ports.countByIds(input.workspaces).value >= |input.workspaces|
  }

  /** The calls of a run that passes every check, in order. */
  function CheckCalls(ports: Ports, authorization: string, input: CreateSystemTokenInput): seq<Call>
    requires ParsePasses(ports, authorization)
  {
    [ ParseCall(authorization),
      ExistsByEmailCall(CallerEmail(ports, authorization)),
      FindAllPermissionsCall(input.permissions),
      CountByIdsCall(input.workspaces) ]
  }

  /** The validation chain: the checks in order parse, user, permissions,
      workspaces; the first that fails decides the error (a port's own error
      is passed on), and no port is called after it. */
  function CheckRequest(ports: Ports, authorization: string, input: CreateSystemTokenInput): (r: (Result<Checked, Error>, seq<Call>))
    ensures r.0.Success? <==> AllChecksPass(ports, authorization, input)
    ensures !ParsePasses(ports, authorization) ==>
              r == (Failure(Propagated(ports.parseAuthorizationToken(authorization).error, Operation)), [ParseCall(authorization)])
    ensures ParsePasses(ports, authorization) && ports.existsByEmail(CallerEmail(ports, authorization)).Failure? ==>
              r == (Failure(Propagated(ports.existsByEmail(CallerEmail(ports, authorization)).error, Operation)),
                    CheckCalls(ports, authorization, input)[..2])
    ensures ParsePasses(ports, authorization) && ports.existsByEmail(CallerEmail(ports, authorization)) == Success(false) ==>
              r == (Failure(Business("User not found", Operation)), CheckCalls(ports, authorization, input)[..2])
    ensures UserPasses(ports, authorization) && ports.findAllPermissions(input.permissions).Failure? ==>
              r == (Failure(Propagated(ports.findAllPermissions(input.permissions).error, Operation)),
                    CheckCalls(ports, authorization, input)[..3])
    ensures UserPasses(ports, authorization) && ports.findAllPermissions(input.permissions).Success?
            && |ports.findAllPermissions(input.permissions).value| != |input.permissions| ==>
              r == (Failure(Business("Some permissions were not found", Operation)), CheckCalls(ports, authorization, input)[..3])
    ensures PermissionsPass(ports, authorization, input) && ports.countByIds(input.workspaces).Failure? ==>
              r == (Failure(Propagated(ports.countByIds(input.workspaces).error, Operation)), CheckCalls(ports, authorization, input))
    ensures PermissionsPass(ports, authorization, input) && ports.countByIds(input.workspaces).Success?
            && ports.countByIds(input.workspaces).value < |input.workspaces| ==>
              r == (Failure(Business("Some workspaces were not found", Operation)), CheckCalls(ports, authorization, input))
    ensures AllChecksPass(ports, authorization, input) ==>
              r == (Success(Checked(CallerEmail(ports, authorization), ports.findAllPermissions(input.permissions).value)),
                    CheckCalls(ports, authorization, input))
  {
    var auth := ports.parseAuthorizationToken(authorization);
    if auth.Failure? then (Failure(Propagated(auth.error, Operation)), [ParseCall(authorization)])
    else
      var email := auth.value.email;
      var userCalls := [ParseCall(authorization), ExistsByEmailCall(email)];
      var userExists := ports.existsByEmail(email);
      assert CheckCalls(ports, authorization, input)[..2] == userCalls;
      if userExists.Failure? then (Failure(Propagated(userExists.error, Operation)), userCalls)
      else if !userExists.value then (Failure(Business("User not found", Operation)), userCalls)
      else
        var permissionCalls := userCalls + [FindAllPermissionsCall(input.permissions)];
        var permissions := ports.findAllPermissions(input.permissions);
        assert CheckCalls(ports, authorization, input)[..3] == permissionCalls;
        if permissions.Failure? then (Failure(Propagated(permissions.error, Operation)), permissionCalls)
        else if |permissions.value| != |input.permissions| then
          (Failure(Business("Some permissions were not found", Operation)), permissionCalls)
        else
          var workspaceCalls := permissionCalls + [CountByIdsCall(input.workspaces)];
          var workspacesFound := ports.countByIds(input.workspaces);
          assert CheckCalls(ports, authorization, input) == workspaceCalls;
          if workspacesFound.Failure? then (Failure(Propagated(workspacesFound.error, Operation)), workspaceCalls)
          else if workspacesFound.value < |input.workspaces| then
            (Failure(Business("Some workspaces were not found", Operation)), workspaceCalls)
          else (Success(Checked(email, permissions.value)), workspaceCalls)
  }

  // ---------------------------------------------------------------------
  // The token string

  /** `strings.ReplaceAll(s, "-", "")`. */
  function StripDashes(s: string): (r: string)
    ensures '-' !in r
    ensures |r| == |s| - multiset(s)['-']
    ensures forall c :: c != '-' ==> multiset(r)[c] == multiset(s)[c]
  {
    if s == [] then []
    else
      assert s == [s[0]] + s[1..];
      if s[0] == '-' then StripDashes(s[1..]) else [s[0]] + StripDashes(s[1..])
  }

  /** Removing dashes works piece by piece: the characters that are not
      dashes keep their order. */
  lemma {:induction false} StripDashesOfConcat(a: string, b: string)
    ensures StripDashes(a + b) == StripDashes(a) + StripDashes(b)
  {
    if a == [] {
      assert a + b == b;
    } else {
      assert (a + b)[0] == a[0];
      assert (a + b)[1..] == a[1..] + b;
      StripDashesOfConcat(a[1..], b);
    }
  }

  /** A string without dashes is left as it is. */
  lemma {:induction false} StripDashesWithoutDashes(s: string)
    requires '-' !in s
    ensures StripDashes(s) == s
  {
    if s != [] {
      assert s[0] != '-';
      assert '-' !in s[1..] by {
        forall i | 0 <= i < |s[1..]| ensures s[1..][i] != '-' { assert s[1..][i] == s[i + 1]; }
      }
      StripDashesWithoutDashes(s[1..]);
      assert s == [s[0]] + s[1..];
    }
  }

  /** Removing dashes twice is removing them once. */
  lemma StripDashesIsIdempotent(s: string)
    ensures StripDashes(StripDashes(s)) == StripDashes(s)
  {
    StripDashesWithoutDashes(StripDashes(s));
  }

  /** A canonical version-4 UUID (36 characters, four dashes) becomes 32
      characters. */
  lemma CanonicalUuidBecomes32Characters(uuid: string)
    requires |uuid| == 36 && multiset(uuid)['-'] == 4
    ensures |StripDashes(uuid)| == 32
  {
  }

  // ---------------------------------------------------------------------
  // The operation

  /** The token the tail of `Execute` builds before storing it. */
  predicate BuiltFrom(t: SystemTokenRecord, ports: Ports, input: CreateSystemTokenInput, checked: Checked, uuid: string)
  {
    t == ports.inputToDomain(input).(author := checked.email, permissions := checked.permissions, token := StripDashes(uuid))
  }

  /** `createSystemToken.Execute(authorization, input)`, with `uuid` the
      freshly generated UUID string. Returns the stored token (or the empty
      token), the error if any, and the calls made through the ports. */
  method Execute(ports: Ports, authorization: string, input: CreateSystemTokenInput, uuid: string)
    returns (saved: SystemTokenRecord, err: Option<Error>, calls: seq<Call>)
    ensures !AllChecksPass(ports, authorization, input) ==>
              && err == Some(CheckRequest(ports, authorization, input).0.error)
              && calls == CheckRequest(ports, authorization, input).1
              && saved == EmptyToken
    ensures AllChecksPass(ports, authorization, input) ==>
              && |calls| == 5
              && calls[..4] == CheckRequest(ports, authorization, input).1
              && calls[4].CreateCall?
              && BuiltFrom(calls[4].token, ports, input, CheckRequest(ports, authorization, input).0.value, uuid)
              && calls[4].permissions == ports.findAllPermissions(input.permissions).value
              && calls[4].token.author == ports.parseAuthorizationToken(authorization).value.email
              && '-' !in calls[4].token.token
              && (var created := ports.create(calls[4].token, calls[4].permissions);
                  && (created.Success? ==> err.None? && saved == created.value)
                  && (created.Failure? ==> err == Some(Propagated(created.error, Operation)) && saved == EmptyToken))
    ensures err.None? <==> AllChecksPass(ports, authorization, input) && ports.create(calls[|calls| - 1].token, calls[|calls| - 1].permissions).Success?
    ensures (exists i :: 0 <= i < |calls| && calls[i].CreateCall?) <==> AllChecksPass(ports, authorization, input)
  {
    var checkedAndCalls := CheckRequest(ports, authorization, input);
    var checked := checkedAndCalls.0;
    calls := checkedAndCalls.1;
    if checked.Failure? {
      return EmptyToken, Some(checked.error), calls;
    }
    var systemToken := ports.inputToDomain(input);
    systemToken := systemToken.(author := checked.value.email);
    systemToken := systemToken.(permissions := checked.value.permissions);
    systemToken := systemToken.(token := StripDashes(uuid));
    calls := calls + [CreateCall(systemToken, checked.value.permissions)];
    var savedSystemToken := ports.create(systemToken, checked.value.permissions);
    if savedSystemToken.Failure? {
      return EmptyToken, Some(Propagated(savedSystemToken.error, Operation)), calls;
    }
    return savedSystemToken.value, None, calls;
  }
}
