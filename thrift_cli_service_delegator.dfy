/**
 * The proxy itself: it forwards TCLIService calls to the backend, records
 * who opened each session, and lets a statement through only after
 * rewriting it for the tenant database and asking the access checker.
 */
module Delegator {
  import opened Wrappers
  import opened JavaStrings
  import opened Configuration
  import opened Thrift
  import opened Sessions
  import opened Auth
  import opened StatementRewrite

  // ---- caller identity -----------------------------------------------------

  /** What the proxy's authentication layer knows about the current connection. */
  datatype AuthFactory = AuthFactory(remoteUser: Option<string>, ipAddress: Option<string>)

  /**
   * The identity sources `OpenSession` consults on the calling thread: the
   * shared authentication factory (null until the listener has created it)
   * and the user name and address negotiated by the protocol handshake.
   */
  datatype CallerContext = CallerContext(
    authFactory: Option<AuthFactory>,
    sessionManagerUser: Option<string>,
    sessionManagerIp: Option<string>)

  /**
   * The client address: the factory's whenever there is a factory, even when
   * the factory has none (the handshake's address is no fallback then), and
   * the handshake's only without a factory.
   */
  function GetIpAddress(caller: CallerContext): (ip: Option<string>)
    ensures caller.authFactory.Some? ==> ip == caller.authFactory.value.ipAddress
    ensures caller.authFactory.None? ==> ip == caller.sessionManagerIp
  {
    if caller.authFactory.Some? then caller.authFactory.value.ipAddress else caller.sessionManagerIp
  }

  /**
   * The user a session is registered under: the authenticated remote user if
   * there is one, else the handshake's user name, else the requested one; a
   * null or blank choice is replaced by the instance name.
   */
  function ResolveUsername(requested: Option<string>, caller: CallerContext, instanceName: Option<string>): (u: Option<string>)
    ensures || u == instanceName
            || (u.Some? && !IsBlank(u.value) &&
                (|| u == requested
                 || u == caller.sessionManagerUser
                 || (caller.authFactory.Some? && u == caller.authFactory.value.remoteUser)))
  {
    var asserted :=
      if caller.authFactory.Some? && caller.authFactory.value.remoteUser.Some? then caller.authFactory.value.remoteUser
      else caller.sessionManagerUser;
    var chosen := if asserted.Some? then asserted else requested;
    if chosen.Some? && !IsBlank(chosen.value) then chosen else instanceName
  }

  /** The authenticated remote user takes precedence over every other source. */
  lemma AuthenticatedUserWins(requested: Option<string>, caller: CallerContext, instanceName: Option<string>, user: string)
    requires caller.authFactory.Some? && caller.authFactory.value.remoteUser == Some(user) && !IsBlank(user)
    ensures ResolveUsername(requested, caller, instanceName) == Some(user)
  {
  }

  /** Without an authenticated user, the handshake's user name is used. */
  lemma HandshakeUserIsNext(requested: Option<string>, caller: CallerContext, instanceName: Option<string>, user: string)
    requires caller.authFactory.None? || caller.authFactory.value.remoteUser.None?
    requires caller.sessionManagerUser == Some(user) && !IsBlank(user)
    ensures ResolveUsername(requested, caller, instanceName) == Some(user)
  {
  }

  /** Only when both are null does the user name in the request count. */
  lemma RequestedUserIsLast(caller: CallerContext, instanceName: Option<string>, user: string)
    requires caller.authFactory.None? || caller.authFactory.value.remoteUser.None?
    requires caller.sessionManagerUser.None? && !IsBlank(user)
    ensures ResolveUsername(Some(user), caller, instanceName) == Some(user)
  {
  }

  /**
   * Conversely, once the remote user or the handshake user name is not null,
   * the request's user name has no influence, and the result is that name or
   * the instance name.
   */
  lemma EarlierSourceHidesRequest(requested: Option<string>, caller: CallerContext, instanceName: Option<string>)
    requires (caller.authFactory.Some? && caller.authFactory.value.remoteUser.Some?) || caller.sessionManagerUser.Some?
    ensures ResolveUsername(requested, caller, instanceName) == ResolveUsername(None, caller, instanceName)
    ensures var u := ResolveUsername(requested, caller, instanceName);
            || u == instanceName
            || (caller.authFactory.Some? && u == caller.authFactory.value.remoteUser)
            || u == caller.sessionManagerUser
  {
  }

  /** A blank remote user is not skipped either: the instance name is used, whatever the other sources say. */
  lemma BlankRemoteUserFallsBackToInstance(requested: Option<string>, caller: CallerContext, instanceName: Option<string>, user: string)
    requires caller.authFactory.Some? && caller.authFactory.value.remoteUser == Some(user) && IsBlank(user)
    ensures ResolveUsername(requested, caller, instanceName) == instanceName
  {
  }

  /**
   * The first source that is not null is final: a blank handshake user name
   * hides the request's user name and yields the instance name.
   */
  lemma BlankChoiceFallsBackToInstance(requested: Option<string>, caller: CallerContext, instanceName: Option<string>, user: string)
    requires caller.authFactory.None? || caller.authFactory.value.remoteUser.None?
    requires caller.sessionManagerUser == Some(user) && IsBlank(user)
    ensures ResolveUsername(requested, caller, instanceName) == instanceName
  {
  }

  // ---- the execute gate ----------------------------------------------------

  /** The response sent back for a refused statement; the backend never sees the request. */
  const NoPermissionStatus := TStatus(ERROR_STATUS, None, Some("No permission"), Some(42000),
                                      Some("No permission to execute statement"))
  const NoPermissionResponse := TExecuteStatementResp(NoPermissionStatus, None)

  /** What the gate decided, and which policy query, if any, it made on the way. */
  datatype Verdict =
    | Forward(statement: Option<string>, query: Option<AclQuery>)
    | Deny(query: Option<AclQuery>)

  /**
   * The decision `ExecuteStatement` takes: an unknown session is refused
   * outright; otherwise the rewritten statement is checked for the session's
   * user and forwarded when access is granted.
   */
  function ExecuteGate(registry: map<HandleKey, SessionInfo>, restrictDatabase: Option<string>,
                       ac: RemoteAccessControl, handle: HandleKey, statement: Option<string>,
                       http: AclQuery -> HttpOutcome): (v: Verdict)
    requires restrictDatabase.Some? && statement.None? ==> handle !in registry
    ensures v.Forward? ==> handle in registry
    ensures v.query.Some? ==>
              && handle in registry && !ac.ignore
              && registry[handle].username == Some(v.query.value.user)
              && OverwriteDatabase(restrictDatabase, statement) == Some(v.query.value.sql)
              && v.query.value.uri == ac.aclUri
  {
    if handle !in registry then Deny(None)
    else
      var sql := OverwriteDatabase(restrictDatabase, statement);
      var decision := ac.HasAccess(registry[handle].username, sql, http);
      if decision.allowed then Forward(sql, decision.query) else Deny(decision.query)
  }

  /** An unregistered handle is refused without consulting the policy service. */
  lemma UnknownSessionIsDenied(registry: map<HandleKey, SessionInfo>, restrictDatabase: Option<string>,
                               ac: RemoteAccessControl, handle: HandleKey, statement: Option<string>,
                               http: AclQuery -> HttpOutcome)
    requires handle !in registry
    ensures ExecuteGate(registry, restrictDatabase, ac, handle, statement, http) == Deny(None)
  {
  }

  /**
   * What is forwarded is the rewritten statement, for a registered session,
   * and outside pass-through mode only after the policy service answered
   * 200 for that session's user and that rewritten statement (or the
   * statement was null).
   */
  lemma ForwardIsRewrittenAndApproved(registry: map<HandleKey, SessionInfo>, restrictDatabase: Option<string>,
                                      ac: RemoteAccessControl, handle: HandleKey, statement: Option<string>,
                                      http: AclQuery -> HttpOutcome)
    requires restrictDatabase.Some? && statement.None? ==> handle !in registry
    requires ExecuteGate(registry, restrictDatabase, ac, handle, statement, http).Forward?
    ensures handle in registry
    ensures ExecuteGate(registry, restrictDatabase, ac, handle, statement, http).statement ==
            OverwriteDatabase(restrictDatabase, statement)
    ensures !ac.ignore ==>
              var sql := OverwriteDatabase(restrictDatabase, statement);
              var user := registry[handle].username;
              user.Some? && (sql.None? || http(AclQuery(ac.aclUri, user.value, sql.value)) == Status(200))
  {
  }

  /** A session registered without a user name can run nothing outside pass-through mode. */
  lemma AnonymousSessionIsDenied(registry: map<HandleKey, SessionInfo>, restrictDatabase: Option<string>,
                                 ac: RemoteAccessControl, handle: HandleKey, statement: Option<string>,
                                 http: AclQuery -> HttpOutcome)
    requires restrictDatabase.Some? ==> statement.Some?
    requires !ac.ignore && handle in registry && registry[handle].username.None?
    ensures ExecuteGate(registry, restrictDatabase, ac, handle, statement, http) == Deny(None)
  {
  }

  /** A failing or refusing policy service denies every registered session's statement. */
  lemma PolicyRefusalDenies(registry: map<HandleKey, SessionInfo>, restrictDatabase: Option<string>,
                            ac: RemoteAccessControl, handle: HandleKey, statement: string,
                            http: AclQuery -> HttpOutcome)
    requires !ac.ignore && handle in registry && registry[handle].username.Some?
    requires http(AclQuery(ac.aclUri, registry[handle].username.value,
                           OverwriteDatabase(restrictDatabase, Some(statement)).value)) != Status(200)
    ensures ExecuteGate(registry, restrictDatabase, ac, handle, Some(statement), http).Deny?
  {
  }

  /**
   * Conversely, a registered session with a user name whose rewritten
   * statement the policy service approves (or that is null) is forwarded.
   */
  lemma ApprovedIsForwarded(registry: map<HandleKey, SessionInfo>, restrictDatabase: Option<string>,
                            ac: RemoteAccessControl, handle: HandleKey, statement: Option<string>,
                            http: AclQuery -> HttpOutcome)
    requires restrictDatabase.Some? ==> statement.Some?
    requires handle in registry && registry[handle].username.Some?
    requires var sql := OverwriteDatabase(restrictDatabase, statement);
             sql.Some? ==> http(AclQuery(ac.aclUri, registry[handle].username.value, sql.value)) == Status(200)
    ensures ExecuteGate(registry, restrictDatabase, ac, handle, statement, http).Forward?
  {
  }

  /** In pass-through mode every registered session's rewritten statement goes through unchecked. */
  lemma BypassForwardsRegisteredSessions(registry: map<HandleKey, SessionInfo>, restrictDatabase: Option<string>,
                                         ac: RemoteAccessControl, handle: HandleKey, statement: Option<string>,
                                         http: AclQuery -> HttpOutcome)
    requires restrictDatabase.Some? ==> statement.Some?
    requires ac.ignore && handle in registry
    ensures ExecuteGate(registry, restrictDatabase, ac, handle, statement, http) ==
            Forward(OverwriteDatabase(restrictDatabase, statement), None)
  {
  }

  // ---- the service ---------------------------------------------------------

  class ThriftCLIServiceDelegator {
    const sessions: SessionManagerDelegator
    /** Embedded services never run their own listener. */
    const isEmbedded: bool
    /** The backend connection and the access checker, both set up by `Init`. */
    var delegate: DelegateClient?
    var remoteAccessControl: RemoteAccessControl?
    var instanceName: Option<string>
    var restrictDatabase: Option<string>
    var isStarted: bool
    /** Listener threads launched by `Start`, and `server.stop()` calls made by `Stop`. */
    var listenersLaunched: nat
    var serverStops: nat

    /** This class launches at most one listener, and only while started. */
    ghost predicate Valid()
      reads this, sessions
    {
      && sessions.Valid()
      && (isStarted ==> !isEmbedded)
      && listenersLaunched == serverStops + (if isStarted then 1 else 0)
    }

    ghost predicate Initialized()
      reads this
    {
      delegate != null && remoteAccessControl != null
    }

    constructor (isEmbedded: bool)
      ensures Valid() && fresh(sessions) && sessions.handleToSession == map[]
      ensures this.isEmbedded == isEmbedded
      ensures !isStarted && listenersLaunched == 0 && serverStops == 0
      ensures delegate == null && remoteAccessControl == null
      ensures instanceName.None? && restrictDatabase.None?
    {
      sessions := new SessionManagerDelegator();
      this.isEmbedded := isEmbedded;
      delegate := null;
      remoteAccessControl := null;
      instanceName := None;
      restrictDatabase := None;
      isStarted := false;
      listenersLaunched := 0;
      serverStops := 0;
    }

    /**
     * Takes the backend connection, builds the access checker, and reads the
     * instance name and the restricted database, each from the environment
     * first and the configuration second.
     */
    method Init(settings: Settings, connection: DelegateClient)
      requires Valid()
      modifies this`delegate, this`remoteAccessControl, this`instanceName, this`restrictDatabase
      ensures Valid() && Initialized()
      ensures delegate == connection
      ensures fresh(remoteAccessControl)
      ensures remoteAccessControl.aclUri == Resolve(settings, AclUriVariable, AclUriKey)
      ensures remoteAccessControl.ignore <==> remoteAccessControl.aclUri == Some(IgnoreSentinel)
      ensures instanceName == Resolve(settings, InstanceVariable, InstanceKey)
      ensures restrictDatabase == Resolve(settings, DatabaseVariable, DatabaseKey)
    {
      delegate := connection;
      remoteAccessControl := new RemoteAccessControl(settings);
      instanceName := Resolve(settings, InstanceVariable, InstanceKey);
      restrictDatabase := Resolve(settings, DatabaseVariable, DatabaseKey);
    }

    /** Launches the listener unless it already runs or the service is embedded. */
    method Start()
      requires Valid()
      modifies this`isStarted, this`listenersLaunched
      ensures Valid()
      ensures if !old(isStarted) && !isEmbedded
              then isStarted && listenersLaunched == old(listenersLaunched) + 1
              else isStarted == old(isStarted) && listenersLaunched == old(listenersLaunched)
    {
      if !isStarted && !isEmbedded {
        listenersLaunched := listenersLaunched + 1;
        isStarted := true;
      }
    }

    /** Stops the listener if it runs; otherwise does nothing. */
    method Stop()
      requires Valid()
      modifies this`isStarted, this`serverStops
      ensures Valid()
      ensures if old(isStarted) && !isEmbedded
              then !isStarted && serverStops == old(serverStops) + 1
              else isStarted == old(isStarted) && serverStops == old(serverStops)
    {
      if isStarted && !isEmbedded {
        serverStops := serverStops + 1;
        isStarted := false;
      }
    }

    /**
     * Forwards the request, then registers the session under the handle the
     * backend returned, with the resolved user, the request's password and
     * the caller's address. The backend's response is returned unchanged.
     */
    method OpenSession(req: TOpenSessionReq, caller: CallerContext) returns (resp: TOpenSessionResp)
      requires Valid() && Initialized()
      modifies sessions, delegate
      ensures Valid()
      ensures resp == delegate.openSessionAnswer(req)
      ensures delegate.calls == old(delegate.calls) + [OpenSessionCall(req)]
      ensures sessions.handleToSession == old(sessions.handleToSession)[resp.sessionHandle :=
                SessionInfo(ResolveUsername(req.username, caller, instanceName), req.password,
                            GetIpAddress(caller), resp.sessionHandle)]
    {
      resp := delegate.OpenSession(req);
      var username := req.username;
      var password := req.password;
      var ip: Option<string> := None;
      if caller.authFactory.Some? && caller.authFactory.value.remoteUser.Some? {
        username := caller.authFactory.value.remoteUser;
        ip := caller.authFactory.value.ipAddress;
      } else {
        username := caller.sessionManagerUser;
      }
      if ip.None? {
        ip := GetIpAddress(caller);
      }
      if username.None? {
        username := req.username;
      }
      if username.None? || |Trim(username.value)| == 0 {
        username := instanceName;
      }
      sessions.AddSession(username, password, ip, resp.sessionHandle);
    }

    /** Forwards the close; the registry entry for the session is left in place. */
    method CloseSession(req: TCloseSessionReq) returns (resp: TCloseSessionResp)
      requires Initialized()
      modifies delegate
      ensures resp == delegate.closeSessionAnswer(req)
      ensures delegate.calls == old(delegate.calls) + [CloseSessionCall(req)]
      ensures unchanged(sessions)
    {
      resp := delegate.CloseSession(req);
    }

    /**
     * Runs the gate. A forwarded statement is written into the request, which
     * then goes to the backend, whose response is returned unchanged; a
     * refused one leaves the request and the backend untouched and answers
     * with the fixed denial.
     */
    method ExecuteStatement(req: TExecuteStatementReq, http: AclQuery -> HttpOutcome) returns (resp: TExecuteStatementResp)
      requires Valid() && Initialized()
      requires restrictDatabase.Some? && req.statement.None? ==> req.sessionHandle !in sessions.handleToSession
      modifies req, delegate
      ensures var verdict := ExecuteGate(sessions.handleToSession, restrictDatabase, remoteAccessControl,
                                         old(req.sessionHandle), old(req.statement), http);
              if verdict.Forward? then
                && req.Args() == old(req.Args()).(statement := verdict.statement)
                && delegate.calls == old(delegate.calls) + [ExecuteStatementCall(req.Args())]
                && resp == delegate.executeStatementAnswer(req.Args())
              else
                && req.Args() == old(req.Args())
                && delegate.calls == old(delegate.calls)
                && resp == NoPermissionResponse
    {
      var sessionHandle := req.sessionHandle;
      var sessionInfo := sessions.GetSession(sessionHandle);
      if sessionInfo.Some? {
        var sql := req.statement;
        sql := OverwriteDatabase(restrictDatabase, sql);
        if remoteAccessControl.HasAccess(sessionInfo.value.username, sql, http).allowed {
          req.statement := sql;
          resp := delegate.ExecuteStatement(req);
          return;
        }
      }
      var status := NoPermissionStatus;
      resp := TExecuteStatementResp(status, None);
    }
  }

  /**
   * A client of the lifecycle: stop before start, start twice, stop. Only
   * one listener is ever launched, and the early stop does nothing.
   */
  method LifecycleScenario(isEmbedded: bool) returns (stopsBeforeStart: nat, launchedByTwoStarts: nat, runningAfterStop: bool)
    ensures stopsBeforeStart == 0
    ensures launchedByTwoStarts == if isEmbedded then 0 else 1
    ensures !runningAfterStop
  {
    var service := new ThriftCLIServiceDelegator(isEmbedded);
    service.Stop();
    stopsBeforeStart := service.serverStops;
    service.Start();
    service.Start();
    launchedByTwoStarts := service.listenersLaunched;
    service.Stop();
    runningAfterStop := service.isStarted;
  }
}
