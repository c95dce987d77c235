/**
 * The authorization client. It asks a remote policy service, over HTTP,
 * whether a user may run a statement, unless it was configured with the
 * bypass value "ignore".
 */
module Auth {
  import opened Wrappers
  import opened Configuration

  /** The value of the ACL endpoint setting that switches enforcement off. */
  const IgnoreSentinel := "ignore"

  /** The GET request `hasAccess` sends: the endpoint with `user` and `sql` query parameters. */
  datatype AclQuery = AclQuery(uri: Option<string>, user: string, sql: string)

  /** What the HTTP call produced: a status code, or an exception of any kind. */
  datatype HttpOutcome = Status(code: int) | Failure

  /** The decision, and the HTTP request it took (`None` when no request was sent). */
  datatype Decision = Decision(allowed: bool, query: Option<AclQuery>)

  class RemoteAccessControl {
    /** Pass-through mode: every check allows. */
    const ignore: bool
    /** The endpoint the web target points at. */
    const aclUri: Option<string>

    constructor (settings: Settings)
      ensures aclUri == Resolve(settings, AclUriVariable, AclUriKey)
      ensures ignore <==> aclUri == Some(IgnoreSentinel)
    {
      var uri := Resolve(settings, AclUriVariable, AclUriKey);
      ignore := uri == Some(IgnoreSentinel);
      aclUri := uri;
    }

    /**
     * Access is granted by pass-through mode, or to a known user for an
     * absent statement, or to a known user whose query the service answers
     * with 200. Any other status and any failure deny; a query is sent only
     * when neither mode nor arguments decide.
     */
    function HasAccess(user: Option<string>, sql: Option<string>, http: AclQuery -> HttpOutcome): (d: Decision)
      ensures d.allowed <==>
                || ignore
                || (user.Some? && sql.None?)
                || (user.Some? && sql.Some? && http(AclQuery(aclUri, user.value, sql.value)) == Status(200))
      ensures d.query.Some? <==> !ignore && user.Some? && sql.Some?
      ensures d.query.Some? ==> d.query.value == AclQuery(aclUri, user.value, sql.value)
    {
      if ignore then Decision(true, None)
      else if user.None? then Decision(false, None)
      else if sql.None? then Decision(true, None)
      else
        var query := AclQuery(aclUri, user.value, sql.value);
        match http(query)
        case Status(code) => Decision(code == 200, Some(query))
        case Failure => Decision(false, Some(query))
    }
  }

  /** In pass-through mode every user, even a null one, may run every statement, and nothing is sent. */
  lemma BypassAllowsEverything(ac: RemoteAccessControl, user: Option<string>, sql: Option<string>,
                               http: AclQuery -> HttpOutcome)
    requires ac.ignore
    ensures ac.HasAccess(user, sql, http) == Decision(true, None)
  {
  }

  /** Outside pass-through mode an unidentified caller is always refused, without a query. */
  lemma NullUserDenied(ac: RemoteAccessControl, sql: Option<string>, http: AclQuery -> HttpOutcome)
    requires !ac.ignore
    ensures ac.HasAccess(None, sql, http) == Decision(false, None)
  {
  }

  /** Outside pass-through mode a known user with a null statement is allowed without a query. */
  lemma NullStatementAllowed(ac: RemoteAccessControl, user: string, http: AclQuery -> HttpOutcome)
    requires !ac.ignore
    ensures ac.HasAccess(Some(user), None, http) == Decision(true, None)
  {
  }

  /**
   * Fail-closed: once the service is consulted, only a 200 answer allows;
   * every other status and every failure deny.
   */
  lemma FailClosed(ac: RemoteAccessControl, user: string, sql: string, http: AclQuery -> HttpOutcome)
    requires !ac.ignore
    ensures ac.HasAccess(Some(user), Some(sql), http).query == Some(AclQuery(ac.aclUri, user, sql))
    ensures ac.HasAccess(Some(user), Some(sql), http).allowed <==> http(AclQuery(ac.aclUri, user, sql)) == Status(200)
    ensures http(AclQuery(ac.aclUri, user, sql)) == Failure ==> !ac.HasAccess(Some(user), Some(sql), http).allowed
  {
  }

  /** When the service is not consulted, the decision does not depend on how it would have answered. */
  lemma DecisionIgnoresUnusedService(ac: RemoteAccessControl, user: Option<string>, sql: Option<string>,
                                     http1: AclQuery -> HttpOutcome, http2: AclQuery -> HttpOutcome)
    requires ac.HasAccess(user, sql, http1).query.None?
    ensures ac.HasAccess(user, sql, http1) == ac.HasAccess(user, sql, http2)
  {
  }
}
