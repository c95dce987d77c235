/**
 * The parts of the TCLIService protocol the proxy looks at, and the backend
 * connection (`TCLIService.Client`) it forwards to. The backend is an
 * oracle: it answers each request with a fixed function of the request and
 * records every call it receives.
 */
module Thrift {
  import opened Wrappers

  datatype THandleIdentifier = THandleIdentifier(guid: seq<bv8>, secret: seq<bv8>)

  datatype TSessionHandle = TSessionHandle(sessionId: THandleIdentifier)

  datatype TOperationHandle = TOperationHandle(operationId: THandleIdentifier, hasResultSet: bool)

  datatype TStatusCode =
    | SUCCESS_STATUS
    | SUCCESS_WITH_INFO_STATUS
    | STILL_EXECUTING_STATUS
    | ERROR_STATUS
    | INVALID_HANDLE_STATUS

  /** Optional Thrift fields that were never set are `None`. */
  datatype TStatus = TStatus(
    statusCode: TStatusCode,
    infoMessages: Option<seq<string>>,
    sqlState: Option<string>,
    errorCode: Option<int>,
    errorMessage: Option<string>)

  datatype TOpenSessionReq = TOpenSessionReq(
    clientProtocol: int,
    username: Option<string>,
    password: Option<string>,
    configuration: Option<map<string, string>>)

  /** A failed open may come back without a session handle. */
  datatype TOpenSessionResp = TOpenSessionResp(
    status: TStatus,
    serverProtocolVersion: int,
    sessionHandle: Option<TSessionHandle>,
    configuration: Option<map<string, string>>)

  datatype TCloseSessionReq = TCloseSessionReq(sessionHandle: Option<TSessionHandle>)

  datatype TCloseSessionResp = TCloseSessionResp(status: TStatus)

  /** The field values of a `TExecuteStatementReq` at the moment it is sent. */
  datatype ExecuteStatementArgs = ExecuteStatementArgs(
    sessionHandle: Option<TSessionHandle>,
    statement: Option<string>,
    confOverlay: Option<map<string, string>>,
    runAsync: bool)

  datatype TExecuteStatementResp = TExecuteStatementResp(
    status: TStatus,
    operationHandle: Option<TOperationHandle>)

  /**
   * The execute request is a mutable Thrift struct: the proxy rewrites its
   * statement in place before passing the same object on.
   */
  class TExecuteStatementReq {
    var sessionHandle: Option<TSessionHandle>
    var statement: Option<string>
    var confOverlay: Option<map<string, string>>
    var runAsync: bool

    constructor (sessionHandle: Option<TSessionHandle>, statement: Option<string>,
                 confOverlay: Option<map<string, string>>, runAsync: bool)
      ensures Args() == ExecuteStatementArgs(sessionHandle, statement, confOverlay, runAsync)
    {
      this.sessionHandle := sessionHandle;
      this.statement := statement;
      this.confOverlay := confOverlay;
      this.runAsync := runAsync;
    }

    function Args(): ExecuteStatementArgs
      reads this
    {
      ExecuteStatementArgs(sessionHandle, statement, confOverlay, runAsync)
    }
  }

  /** One call received by the backend. */
  datatype BackendCall =
    | OpenSessionCall(openReq: TOpenSessionReq)
    | CloseSessionCall(closeReq: TCloseSessionReq)
    | ExecuteStatementCall(executeArgs: ExecuteStatementArgs)

  /** The connection to the backend engine. */
  class DelegateClient {
    const openSessionAnswer: TOpenSessionReq -> TOpenSessionResp
    const closeSessionAnswer: TCloseSessionReq -> TCloseSessionResp
    const executeStatementAnswer: ExecuteStatementArgs -> TExecuteStatementResp
    /** Every request this client has sent, oldest first. */
    var calls: seq<BackendCall>

    constructor (openSessionAnswer: TOpenSessionReq -> TOpenSessionResp,
                 closeSessionAnswer: TCloseSessionReq -> TCloseSessionResp,
                 executeStatementAnswer: ExecuteStatementArgs -> TExecuteStatementResp)
      ensures this.openSessionAnswer == openSessionAnswer
      ensures this.closeSessionAnswer == closeSessionAnswer
      ensures this.executeStatementAnswer == executeStatementAnswer
      ensures calls == []
    {
      this.openSessionAnswer := openSessionAnswer;
      this.closeSessionAnswer := closeSessionAnswer;
      this.executeStatementAnswer := executeStatementAnswer;
      calls := [];
    }

    method OpenSession(req: TOpenSessionReq) returns (resp: TOpenSessionResp)
      modifies this
      ensures calls == old(calls) + [OpenSessionCall(req)]
      ensures resp == openSessionAnswer(req)
    {
      calls := calls + [OpenSessionCall(req)];
      resp := openSessionAnswer(req);
    }

    method CloseSession(req: TCloseSessionReq) returns (resp: TCloseSessionResp)
      modifies this
      ensures calls == old(calls) + [CloseSessionCall(req)]
      ensures resp == closeSessionAnswer(req)
    {
      calls := calls + [CloseSessionCall(req)];
      resp := closeSessionAnswer(req);
    }

    method ExecuteStatement(req: TExecuteStatementReq) returns (resp: TExecuteStatementResp)
      modifies this
      ensures calls == old(calls) + [ExecuteStatementCall(req.Args())]
      ensures resp == executeStatementAnswer(req.Args())
    {
      calls := calls + [ExecuteStatementCall(req.Args())];
      resp := executeStatementAnswer(req.Args());
    }
  }
}
