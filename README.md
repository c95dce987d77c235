# Multi-tenant SQL proxy: a Dafny model

This project models the decision logic of a Thrift proxy in front of a
HiveServer2-style SQL engine (`ThriftCLIServiceDelegator`). The proxy
forwards every TCLIService call to a backend connection. It intercepts two of
them:

- **OpenSession** records who opened the session, keyed by the handle the
  backend returned, in a session registry (`SessionManagerDelegator`).
- **ExecuteStatement** looks the session up and rewrites the statement for the
  configured tenant database. It then asks a remote access checker
  (`RemoteAccessControl`) whether the session's user may run it. The
  statement is forwarded only on "allow". Otherwise the proxy answers with a
  fixed denial and the backend is never contacted.

Files and modules:

- `wrappers.dfy` (`Wrappers`): `Option`. `None` stands for Java's `null`, for strings and for map keys alike.
- `java_strings.dfy` (`JavaStrings`): the `String` operations used: `toLowerCase` (ASCII letters), `contains`, `replace` with a literal target, and `trim`. Their properties are proved here.
- `configuration.dfy` (`Configuration`): environment-variable-then-configuration-key resolution, and the setting names.
- `thrift.dfy` (`Thrift`): the protocol structures the proxy reads or builds. The execute request is a class, because the proxy rewrites it in place. The backend connection (`DelegateClient`) answers each call with a fixed function of the request and logs every call it receives.
- `session_manager_delegator.dfy` (`Sessions`): the registry, a class over a `map` field.
- `remote_access_control.dfy` (`Auth`): the access checker. The HTTP call is an oracle `AclQuery -> HttpOutcome` that returns a status code or a failure.
- `overwrite_database.dfy` (`StatementRewrite`): the tenant rewrite `overwriteDatabase`, its rule-by-rule lemmas, and worked examples.
- `thrift_cli_service_delegator.dfy` (`Delegator`): identity resolution, the execute gate as a specification function (`ExecuteGate`), and the service class with its lifecycle, `OpenSession`, `CloseSession` and `ExecuteStatement`.

Inputs that the source reads from outside come in as parameters:

- Environment variables and the Hive configuration are in `Settings`.
- The thread-local identity sources are in `CallerContext`: the shared `HiveAuthFactory` (absent until the listener creates it) and `SessionManager`'s user name and address.
- The HTTP answer of the policy service comes from the oracle passed to `ExecuteStatement`. There is a fresh oracle per call because `hasAccess` asks the service on every call and caches nothing (`RemoteAccessControl.java:57-58`).
- Backend answers come from the responder functions of `DelegateClient`.

In these places the code does something other than the obvious intent. The model follows the code:

- The user name is not the first non-blank source. The first source that is not null is taken. If that one is blank, the instance name is used, even when a later source carries a usable name (`BlankRemoteUserFallsBackToInstance`, `BlankChoiceFallsBackToInstance`).
- `CloseSession` never removes the registry entry, so entries outlive their sessions (`CloseSession` ensures `unchanged(sessions)`).
- A failed `OpenSession` whose response has no handle registers an entry under the null key. `HashMap` allows that, so the key type is `Option<TSessionHandle>`.

## Model

| member | source | states |
|---|---|---|
| `StatementRewrite.OverwriteDatabase` | service/src/java/org/apache/hive/service/cli/thrift/ThriftCLIServiceDelegator.java:198-216 | the rewrite itself: unrestricted statements pass through, then the `use ` rule, the two `show ` rules and the `default` replacement are tried in the source's order; the result is null exactly when the statement was (the rules one by one are the lemmas below) |
| `StatementRewrite.UnrestrictedIsIdentity` | service/src/java/org/apache/hive/service/cli/thrift/ThriftCLIServiceDelegator.java:198-201 | with no restricted database the statement comes back unchanged, original casing and null included |
| `StatementRewrite.UseIsOverridden` | service/src/java/org/apache/hive/service/cli/thrift/ThriftCLIServiceDelegator.java:202-205 | if the lower-cased statement contains `use `, the result is exactly `USE D`, whatever it named and whether or not it also contains `show ` (the use rule comes first) |
| `StatementRewrite.ShowDatabasesIsConfined` | service/src/java/org/apache/hive/service/cli/thrift/ThriftCLIServiceDelegator.java:206-208 | with no `use `, a statement containing `show ` and `databases` becomes `SHOW DATABASES LIKE \`D\`` |
| `StatementRewrite.ShowSchemasIsConfined` | service/src/java/org/apache/hive/service/cli/thrift/ThriftCLIServiceDelegator.java:206-212 | with no `use `, a statement containing `show ` and `schemas` but not `databases` becomes `SHOW SCHEMAS LIKE \`D\`` |
| `StatementRewrite.OtherStatementsReplaceDefault` | service/src/java/org/apache/hive/service/cli/thrift/ThriftCLIServiceDelegator.java:202-215 | every other statement becomes its lower-cased form with each `default` replaced by `D` |
| `StatementRewrite.NoDefaultIsOnlyLowered` | service/src/java/org/apache/hive/service/cli/thrift/ThriftCLIServiceDelegator.java:213-215 | such a statement without `default` in its lower-cased form is returned merely lower-cased |
| `StatementRewrite.CaseInsensitive` | service/src/java/org/apache/hive/service/cli/thrift/ThriftCLIServiceDelegator.java:202 | with a restriction set, two statements with the same lower-cased form are rewritten alike |
| `StatementRewrite.EverySwitchLandsInRestrictedDatabase` | service/src/java/org/apache/hive/service/cli/thrift/ThriftCLIServiceDelegator.java:202-205 | a keyword whose lower-cased form is `use `, however it is cased (`USE`, `use`, `Use`, ...), followed by any `x`, is rewritten to `USE D` |
| `StatementRewrite.SwitchRewriteIsStable` | service/src/java/org/apache/hive/service/cli/thrift/ThriftCLIServiceDelegator.java:202-205 | rewriting a database switch a second time gives the same result as the first time |
| `StatementRewrite.DefaultTenantOnlyLowers` | service/src/java/org/apache/hive/service/cli/thrift/ThriftCLIServiceDelegator.java:213-215 | with the restricted database named `default` itself, a statement that is neither a switch nor a listing is forwarded merely lower-cased |
| `StatementRewrite.SingleDefaultReplaced` | service/src/java/org/apache/hive/service/cli/thrift/ThriftCLIServiceDelegator.java:202-215 | a statement that lower-cases to `head + "default" + tail`, with no `use ` or `show `, no `d` in `head` and a tail shorter than `default`, becomes `head + D + tail` |
| `StatementRewrite.ExampleDefaultReplaced` | service/src/java/org/apache/hive/service/cli/thrift/ThriftCLIServiceDelegator.java:202-215 | `SELECT * FROM default.t` under any tenant database `D` becomes `select * from D.t` |
| `StatementRewrite.ExampleUseOverridden` | service/src/java/org/apache/hive/service/cli/thrift/ThriftCLIServiceDelegator.java:203-205 | `USE other_db` under `tenant7` becomes `USE tenant7` |
| `StatementRewrite.ExampleShowDatabases` | service/src/java/org/apache/hive/service/cli/thrift/ThriftCLIServiceDelegator.java:206-208 | `SHOW DATABASES` under `tenant7` becomes `SHOW DATABASES LIKE \`tenant7\`` |
| `StatementRewrite.ExampleCasingIsLost` | service/src/java/org/apache/hive/service/cli/thrift/ThriftCLIServiceDelegator.java:202-215 | `SELECT 1` under a restriction is forwarded as `select 1`: case is lost even when no rule fires |
| `JavaStrings.ToLower` | service/src/java/org/apache/hive/service/cli/thrift/ThriftCLIServiceDelegator.java:202 | `toLowerCase` keeps the length of the string |
| `JavaStrings.ToLowerLowers` | service/src/java/org/apache/hive/service/cli/thrift/ThriftCLIServiceDelegator.java:202 | the lower-cased string has no upper-case ASCII letter, and each position keeps its character or holds the lower-case partner of the upper-case letter there |
| `JavaStrings.ContainsSplits` | service/src/java/org/apache/hive/service/cli/thrift/ThriftCLIServiceDelegator.java:203-210 | `s.contains(t)` holds exactly when `t` occurs in `s` at some index, that is, when `s` is some text, then `t`, then some more text |
| `JavaStrings.Replace` | service/src/java/org/apache/hive/service/cli/thrift/ThriftCLIServiceDelegator.java:213-215 | `replace` scans left to right from index 0; it keeps the length when target and replacement have equal length, and replacing the target by itself changes nothing; its left-to-right meaning is stated by `ReplaceAbsent` and `ReplaceFirstOccurrence` |
| `JavaStrings.ReplaceAbsent` | service/src/java/org/apache/hive/service/cli/thrift/ThriftCLIServiceDelegator.java:213-215 | `replace` returns a string that does not contain the target unchanged |
| `JavaStrings.ReplaceFirstOccurrence` | service/src/java/org/apache/hive/service/cli/thrift/ThriftCLIServiceDelegator.java:213-215 | `replace` works left to right on non-overlapping occurrences: the text before the first occurrence is kept, that occurrence is replaced, and the same scan resumes right after it |
| `JavaStrings.Trim` | service/src/java/org/apache/hive/service/cli/thrift/ThriftCLIServiceDelegator.java:180 | `trim` returns a slice of the string that neither starts nor ends with a character up to U+0020, with only such characters around it; it has length 0 exactly when every character of the string is at most U+0020 |
| `Configuration.Resolve` | service/src/java/org/apache/hive/service/cli/thrift/ThriftCLIServiceDelegator.java:120-130 | a setting is its environment variable if set, otherwise its configuration key, otherwise null |
| `Sessions.SessionManagerDelegator.constructor` | service/src/java/org/apache/hive/service/cli/session/SessionManagerDelegator.java:40-43 | a new registry is empty and every entry is filed under its own handle |
| `Sessions.SessionManagerDelegator.AddSession` | service/src/java/org/apache/hive/service/cli/session/SessionManagerDelegator.java:45-50 | after `addSession(u,p,ip,h)` the entry for `h` holds exactly those four fields, an earlier entry for `h` is overwritten, and every other handle's entry is unchanged |
| `Sessions.SessionManagerDelegator.GetSession` | service/src/java/org/apache/hive/service/cli/session/SessionManagerDelegator.java:52-58 | the lookup returns the entry for a registered handle, whose `remoteHandle` equals the key, and null for any other handle; the map is not changed |
| `Sessions.SessionManagerDelegator.RemoveSession` | service/src/java/org/apache/hive/service/cli/session/SessionManagerDelegator.java:60-64 | after removal the handle is absent, removing an absent handle changes nothing, and other handles are untouched |
| `Sessions.RegistryScenario` | service/src/java/org/apache/hive/service/cli/session/SessionManagerDelegator.java:45-64 | add, overwrite, look up, remove twice: the lookup sees the second entry, another handle sees null, and after removal the handle is null |
| `Auth.RemoteAccessControl.constructor` | service/src/java/org/apache/hive/service/auth/RemoteAccessControl.java:31-44 | the endpoint is the `MULTITENANT_ACL_URI` variable if set, otherwise `multitenant.acl.uri`; pass-through mode is on exactly when that value is `ignore` |
| `Auth.RemoteAccessControl.HasAccess` | service/src/java/org/apache/hive/service/auth/RemoteAccessControl.java:46-70 | access is allowed exactly in pass-through mode, for a known user with a null statement, or for a known user and statement that the service answers with 200; a query (endpoint, user, sql) is sent exactly when the mode and the arguments do not already decide |
| `Auth.BypassAllowsEverything` | service/src/java/org/apache/hive/service/auth/RemoteAccessControl.java:48-50 | in pass-through mode every user, null included, may run every statement, and no request is sent |
| `Auth.NullUserDenied` | service/src/java/org/apache/hive/service/auth/RemoteAccessControl.java:51-53 | outside pass-through mode a null user is refused without a request |
| `Auth.NullStatementAllowed` | service/src/java/org/apache/hive/service/auth/RemoteAccessControl.java:54-56 | outside pass-through mode a known user with a null statement is allowed without a request |
| `Auth.FailClosed` | service/src/java/org/apache/hive/service/auth/RemoteAccessControl.java:57-69 | once the service is consulted, only status 200 allows; any other status and any failure deny, and nothing is thrown |
| `Auth.DecisionIgnoresUnusedService` | service/src/java/org/apache/hive/service/auth/RemoteAccessControl.java:48-56 | when no request is sent, the decision does not depend on the service |
| `Delegator.GetIpAddress` | service/src/java/org/apache/hive/service/cli/thrift/ThriftCLIServiceDelegator.java:153-158 | the client address is the factory's whenever a factory exists, even a null one, and the handshake's only without a factory |
| `Delegator.ResolveUsername` | service/src/java/org/apache/hive/service/cli/thrift/ThriftCLIServiceDelegator.java:164-182 | the registered user is the instance name, or a non-blank name taken from the request, the handshake or the factory's remote user |
| `Delegator.AuthenticatedUserWins` | service/src/java/org/apache/hive/service/cli/thrift/ThriftCLIServiceDelegator.java:168-170 | the authentication factory's remote user, when present and not blank, is the registered user |
| `Delegator.HandshakeUserIsNext` | service/src/java/org/apache/hive/service/cli/thrift/ThriftCLIServiceDelegator.java:171-173 | without a remote user, `SessionManager.getUserName()` is used when not null and not blank |
| `Delegator.RequestedUserIsLast` | service/src/java/org/apache/hive/service/cli/thrift/ThriftCLIServiceDelegator.java:177-179 | when both earlier sources are null, a non-blank request user name is the registered user |
| `Delegator.EarlierSourceHidesRequest` | service/src/java/org/apache/hive/service/cli/thrift/ThriftCLIServiceDelegator.java:168-179 | when the remote user or the handshake user name is not null, the request's user name has no influence, and the result is that name or the instance name |
| `Delegator.BlankRemoteUserFallsBackToInstance` | service/src/java/org/apache/hive/service/cli/thrift/ThriftCLIServiceDelegator.java:168-181 | a blank remote user is not skipped: the instance name is used, whatever the other sources say |
| `Delegator.BlankChoiceFallsBackToInstance` | service/src/java/org/apache/hive/service/cli/thrift/ThriftCLIServiceDelegator.java:171-182 | a blank handshake user name is not skipped: the instance name is used even if the request has a name |
| `Delegator.ExecuteGate` | service/src/java/org/apache/hive/service/cli/thrift/ThriftCLIServiceDelegator.java:219-233 | only a registered session is ever forwarded; a policy request is made only for a registered session outside pass-through mode, and it carries the checker's endpoint, the session's own user and the rewritten statement |
| `Delegator.UnknownSessionIsDenied` | service/src/java/org/apache/hive/service/cli/thrift/ThriftCLIServiceDelegator.java:219-242 | an unregistered handle is refused for every statement without consulting the policy service |
| `Delegator.ForwardIsRewrittenAndApproved` | service/src/java/org/apache/hive/service/cli/thrift/ThriftCLIServiceDelegator.java:222-228 | a forwarded statement belongs to a registered session and equals `overwriteDatabase` of the original; outside pass-through mode it was approved with status 200 for that session's user and that rewritten statement, unless it is null |
| `Delegator.AnonymousSessionIsDenied` | service/src/java/org/apache/hive/service/cli/thrift/ThriftCLIServiceDelegator.java:226 | outside pass-through mode a session registered with a null user can run nothing |
| `Delegator.PolicyRefusalDenies` | service/src/java/org/apache/hive/service/cli/thrift/ThriftCLIServiceDelegator.java:226-232 | outside pass-through mode, when the service answers anything but 200 or fails, a registered session's statement is refused, with or without a restricted database |
| `Delegator.ApprovedIsForwarded` | service/src/java/org/apache/hive/service/cli/thrift/ThriftCLIServiceDelegator.java:222-228 | conversely, a registered session with a user name whose rewritten statement is null or is answered with status 200 is forwarded |
| `Delegator.BypassForwardsRegisteredSessions` | service/src/java/org/apache/hive/service/cli/thrift/ThriftCLIServiceDelegator.java:222-228 | in pass-through mode every registered session's rewritten statement is forwarded without a query |
| `Delegator.ThriftCLIServiceDelegator.constructor` | service/src/java/org/apache/hive/service/cli/thrift/ThriftCLIServiceDelegator.java:86-89 | a new service has an empty registry, is not started and has no backend connection or access checker yet |
| `Delegator.ThriftCLIServiceDelegator.Init` | service/src/java/org/apache/hive/service/cli/thrift/ThriftCLIServiceDelegator.java:92-133 | the access checker is built from the settings; the instance name and the restricted database are read from the environment first, then from the configuration |
| `Delegator.ThriftCLIServiceDelegator.Start` | service/src/java/org/apache/hive/service/cli/thrift/ThriftCLIServiceDelegator.java:136-142 | the listener is launched and `isStarted` set only when not started and not embedded, so a second start does nothing; this class launches at most one listener thread, and only while started |
| `Delegator.ThriftCLIServiceDelegator.Stop` | service/src/java/org/apache/hive/service/cli/thrift/ThriftCLIServiceDelegator.java:145-151 | the server is stopped and `isStarted` cleared only when started and not embedded, so a stop before start does nothing |
| `Delegator.LifecycleScenario` | service/src/java/org/apache/hive/service/cli/thrift/ThriftCLIServiceDelegator.java:136-151 | stop before start does nothing, two starts launch one listener (none when embedded), and a stop leaves the service not started |
| `Delegator.ThriftCLIServiceDelegator.OpenSession` | service/src/java/org/apache/hive/service/cli/thrift/ThriftCLIServiceDelegator.java:161-186 | the request goes to the backend once; exactly one entry is registered, under the response's handle, with the resolved user, the request's password and the caller's address; the backend's response is returned unchanged |
| `Delegator.ThriftCLIServiceDelegator.CloseSession` | service/src/java/org/apache/hive/service/cli/thrift/ThriftCLIServiceDelegator.java:189-191 | the close goes to the backend and its response is returned; the registry is left unchanged |
| `Delegator.ThriftCLIServiceDelegator.ExecuteStatement` | service/src/java/org/apache/hive/service/cli/thrift/ThriftCLIServiceDelegator.java:219-242 | when the gate forwards, the request's statement is replaced by the rewritten one, the request goes to the backend once, and the backend's response is returned unchanged; otherwise the request is untouched, the backend gets no call, and the response has status `ERROR_STATUS`, message "No permission to execute statement", SQL state "No permission" and error code 42000 |

## Left out

- `run()`: building the server socket, SSL keystore, worker pool and `HiveAuthFactory` is transport set-up. The factory it creates appears only as the optional `CallerContext.authFactory`.
- Opening the backend socket in `init`: `Init` takes an already connected `DelegateClient`. Resolving the host and port, parsing the port, and the degraded mode after a failed connection are not modelled.
- `super.init`, `super.start`, `super.stop`: `ThriftCLIService` and `AbstractService` are not part of this model.
- The other pass-through RPCs (`GetInfo`, `GetTypeInfo`, catalog and metadata calls, operation status, cancel and close, fetch, log, delegation tokens) forward their argument and return the answer. Only `CloseSession` is modelled, to show that it leaves the registry alone.
- Backend failures (`TException` from a forwarded call): the modelled backend always answers.
- `getProxyUser` is unused and depends on Hadoop shims and UGI calls.
- Concurrency: the `synchronized` blocks and methods, and the shared static fields `hiveAuthFactory` and `remoteAccessControl`. All operations are sequential, and the access checker is a field of the service.
- The Jersey HTTP client is the oracle. Releasing the `Response` is not modelled, and neither is Jersey's behaviour when no endpoint is configured (a null target URI): the model simply stores the null endpoint.
- Logging, including the audit records of `OpenSession` and `ExecuteStatement`.
- `toLowerCase` is modelled on ASCII letters only. `replace` is modelled only for a non-empty target; the source only uses `default`.
- `StatementRewrite.OverwriteDatabase`: a null statement with a restricted database set throws `NullPointerException` in the source. Here that is a precondition, and `ExecuteStatement` and `ExecuteGate` carry the matching precondition for a registered session.
- `Delegator.ThriftCLIServiceDelegator.OpenSession` and `CloseSession` require an initialised service. Before `init` the source dereferences a null delegate at lines 162 and 190 of `ThriftCLIServiceDelegator.java`.
- `Delegator.ThriftCLIServiceDelegator.ExecuteStatement` requires an initialised service too. In the source a call before `init` finds no session, since `OpenSession` fails at line 162 before it registers one. It gets `null` at line 221 and is answered with the denial of lines 234-241 without touching the delegate or the access checker. The model leaves that case out.
- `Delegator.ThriftCLIServiceDelegator.constructor` takes `isEmbedded` as a parameter. In the source the field is always `false` in this class (`ThriftCLIServiceDelegator.java:78`) and nothing assigns it. The parameter generalises the source so that the embedded branch of `start` and `stop` is covered too.
- `Delegator.ThriftCLIServiceDelegator.Stop` always stops the server and clears `isStarted` when started and not embedded. In the source, `server` is assigned only inside `run()`. If the first `run()` has not reached line 377 yet, or failed before it (a bad port or a missing keystore; `run()` catches every `Throwable`), `stop()` throws `NullPointerException` and `isStarted` stays set. `run()` is not modelled, so neither is that path.
- The denial's `TStatus` is built by setters in the source and by one constructor expression here. Unset optional Thrift fields are `None`; fields the proxy never touches are left out of the structures.
