/**
 * The session registry: a map from the backend's session handle to the
 * identity captured when the session was opened.
 */
module Sessions {
  import opened Wrappers
  import opened Thrift

  /** `HashMap` accepts a null key, so a missing handle is a key like any other. */
  type HandleKey = Option<TSessionHandle>

  datatype SessionInfo = SessionInfo(
    username: Option<string>,
    password: Option<string>,
    ip: Option<string>,
    remoteHandle: HandleKey)

  class SessionManagerDelegator {
    var handleToSession: map<HandleKey, SessionInfo>

    /** Every entry is filed under its own remote handle. */
    ghost predicate Valid()
      reads this
    {
      forall h :: h in handleToSession ==> handleToSession[h].remoteHandle == h
    }

    constructor ()
      ensures Valid() && handleToSession == map[]
    {
      handleToSession := map[];
    }

    /** Registers the identity for `remoteHandle`, silently replacing any previous entry. */
    method AddSession(username: Option<string>, password: Option<string>, ip: Option<string>,
                      remoteHandle: HandleKey)
      requires Valid()
      modifies this
      ensures Valid()
      ensures handleToSession == old(handleToSession)[remoteHandle := SessionInfo(username, password, ip, remoteHandle)]
      ensures forall h :: h != remoteHandle ==>
                (h in handleToSession <==> h in old(handleToSession)) &&
                (h in handleToSession ==> handleToSession[h] == old(handleToSession)[h])
    {
      var info := SessionInfo(username, password, ip, remoteHandle);
      handleToSession := handleToSession[remoteHandle := info];
    }

    /** The registered identity, or null for a handle that is not registered. */
    method GetSession(remoteHandle: HandleKey) returns (info: Option<SessionInfo>)
      requires Valid()
      ensures info.Some? <==> remoteHandle in handleToSession
      ensures info.Some? ==> info.value == handleToSession[remoteHandle]
      ensures info.Some? ==> info.value.remoteHandle == remoteHandle
    {
      info := None;
      if remoteHandle in handleToSession {
        info := Some(handleToSession[remoteHandle]);
      }
    }

    /** Deregisters `remoteHandle`; removing an absent handle changes nothing. */
    method RemoveSession(remoteHandle: HandleKey)
      requires Valid()
      modifies this
      ensures Valid()
      ensures handleToSession == old(handleToSession) - {remoteHandle}
      ensures remoteHandle !in old(handleToSession) ==> handleToSession == old(handleToSession)
      ensures forall h :: h != remoteHandle ==>
                (h in handleToSession <==> h in old(handleToSession)) &&
                (h in handleToSession ==> handleToSession[h] == old(handleToSession)[h])
    {
      handleToSession := handleToSession - {remoteHandle};
    }
  }

  /**
   * A client of the registry: register, overwrite, look up, remove twice,
   * look up again. The answers follow from the contracts above alone.
   */
  method RegistryScenario(h: HandleKey, other: HandleKey, first: SessionInfo, second: SessionInfo)
    returns (afterOverwrite: Option<SessionInfo>, otherLookup: Option<SessionInfo>, afterRemove: Option<SessionInfo>)
    requires h != other
    ensures afterOverwrite == Some(SessionInfo(second.username, second.password, second.ip, h))
    ensures otherLookup == None
    ensures afterRemove == None
  {
    var registry := new SessionManagerDelegator();
    registry.AddSession(first.username, first.password, first.ip, h);
    registry.AddSession(second.username, second.password, second.ip, h);
    afterOverwrite := registry.GetSession(h);
    otherLookup := registry.GetSession(other);
    registry.RemoveSession(h);
    registry.RemoveSession(h);
    afterRemove := registry.GetSession(h);
  }
}
