/**
 * Every setting of the proxy is read from an environment variable first and
 * from the Hive configuration second (`System.getenv` and `HiveConf.get`
 * both answer null for a missing name).
 */
module Configuration {
  import opened Wrappers

  datatype Settings = Settings(environment: map<string, string>, configuration: map<string, string>)

  const InstanceVariable := "MULTITENANT_INSTANCE"
  const InstanceKey := "multitenant.instance"
  const DatabaseVariable := "MULTITENANT_DATABASE"
  const DatabaseKey := "multitenant.database"
  const AclUriVariable := "MULTITENANT_ACL_URI"
  const AclUriKey := "multitenant.acl.uri"

  /** The environment variable if it is set, else the configuration key, else null. */
  function Resolve(settings: Settings, variable: string, key: string): (r: Option<string>)
    ensures variable in settings.environment ==> r == Some(settings.environment[variable])
    ensures variable !in settings.environment && key in settings.configuration ==>
              r == Some(settings.configuration[key])
    ensures r.None? <==> variable !in settings.environment && key !in settings.configuration
  {
    if variable in settings.environment then Some(settings.environment[variable])
    else if key in settings.configuration then Some(settings.configuration[key])
    else None
  }
}
