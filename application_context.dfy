/**
 * ApplicationContext: the registry of open namespaces, mapping each namespace name to its
 * ServiceBusManager, with a "current" namespace and manager that the UI works on.
 */
module Config {
  import opened Wrappers
  import opened ServiceBus

  /** The manager registered under `ns`, or None (Java's `managers.get(ns)`, null when absent). */
  function Lookup(managers: map<string, ServiceBusManager>, ns: string): (r: Option<ServiceBusManager>)
    ensures r.Some? <==> ns in managers
    ensures r.Some? ==> r.value == managers[ns]
  {
    if ns in managers then Some(managers[ns]) else None
  }

  class ApplicationContext {
    var managers: map<string, ServiceBusManager>
    var currentManager: Option<ServiceBusManager>
    var currentNamespace: Option<string>
    var style: string

    /** The current manager is always the one registered under the current namespace. */
    ghost predicate Valid()
      reads this
    {
      currentManager == if currentNamespace.None? then None else Lookup(managers, currentNamespace.value)
    }

    constructor ()
      ensures managers == map[] && currentManager == None && currentNamespace == None
      ensures style == "none"
      ensures Valid()
    {
      managers := map[];
      currentManager := None;
      currentNamespace := None;
      style := "none";
    }

    /**
     * registerManager: open a manager on the connection string, store it under the namespace its
     * administration client reports (replacing, without closing, any earlier manager there) and
     * make it current. The reported namespace is a parameter.
     */
    method RegisterManager(connectionString: string, namespace: string) returns (manager: ServiceBusManager)
      requires Valid()
      modifies this
      ensures Valid()
      ensures fresh(manager) && manager.namespace == namespace && manager.connectionString == connectionString
      ensures manager.Valid()
      ensures managers == old(managers)[namespace := manager]
      ensures currentManager == Some(manager) && currentNamespace == Some(namespace)
      ensures style == old(style)
    {
      manager := new ServiceBusManager(connectionString, namespace);
      managers := managers[manager.namespace := manager];
      SelectNamespace(manager.namespace);
    }

    /** selectNamespace: the namespace always becomes current; the current manager is the one
      * registered under it, or none when it is unknown. */
    method SelectNamespace(namespace: string)
      modifies this
      ensures Valid()
      ensures currentNamespace == Some(namespace)
      ensures currentManager == Lookup(managers, namespace)
      ensures managers == old(managers) && style == old(style)
    {
      currentNamespace := Some(namespace);
      currentManager := Lookup(managers, namespace);
    }

    /** managers(): a snapshot of the registry. */
    method Managers() returns (snapshot: map<string, ServiceBusManager>)
      ensures snapshot == managers
    {
      snapshot := managers;
    }

    method SetStyle(s: string)
      modifies this
      ensures style == s
      ensures managers == old(managers) && currentManager == old(currentManager)
      ensures currentNamespace == old(currentNamespace)
    {
      style := s;
    }
  }

  /** A snapshot taken before a registration does not see it, and every other namespace keeps its
    * manager. */
  method SnapshotUnchangedByRegister(ctx: ApplicationContext, connectionString: string, namespace: string)
    returns (snapshot: map<string, ServiceBusManager>, manager: ServiceBusManager)
    requires ctx.Valid()
    modifies ctx
    ensures snapshot == old(ctx.managers)
    ensures namespace in ctx.managers && ctx.managers[namespace] == manager
    ensures forall ns :: ns in snapshot && ns != namespace ==> ns in ctx.managers && ctx.managers[ns] == snapshot[ns]
    ensures namespace in snapshot ==> snapshot[namespace] != manager
  {
    snapshot := ctx.Managers();
    manager := ctx.RegisterManager(connectionString, namespace);
  }

  /** Switching between namespaces never drops a registered manager, and switching back restores
    * the same current manager. */
  method SelectRoundTrip(ctx: ApplicationContext, a: string, b: string)
    requires ctx.Valid()
    requires ctx.currentNamespace == Some(a)
    modifies ctx
    ensures ctx.managers == old(ctx.managers)
    ensures ctx.currentManager == old(ctx.currentManager) && ctx.currentNamespace == Some(a)
  {
    ctx.SelectNamespace(b);
    ctx.SelectNamespace(a);
  }
}
