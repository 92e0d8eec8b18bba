/**
 * Clients of the supplier: what a sequence of injections and context
 * events yields, derived from the operations' contracts alone.
 */
module Scenarios {
  import opened Wrappers
  import opened Values
  import opened Locating
  import opened Lookup
  import opened Tracking
  import opened Refresh
  import opened Supplier

  /** Before any context is published for `scope`, `get` answers null and caches nothing. */
  method UnpublishedContextGivesNull(registry: Registry, scope: string, descriptor: Descriptor, requestor: Requestor)
    returns (answer: Result<Answer, GetError>, cached: bool)
    requires var q := registry(AppContextServiceName, Filter(scope)); !(q.Refs? && |q.refs| > 0)
    ensures answer == Success(NullAnswer)
    ensures !cached
  {
    var supplier := new SpringObjectSupplier();
    answer := supplier.Get(descriptor, requestor, Some(scope), false, false, registry);
    cached := scope in supplier.cachedContexts;
  }

  /**
   * With one context published, a named bean is taken from it, and a second
   * identical request is served from the cache: the registry is asked once,
   * after the first tracking update and before the second.
   */
  method SecondRequestIsCacheHit(registry: Registry, scope: string, ref: ServiceRef, requestor: Requestor)
    returns (first: Result<Answer, GetError>, second: Result<Answer, GetError>, ghost calls: seq<Effect>)
    requires registry(AppContextServiceName, Filter(scope)) == Refs([ref])
    ensures first == second == Success(BeanNamed(ref.service, "foo"))
    ensures calls == [TrackingUpdate(scope, requestor, false), LocatorQuery(scope), TrackingUpdate(scope, requestor, false)]
  {
    SelectedSingle(ref);
    var descriptor := Descriptor("foo", OtherType);
    var supplier := new SpringObjectSupplier();
    first := supplier.Get(descriptor, requestor, Some(scope), false, false, registry);
    second := supplier.Get(descriptor, requestor, Some(scope), false, false, registry);
    calls := supplier.trace;
  }

  /**
   * Once cached, a context keeps being used whatever the registry offers,
   * until a Refreshed event drops it; the next request then locates anew.
   */
  method RefreshForcesRelocate(before: Registry, after: Registry, scope: string, published: ServiceRef, republished: ServiceRef, requestor: Requestor, isValid: Requestor -> bool)
    returns (first: Result<Answer, GetError>, stale: Result<Answer, GetError>, relocated: Result<Answer, GetError>)
    requires before(AppContextServiceName, Filter(scope)) == Refs([published])
    requires after(AppContextServiceName, Filter(scope)) == Refs([republished])
    ensures first == stale == Success(BeanOfType(published.service, "Service"))
    ensures relocated == Success(BeanOfType(republished.service, "Service"))
  {
    SelectedSingle(published);
    SelectedSingle(republished);
    DefaultNameLooksUpByType(ClassType("Service"), published.service);
    DefaultNameLooksUpByType(ClassType("Service"), republished.service);
    var descriptor := Descriptor(DefaultBeanName, ClassType("Service"));
    var supplier := new SpringObjectSupplier();
    first := supplier.Get(descriptor, requestor, Some(scope), false, false, before);
    stale := supplier.Get(descriptor, requestor, Some(scope), false, false, after);
    var _ := supplier.OnOsgiApplicationEvent(ContextEvent(Refreshed, scope), isValid, e => false);
    relocated := supplier.Get(descriptor, requestor, Some(scope), false, false, after);
  }

  /** One injection with tracking on leaves the requestor tracked for the bundle and the published context cached. */
  method TrackOne(registry: Registry, scope: string, ref: ServiceRef, descriptor: Descriptor, requestor: Requestor)
    returns (supplier: SpringObjectSupplier)
    requires registry(AppContextServiceName, Filter(scope)) == Refs([ref])
    ensures fresh(supplier) && supplier.Valid()
    ensures supplier.trackedRequestorsForBundle == map[scope := [requestor]]
    ensures supplier.cachedContexts == map[scope := ref.service]
  {
    SelectedSingle(ref);
    supplier := new SpringObjectSupplier();
    var _ := supplier.Get(descriptor, requestor, Some(scope), true, false, registry);
  }

  /** A tracked, valid requestor gets `resolveArguments(false)` and `execute()` exactly once per refresh. */
  method RefreshReplaysTrackedRequestor(registry: Registry, scope: string, ref: ServiceRef, descriptor: Descriptor, requestor: Requestor, isValid: Requestor -> bool)
    returns (ghost calls: seq<Effect>, thrown: bool)
    requires registry(AppContextServiceName, Filter(scope)) == Refs([ref])
    requires isValid(requestor)
    ensures calls == [ResolveArguments(requestor, false), Execute(requestor)]
    ensures !thrown
  {
    var supplier := TrackOne(registry, scope, ref, descriptor, requestor);
    ghost var mark := |supplier.trace|;
    var throws := (e: Effect) => false;
    assert Replay([requestor], isValid) == [ResolveArguments(requestor, false), Execute(requestor)] by {
      assert [requestor][..0] == [];
    }
    CompletesWithoutThrow([requestor], isValid, throws);
    thrown := supplier.OnOsgiApplicationEvent(ContextEvent(Refreshed, scope), isValid, throws);
    calls := supplier.trace[mark..];
  }

  /** Two injections with tracking on leave both requestors tracked for the bundle, in request order. */
  method TrackBoth(registry: Registry, scope: string, ref: ServiceRef, descriptor: Descriptor, first: Requestor, second: Requestor)
    returns (supplier: SpringObjectSupplier)
    requires registry(AppContextServiceName, Filter(scope)) == Refs([ref])
    ensures fresh(supplier) && supplier.Valid()
    ensures supplier.trackedRequestorsForBundle == map[scope := [first, second]]
    ensures supplier.cachedContexts == map[scope := ref.service]
  {
    supplier := TrackOne(registry, scope, ref, descriptor, first);
    var _ := supplier.Get(descriptor, second, Some(scope), true, false, registry);
    assert RequestorsFor(map[scope := [first]], scope) == [first];
    assert [first] + [second] == [first, second];
  }

  /**
   * Two requestors are tracked and the first one's execution throws: the
   * exception leaves the listener, the second requestor is never replayed,
   * and the cached context is gone all the same.
   */
  method ThrowingRequestorStopsReplay(registry: Registry, scope: string, ref: ServiceRef, descriptor: Descriptor, first: Requestor, second: Requestor)
    returns (ghost calls: seq<Effect>, thrown: bool, cachedBefore: bool, cachedAfter: bool)
    requires registry(AppContextServiceName, Filter(scope)) == Refs([ref])
    requires first != second
    ensures calls == [ResolveArguments(first, false), Execute(first)]
    ensures thrown && cachedBefore && !cachedAfter
  {
    var supplier := TrackBoth(registry, scope, ref, descriptor, first, second);
    cachedBefore := scope in supplier.cachedContexts;
    ghost var mark := |supplier.trace|;
    var throws := (e: Effect) => e == Execute(first);
    var isValid := (r: Requestor) => true;
    assert Step(first, isValid)[..2] == [ResolveArguments(first, false), Execute(first)];
    StopsAt([first, second], isValid, throws, 0, 2);
    thrown := supplier.OnOsgiApplicationEvent(ContextEvent(Refreshed, scope), isValid, throws);
    calls := supplier.trace[mark..];
    cachedAfter := scope in supplier.cachedContexts;
  }

  /** A requestor that stopped tracking is left alone by the next refresh. */
  method UntrackedRequestorIsNotReplayed(registry: Registry, scope: string, descriptor: Descriptor, requestor: Requestor, isValid: Requestor -> bool)
    returns (ghost calls: seq<Effect>, tracked: bool)
    ensures calls == []
    ensures !tracked
  {
    var supplier := new SpringObjectSupplier();
    var _ := supplier.Get(descriptor, requestor, Some(scope), true, false, registry);
    var _ := supplier.Get(descriptor, requestor, Some(scope), false, false, registry);
    ghost var mark := |supplier.trace|;
    var _ := supplier.OnOsgiApplicationEvent(ContextEvent(Refreshed, scope), isValid, e => false);
    calls := supplier.trace[mark..];
    tracked := scope in supplier.trackedRequestorsForBundle;
  }

  /** A Closed event drops the cached context and replays nobody, even with requestors tracked. */
  method CloseOnlyInvalidates(registry: Registry, scope: string, ref: ServiceRef, descriptor: Descriptor, requestor: Requestor, isValid: Requestor -> bool)
    returns (ghost calls: seq<Effect>, cachedBefore: bool, cachedAfter: bool, stillTracked: bool)
    requires registry(AppContextServiceName, Filter(scope)) == Refs([ref])
    ensures calls == []
    ensures cachedBefore && !cachedAfter && stillTracked
  {
    SelectedSingle(ref);
    var supplier := new SpringObjectSupplier();
    var _ := supplier.Get(descriptor, requestor, Some(scope), true, false, registry);
    cachedBefore := scope in supplier.cachedContexts;
    ghost var mark := |supplier.trace|;
    var _ := supplier.OnOsgiApplicationEvent(ContextEvent(Closed, scope), isValid, e => false);
    calls := supplier.trace[mark..];
    cachedAfter := scope in supplier.cachedContexts;
    stillTracked := scope in supplier.trackedRequestorsForBundle;
  }
}
