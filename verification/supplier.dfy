/**
 * `SpringObjectSupplier`: the e4 extended object supplier that resolves
 * `@SpringInject` sites from the Spring application context of the
 * requesting bundle, and the Gemini Blueprint listener that keeps those
 * injections current. Each operation is one atomic step.
 */
module Supplier {
  import opened Wrappers
  import opened Values
  import opened Tracking
  import opened Locating
  import opened Lookup
  import opened Refresh

  /** The context `findApplicationContext` yields for `scope`: the cached one, else what the registry offers. */
  ghost function Resolved(cache: map<string, ApplicationContext>, registry: Registry, scope: string): Option<ApplicationContext> {
    if scope in cache then Some(cache[scope]) else Selected(registry(AppContextServiceName, Filter(scope)))
  }

  /** The cache after `findApplicationContext(scope)`: a located context is stored, nothing else changes. */
  ghost function CacheAfterFind(cache: map<string, ApplicationContext>, registry: Registry, scope: string): map<string, ApplicationContext> {
    var found := Resolved(cache, registry, scope);
    if scope !in cache && found.Some? then cache[scope := found.value] else cache
  }

  /** The locator calls `findApplicationContext(scope)` makes: one on a cache miss, none on a hit. */
  ghost function QueriesOfFind(cache: map<string, ApplicationContext>, scope: string): seq<Effect> {
    if scope in cache then [] else [LocatorQuery(scope)]
  }

  /**
   * After a lookup that found a context, the same lookup is a cache hit: it
   * yields the same context whatever the registry offers then, and makes no
   * locator call.
   */
  lemma FoundContextIsCached(cache: map<string, ApplicationContext>, registry: Registry, later: Registry, scope: string)
    requires Resolved(cache, registry, scope).Some?
    ensures Resolved(CacheAfterFind(cache, registry, scope), later, scope) == Resolved(cache, registry, scope)
    ensures QueriesOfFind(CacheAfterFind(cache, registry, scope), scope) == []
  {
  }

  /** A lookup that found nothing caches nothing, so the next lookup asks the registry again. */
  lemma MissIsNotCached(cache: map<string, ApplicationContext>, registry: Registry, scope: string)
    requires Resolved(cache, registry, scope).None?
    ensures CacheAfterFind(cache, registry, scope) == cache
    ensures QueriesOfFind(CacheAfterFind(cache, registry, scope), scope) == [LocatorQuery(scope)]
  {
  }

  class SpringObjectSupplier {
    /** Bundle symbolic name to the application context last located for it. */
    var cachedContexts: map<string, ApplicationContext>
    /** Bundle symbolic name to the requestors to re-inject when its context is refreshed. */
    var trackedRequestorsForBundle: map<string, seq<Requestor>>
    /** The calls made so far into the registry and into requestors. */
    ghost var trace: seq<Effect>

    ghost predicate Valid()
      reads this
    {
      NoEmptyLists(trackedRequestorsForBundle)
    }

    constructor ()
      ensures Valid()
      ensures cachedContexts == map[] && trackedRequestorsForBundle == map[] && trace == []
    {
      cachedContexts := map[];
      trackedRequestorsForBundle := map[];
      trace := [];
    }

    /**
     * `get`: find the requesting bundle, update the tracking, then locate
     * the context and pull the bean from it; null when there is no context.
     * The tracking update comes first in the trace, so it stands even when
     * the `getBean` call named by the answer throws afterwards.
     * `bundle` is the symbolic name of the bundle of the requesting class,
     * `None` when that class belongs to no bundle.
     */
    method Get(descriptor: Descriptor, requestor: Requestor, bundle: Option<string>, track: bool, group: bool, registry: Registry)
      returns (result: Result<Answer, GetError>)
      requires Valid()
      modifies this
      ensures Valid()
      ensures bundle.None? ==>
        && result == Failure(UnresolvableScope)
        && cachedContexts == old(cachedContexts)
        && trackedRequestorsForBundle == old(trackedRequestorsForBundle)
        && trace == old(trace)
      ensures bundle.Some? ==>
        && trackedRequestorsForBundle
           == (if track then Track(old(trackedRequestorsForBundle), bundle.value, requestor)
               else Untrack(old(trackedRequestorsForBundle), bundle.value, requestor))
        && cachedContexts == CacheAfterFind(old(cachedContexts), registry, bundle.value)
        && trace == old(trace) + [TrackingUpdate(bundle.value, requestor, track)] + QueriesOfFind(old(cachedContexts), bundle.value)
        && result == Success(
             match Resolved(old(cachedContexts), registry, bundle.value)
             case None => NullAnswer
             case Some(context) => GetFromContext(descriptor, context))
    {
      if bundle.None? {
        return Failure(UnresolvableScope);
      }
      var symbolicNameOfTargetBundle := bundle.value;
      SetUpTracking(symbolicNameOfTargetBundle, requestor, track);
      var applicationContext := FindApplicationContext(symbolicNameOfTargetBundle, registry);
      if applicationContext.Some? {
        return Success(GetFromContext(descriptor, applicationContext.value));
      }
      return Success(NullAnswer);
    }

    /** `setUpTracking`: track or untrack `requestor` for the bundle `symbolicName`. */
    method SetUpTracking(symbolicName: string, requestor: Requestor, track: bool)
      requires Valid()
      modifies this`trackedRequestorsForBundle, this`trace
      ensures Valid()
      ensures trace == old(trace) + [TrackingUpdate(symbolicName, requestor, track)]
      ensures track ==> trackedRequestorsForBundle == Track(old(trackedRequestorsForBundle), symbolicName, requestor)
      ensures !track ==> trackedRequestorsForBundle == Untrack(old(trackedRequestorsForBundle), symbolicName, requestor)
    {
      ghost var before := trackedRequestorsForBundle;
      trace := trace + [TrackingUpdate(symbolicName, requestor, track)];
      if track {
        if symbolicName !in trackedRequestorsForBundle {
          trackedRequestorsForBundle := trackedRequestorsForBundle[symbolicName := []];
        }
        var list := trackedRequestorsForBundle[symbolicName];
        assert list == RequestorsFor(before, symbolicName);
        trackedRequestorsForBundle := trackedRequestorsForBundle[symbolicName := list + [requestor]];
        assert trackedRequestorsForBundle == Track(before, symbolicName, requestor);
      } else {
        if symbolicName in trackedRequestorsForBundle {
          var list := RemoveFirst(trackedRequestorsForBundle[symbolicName], requestor);
          if list == [] {
            trackedRequestorsForBundle := trackedRequestorsForBundle - {symbolicName};
            assert trackedRequestorsForBundle == before - {symbolicName};
          } else {
            trackedRequestorsForBundle := trackedRequestorsForBundle[symbolicName := list];
            assert trackedRequestorsForBundle == before[symbolicName := list];
          }
        }
        assert trackedRequestorsForBundle == Untrack(before, symbolicName, requestor);
      }
    }

    /**
     * `findApplicationContext`: the cached context if there is one, without
     * asking the registry; otherwise the located one, cached when found.
     */
    method FindApplicationContext(symbolicName: string, registry: Registry) returns (applicationContext: Option<ApplicationContext>)
      modifies this`cachedContexts, this`trace
      ensures symbolicName in old(cachedContexts) ==>
        && applicationContext == Some(old(cachedContexts)[symbolicName])
        && cachedContexts == old(cachedContexts)
        && trace == old(trace)
      ensures symbolicName !in old(cachedContexts) ==>
        && applicationContext == Selected(registry(AppContextServiceName, Filter(symbolicName)))
        && cachedContexts == (if applicationContext.Some? then old(cachedContexts)[symbolicName := applicationContext.value]
                              else old(cachedContexts))
        && trace == old(trace) + [LocatorQuery(symbolicName)]
    {
      if symbolicName in cachedContexts {
        applicationContext := Some(cachedContexts[symbolicName]);
      } else {
        trace := trace + [LocatorQuery(symbolicName)];
        applicationContext := GetApplicationContextService(symbolicName, registry);
        if applicationContext.Some? {
          cachedContexts := cachedContexts[symbolicName := applicationContext.value];
        }
      }
    }

    /**
     * `onOsgiApplicationEvent`: a Refreshed event drops the bundle's cached
     * context and replays its tracked requestors that `isValid` accepts; a
     * Closed event only drops the cached context; other events do nothing.
     * `throws` tells which calls into a requestor raise an exception: the
     * loop catches nothing, so the first such call ends the replay and
     * `thrown` reports the exception leaving the listener, with the cached
     * context already dropped.
     */
    method OnOsgiApplicationEvent(event: ContextEvent, isValid: Requestor -> bool, throws: Effect -> bool)
      returns (thrown: bool)
      requires Valid()
      modifies this`cachedContexts, this`trace
      ensures Valid()
      ensures trackedRequestorsForBundle == old(trackedRequestorsForBundle)
      ensures cachedContexts == if event.kind.OtherEvent? then old(cachedContexts) else old(cachedContexts) - {event.bundle}
      ensures thrown == (event.kind.Refreshed? && Aborts(RequestorsFor(trackedRequestorsForBundle, event.bundle), isValid, throws))
      ensures trace == if event.kind.Refreshed?
                       then old(trace) + Attempted(RequestorsFor(trackedRequestorsForBundle, event.bundle), isValid, throws)
                       else old(trace)
    {
      thrown := false;
      var refreshedBundleName := event.bundle;
      if event.kind.Refreshed? {
        cachedContexts := cachedContexts - {refreshedBundleName};
        if refreshedBundleName in trackedRequestorsForBundle {
          var list := trackedRequestorsForBundle[refreshedBundleName];
          thrown := ReplayRequestors(list, isValid, throws);
        } else {
          CompletesWithoutThrow([], isValid, throws);
        }
      } else if event.kind.Closed? {
        cachedContexts := cachedContexts - {refreshedBundleName};
      }
    }

    /**
     * The loop of `onOsgiApplicationEvent` over a bundle's tracked list:
     * each valid requestor gets `resolveArguments(false)` and then is
     * executed; the first call that throws ends the loop.
     */
    method ReplayRequestors(list: seq<Requestor>, isValid: Requestor -> bool, throws: Effect -> bool) returns (thrown: bool)
      modifies this`trace
      ensures thrown == Aborts(list, isValid, throws)
      ensures trace == old(trace) + Attempted(list, isValid, throws)
    {
      thrown := false;
      var i := 0;
      while i < |list|
        invariant 0 <= i <= |list|
        invariant trace == old(trace) + Replay(list[..i], isValid)
        invariant FirstThrowing(Replay(list[..i], isValid), throws) == |Replay(list[..i], isValid)|
      {
        thrown := ReplayOne(old(trace), list, isValid, throws, i);
        if thrown {
          return;
        }
        i := i + 1;
      }
      assert list[..|list|] == list;
      CompletesWithoutThrow(list, isValid, throws);
    }

    /**
     * One pass of that loop, for `list[i]` after the earlier requestors
     * were replayed without an exception: a valid requestor gets
     * `resolveArguments(false)` and `execute()`, unless one of them throws.
     */
    method ReplayOne(ghost start: seq<Effect>, list: seq<Requestor>, isValid: Requestor -> bool, throws: Effect -> bool, i: nat)
      returns (thrown: bool)
      requires i < |list|
      requires trace == start + Replay(list[..i], isValid)
      requires FirstThrowing(Replay(list[..i], isValid), throws) == |Replay(list[..i], isValid)|
      modifies this`trace
      ensures thrown ==> Aborts(list, isValid, throws) && trace == start + Attempted(list, isValid, throws)
      ensures !thrown ==>
        && trace == start + Replay(list[..i + 1], isValid)
        && FirstThrowing(Replay(list[..i + 1], isValid), throws) == |Replay(list[..i + 1], isValid)|
    {
      var requestor := list[i];
      ReplayExtend(list, isValid, i);
      if isValid(requestor) {
        trace := trace + [ResolveArguments(requestor, false)];
        if throws(ResolveArguments(requestor, false)) {
          assert Aborts(list, isValid, throws) && trace == start + Attempted(list, isValid, throws) by {
            StopsAt(list, isValid, throws, i, 1);
            assert Step(requestor, isValid)[..1] == [ResolveArguments(requestor, false)];
          }
          return true;
        }
        trace := trace + [Execute(requestor)];
        if throws(Execute(requestor)) {
          assert Aborts(list, isValid, throws) && trace == start + Attempted(list, isValid, throws) by {
            StopsAt(list, isValid, throws, i, 2);
            assert Step(requestor, isValid)[..2] == [ResolveArguments(requestor, false), Execute(requestor)];
          }
          return true;
        }
      }
      NoThrowExtend(list, isValid, throws, i);
      return false;
    }
  }
}
