# e4springdi object supplier, modelled in Dafny

This project models `SpringObjectSupplier`, the bridge between the Eclipse 4 injector and the Spring application contexts that Gemini Blueprint publishes in the OSGi service registry. An injection site marked `@SpringInject` asks the supplier for a value. The supplier then does four things:

- It works out the symbolic name of the requesting bundle.
- It records whether the requestor wants to be re-injected later (the *tracked* requestors).
- It finds that bundle's application context. It uses a cache first and, on a miss, queries the registry with the filter `(org.springframework.context.service.name=<bundle>)`.
- It takes the bean from the context, by name or by type.

As a listener for context events, the supplier also keeps the cache current. A Refreshed event drops the bundle's cached context and re-injects every tracked requestor that is still valid. A Closed event only drops the cached context.

Modules:

- `Values` (values.dfy): the exchanged values (contexts, requestors, descriptors, service references, query outcomes, events, recorded effects).
- `JavaString` (javastring.dfy): `String.trim`.
- `Tracking` (tracking.dfy): the tracked-requestor map (append, remove first occurrence, drop empty entries).
- `Locating` (locating.dfy): the filter string, the `ServiceReference` ordering, the reverse sort and the choice of the greatest reference.
- `Lookup` (lookup.dfy): the name/type/null decision of `getFromContext`.
- `Refresh` (refresh.dfy): the calls a refresh replay makes, and where an exception stops it.
- `Supplier` (supplier.dfy): the class with its two maps.
- `Scenarios` (scenarios.dfy): clients that chain calls and events.

The registry is a parameter: a function from (service class name, filter) to the query outcome. That outcome is an array of references, a null array, or `InvalidSyntaxException`. A requestor's `isValid` is a parameter of the event handler, and so is `throws`, which says which calls into a requestor raise an exception. A ghost trace records, in order, every tracking update and every call to the locator, to `resolveArguments` and to `execute`.

Behaviour of the code worth knowing:

- The `InvalidSyntaxException` of the registry query is swallowed: its catch block says it should not happen. So a filter the registry rejects gives no context, and `get` answers null.
- The tracked requestors of a bundle are kept in a list, so a requestor tracked twice appears twice, and untracking removes only its first occurrence.
- `get` also answers null when a context exists but the bean name is blank and the desired type is not a `Class`. So a null answer does not always mean that no context was found; it does for descriptors that name a bean or a class.
- `get` updates the tracking before it locates the context. The tracking update therefore stands even when locating the context or the `getBean` call fails afterwards.
- The replay loop of the Refreshed handler catches nothing. The first `resolveArguments` or `execute` that throws ends the replay: later requestors are not replayed, and the exception leaves the listener after the bundle's cached context was already dropped.
- Several references are ordered by `ServiceReference.compareTo` as the OSGi core specification defines it. A higher ranking is greater. Under equal rankings, the lower service id (registered earlier) is greater.

## Model

| member | source | states |
|---|---|---|
| `JavaString.TrimStart` | springDM/de.oose.e4springdi/src/de/oose/e4springdi/internal/SpringObjectSupplier.java:141 | the result is a suffix of the input, starts with a non-trimmable character or is empty, and only trimmable characters were removed |
| `JavaString.TrimEnd` | springDM/de.oose.e4springdi/src/de/oose/e4springdi/internal/SpringObjectSupplier.java:141 | the result is a prefix of the input, ends with a non-trimmable character or is empty, and only trimmable characters were removed |
| `JavaString.TrimEmptyIffBlank` | springDM/de.oose.e4springdi/src/de/oose/e4springdi/internal/SpringObjectSupplier.java:141 | `trim().isEmpty()` holds exactly when every character is at most U+0020 (both directions) |
| `Tracking.RemoveFirst` | springDM/de.oose.e4springdi/src/de/oose/e4springdi/internal/SpringObjectSupplier.java:78 | `List.remove`: an absent requestor leaves the list unchanged; otherwise the list is one shorter and its multiset loses exactly one copy of the requestor |
| `Tracking.RemoveFirstAt` | springDM/de.oose.e4springdi/src/de/oose/e4springdi/internal/SpringObjectSupplier.java:78 | removal cuts the list exactly at the first position holding the requestor, and order is kept |
| `Tracking.RemoveFirstOfAppended` | springDM/de.oose.e4springdi/src/de/oose/e4springdi/internal/SpringObjectSupplier.java:72-78 | removing a requestor that was just appended (and was not present before) restores the list |
| `Tracking.Track` | springDM/de.oose.e4springdi/src/de/oose/e4springdi/internal/SpringObjectSupplier.java:65-72 | tracking appends the requestor at the end of the scope's list (duplicates allowed) and creates a one-element list for a new scope; every other scope is unchanged; "no scope maps to an empty list" is preserved |
| `Tracking.Untrack` | springDM/de.oose.e4springdi/src/de/oose/e4springdi/internal/SpringObjectSupplier.java:73-83 | untracking removes the first occurrence; the scope key goes when its list becomes empty; it is a no-op for an untracked scope; other scopes are unchanged; "no empty list" is preserved |
| `Tracking.TrackThenUntrack` | springDM/de.oose.e4springdi/src/de/oose/e4springdi/internal/SpringObjectSupplier.java:63-84 | tracking a requestor not yet tracked for a scope and then untracking it leaves the whole map as it was |
| `Tracking.UntrackLastOccurrence` | springDM/de.oose.e4springdi/src/de/oose/e4springdi/internal/SpringObjectSupplier.java:73-83 | a requestor tracked once for a scope is no longer tracked there after untracking |
| `Locating.Filter` | springDM/de.oose.e4springdi/src/de/oose/e4springdi/internal/SpringObjectSupplier.java:110-111 | the filter is `(` + property + `=` + name + `)`, with the name unescaped: reading the value back out of it gives exactly the name |
| `Locating.FilterValueSound` | springDM/de.oose.e4springdi/src/de/oose/e4springdi/internal/SpringObjectSupplier.java:110-111 | every string of the filter's shape is the filter of its value, so building and reading are inverse |
| `Locating.FilterInjective` | springDM/de.oose.e4springdi/src/de/oose/e4springdi/internal/SpringObjectSupplier.java:110-111 | distinct bundle names give distinct filters |
| `Locating.InsertDesc` | springDM/de.oose.e4springdi/src/de/oose/e4springdi/internal/SpringObjectSupplier.java:121 | insertion adds exactly one copy of the element to the multiset |
| `Locating.InsertDescSorted` | springDM/de.oose.e4springdi/src/de/oose/e4springdi/internal/SpringObjectSupplier.java:121 | inserting into a list sorted greatest-first keeps it sorted greatest-first |
| `Locating.SortDesc` | springDM/de.oose.e4springdi/src/de/oose/e4springdi/internal/SpringObjectSupplier.java:121 | the sort under `Collections.reverseOrder()` gives a permutation of the references, greatest first |
| `Locating.ReverseSort` | springDM/de.oose.e4springdi/src/de/oose/e4springdi/internal/SpringObjectSupplier.java:121 | sorting the array in place leaves it sorted greatest-first and a permutation of its old contents |
| `Locating.Best` | springDM/de.oose.e4springdi/src/de/oose/e4springdi/internal/SpringObjectSupplier.java:120-125 | the first reference after the reverse sort is one of the references and no reference is above it |
| `Locating.Selected` | springDM/de.oose.e4springdi/src/de/oose/e4springdi/internal/SpringObjectSupplier.java:113-132 | a context is chosen exactly when the registry returned a non-empty array; a null array and a rejected filter both give none; the chosen context is the service of a greatest reference |
| `Locating.SelectedSingle` | springDM/de.oose.e4springdi/src/de/oose/e4springdi/internal/SpringObjectSupplier.java:115-125 | a single reference is used as it is |
| `Locating.SelectedIgnoresOrder` | springDM/de.oose.e4springdi/src/de/oose/e4springdi/internal/SpringObjectSupplier.java:113-125 | with distinct service ids the choice depends only on which references are returned, not on their order |
| `Locating.GetApplicationContextService` | springDM/de.oose.e4springdi/src/de/oose/e4springdi/internal/SpringObjectSupplier.java:104-133 | the method queries with exactly `Filter(name)` under the ApplicationContext class name, sorts several references in place, and returns what `Selected` prescribes; a filter the registry rejects gives no context instead of an exception |
| `Lookup.GetFromContext` | springDM/de.oose.e4springdi/src/de/oose/e4springdi/internal/SpringObjectSupplier.java:135-152 | a non-blank bean name means lookup by that untrimmed name; otherwise a `Class` type means lookup by type; otherwise null; each case holds exactly under its condition |
| `Lookup.DefaultNameLooksUpByType` | springDM/de.oose.e4springdi/src/de/oose/e4springdi/internal/SpringObjectSupplier.java:138-149 | with the annotation's default bean name `""`, the lookup goes by type, or is null when the type is not a class |
| `Refresh.Replay` | springDM/de.oose.e4springdi/src/de/oose/e4springdi/internal/SpringObjectSupplier.java:165-172 | the full replay makes two calls per valid requestor |
| `Refresh.ReplayAt` | springDM/de.oose.e4springdi/src/de/oose/e4springdi/internal/SpringObjectSupplier.java:166-170 | each valid requestor gets `resolveArguments(false)` and right after it `execute()`, after all earlier valid requestors, in list order |
| `Refresh.ReplayCallsAreValid` | springDM/de.oose.e4springdi/src/de/oose/e4springdi/internal/SpringObjectSupplier.java:165-172 | the replay calls only `resolveArguments` and `execute`, and only on tracked requestors that are valid |
| `Refresh.ReplaySkips` | springDM/de.oose.e4springdi/src/de/oose/e4springdi/internal/SpringObjectSupplier.java:166-170 | an invalid or untracked requestor takes part in no call |
| `Refresh.ReplayPrefix` | springDM/de.oose.e4springdi/src/de/oose/e4springdi/internal/SpringObjectSupplier.java:165-172 | replaying the first requestors of the list gives a prefix of the replay of the whole list |
| `Refresh.FirstThrowing` | springDM/de.oose.e4springdi/src/de/oose/e4springdi/internal/SpringObjectSupplier.java:166-170 | the position found is that of a throwing call with no throwing call before it, or the end when no call throws |
| `Refresh.FirstThrowingAppend` | springDM/de.oose.e4springdi/src/de/oose/e4springdi/internal/SpringObjectSupplier.java:166-170 | calls appended after a run that does not throw are searched from where that run ends |
| `Refresh.Attempted` | springDM/de.oose.e4springdi/src/de/oose/e4springdi/internal/SpringObjectSupplier.java:165-172 | the calls actually made are a prefix of the full replay; no call before the last one throws; when some call throws, the last call made is the first one that throws; otherwise every call is made |
| `Refresh.CompletesWithoutThrow` | springDM/de.oose.e4springdi/src/de/oose/e4springdi/internal/SpringObjectSupplier.java:165-172 | a replay in which no call throws makes every call of the full replay |
| `Refresh.NoThrowExtend` | springDM/de.oose.e4springdi/src/de/oose/e4springdi/internal/SpringObjectSupplier.java:165-172 | a replay with no exception so far still has none after a requestor whose calls do not throw |
| `Refresh.StopsAt` | springDM/de.oose.e4springdi/src/de/oose/e4springdi/internal/SpringObjectSupplier.java:166-170 | when the earlier requestors were replayed without an exception and the first or second call on a valid requestor throws, the replay aborts with exactly the calls up to and including that one |
| `Supplier.FoundContextIsCached` | springDM/de.oose.e4springdi/src/de/oose/e4springdi/internal/SpringObjectSupplier.java:87-102 | after a lookup that found a context, the next lookup returns the same context whatever the registry offers, and makes no locator call |
| `Supplier.MissIsNotCached` | springDM/de.oose.e4springdi/src/de/oose/e4springdi/internal/SpringObjectSupplier.java:93-99 | a lookup that finds nothing leaves the cache unchanged, so the next lookup asks the registry again |
| `Supplier.SpringObjectSupplier.constructor` | springDM/de.oose.e4springdi/src/de/oose/e4springdi/internal/SpringObjectSupplier.java:39-40 | both maps start empty |
| `Supplier.SpringObjectSupplier.Get` | springDM/de.oose.e4springdi/src/de/oose/e4springdi/internal/SpringObjectSupplier.java:42-58 | a class without a bundle fails with no state change; otherwise the tracking update is recorded first, then the locator call of a cache miss; the context is found through the cache, and the answer is null when there is no context or else the bean lookup `GetFromContext` decides |
| `Supplier.SpringObjectSupplier.SetUpTracking` | springDM/de.oose.e4springdi/src/de/oose/e4springdi/internal/SpringObjectSupplier.java:63-84 | the tracked map becomes `Track` or `Untrack` of the old map, the update is recorded in the trace, and "no scope maps to an empty list" is preserved |
| `Supplier.SpringObjectSupplier.FindApplicationContext` | springDM/de.oose.e4springdi/src/de/oose/e4springdi/internal/SpringObjectSupplier.java:87-102 | a hit returns the cached context with no locator call and no change; a miss makes one locator call, returns `Selected`, and caches only a found context |
| `Supplier.SpringObjectSupplier.OnOsgiApplicationEvent` | springDM/de.oose.e4springdi/src/de/oose/e4springdi/internal/SpringObjectSupplier.java:156-176 | Refreshed removes only that bundle's cache key and then makes the `Attempted` calls of the replay of its tracked list; the handler ends with an exception exactly when some call throws, and the cache key is gone either way; Closed removes only the cache key; other events change nothing; the tracked map never changes |
| `Supplier.SpringObjectSupplier.ReplayRequestors` | springDM/de.oose.e4springdi/src/de/oose/e4springdi/internal/SpringObjectSupplier.java:165-172 | the loop makes exactly the `Attempted` calls over the list and reports an exception exactly when the replay `Aborts` |
| `Supplier.SpringObjectSupplier.ReplayOne` | springDM/de.oose.e4springdi/src/de/oose/e4springdi/internal/SpringObjectSupplier.java:166-170 | one pass of the loop, for a requestor reached with no exception so far: either a call throws, and then the calls made are the `Attempted` ones for the whole list, or the replay grows by that requestor's calls, still with no exception |
| `Scenarios.UnpublishedContextGivesNull` | springDM/de.oose.e4springdi/src/de/oose/e4springdi/internal/SpringObjectSupplier.java:49-57 | with no context published, `get` answers null and caches nothing |
| `Scenarios.SecondRequestIsCacheHit` | springDM/de.oose.e4springdi/src/de/oose/e4springdi/internal/SpringObjectSupplier.java:42-58 | a named bean comes from the published context, twice; the whole trace is the first tracking update, one registry query, then the second tracking update |
| `Scenarios.RefreshForcesRelocate` | springDM/de.oose.e4springdi/src/de/oose/e4springdi/internal/SpringObjectSupplier.java:161-162 | a cached context keeps being used until a Refreshed event; the next request then uses the newly published one |
| `Scenarios.TrackOne` | springDM/de.oose.e4springdi/src/de/oose/e4springdi/internal/SpringObjectSupplier.java:42-58 | one injection with tracking on leaves the requestor tracked for its bundle and the published context cached |
| `Scenarios.RefreshReplaysTrackedRequestor` | springDM/de.oose.e4springdi/src/de/oose/e4springdi/internal/SpringObjectSupplier.java:163-171 | a tracked valid requestor gets exactly `resolveArguments(false)` then `execute()` on refresh, and no exception leaves the listener |
| `Scenarios.TrackBoth` | springDM/de.oose.e4springdi/src/de/oose/e4springdi/internal/SpringObjectSupplier.java:65-72 | two injections with tracking on leave both requestors tracked, in request order |
| `Scenarios.ThrowingRequestorStopsReplay` | springDM/de.oose.e4springdi/src/de/oose/e4springdi/internal/SpringObjectSupplier.java:161-170 | when the first of two tracked requestors throws in `execute()`, the second one is never called, the exception leaves the listener, and the cached context is gone all the same |
| `Scenarios.UntrackedRequestorIsNotReplayed` | springDM/de.oose.e4springdi/src/de/oose/e4springdi/internal/SpringObjectSupplier.java:73-83 | a requestor that tracked and then untracked leaves no entry and is not called on refresh |
| `Scenarios.CloseOnlyInvalidates` | springDM/de.oose.e4springdi/src/de/oose/e4springdi/internal/SpringObjectSupplier.java:173-175 | Closed drops the cached context, calls no requestor and keeps the tracked entry |

## Left out

- Bundle lookup (`FrameworkUtil.getBundle(...).getSymbolicName()` and `getBundleContext()`) is an OSGi framework call. The requesting bundle's name is an input (`None` when the class has no bundle, where the code would throw a NullPointerException). The registry is an input too.
- The registry's own filter matching and syntax check are out of scope. The model takes the query outcome from the registry parameter, so it does not say which bundle names make the unescaped filter invalid. The exceptions of the registry and of the bundle context (a null bundle context when the supplier's bundle is not active, `IllegalStateException` from an invalid one) are not modelled either.
- `getService` is the service object carried by the reference. A service unregistered between the query and `getService` (a null service) is not modelled.
- `ServiceReference.compareTo` is modelled by its published rule (ranking, then service id). Property lookup on the reference is not modelled.
- `ApplicationContext.getBean` and its exceptions (`NoSuchBeanDefinitionException`, ambiguity) belong to Spring. The model's answer names the `getBean` call that `get` returns the result of.
- `Locating.ReverseSort` models `Arrays.sort`, a library call, by its effect on the array rather than by its algorithm.
- Concurrency (`synchronized`, `ConcurrentHashMap`, snapshot iteration of `CopyOnWriteArrayList`) is left out. Each operation is one atomic step.
- Supplier.SpringObjectSupplier.OnOsgiApplicationEvent: calls back into `get` while a requestor re-resolves its arguments during the replay are not modelled. Such a call would update the tracking of the list being replayed and could cache the bundle's context again, so "the tracked map never changes" and "the cache key is gone" describe only the handler's own statements. The loop iterates over the list value read at its start, which matches the snapshot iteration of `CopyOnWriteArrayList`.
- The exceptions of `resolveArguments` and `execute` are reduced to the `throws` predicate on calls, and the exception that leaves the listener to a flag. Its type and message are not modelled. Because `throws` looks only at the call as a value, two equal calls, such as those on a requestor tracked twice, are taken to throw alike: a run where the first `execute()` of such a requestor succeeds and the second throws is not modelled.
- A requestor's validity is one predicate per event. A requestor that becomes invalid while another one executes during the same replay is not modelled.
- The lists in `trackedRequestorsForBundle` are values that are reassigned, not list objects mutated in place. Nothing outside the class holds them, so no aliasing is lost.
- Java reflection is reduced to `ClassType(name) | OtherType`. The `group` flag of `get` is accepted and ignored, as in the code.
