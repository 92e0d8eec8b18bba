/**
 * Locating a bundle's application context in the OSGi service registry:
 * the LDAP-style filter `(key=value)` of RFC 1960, the ordering of
 * service references defined by `ServiceReference.compareTo` in the OSGi
 * core specification, and the rule "the greatest reference wins".
 */
module Locating {
  import opened Wrappers
  import opened Values

  /** The service class name Spring application contexts are published under. */
  const AppContextServiceName: string := "org.springframework.context.ApplicationContext"

  /** The service property naming the bundle an application context belongs to. */
  const ContextSourceBundleProperty: string := "org.springframework.context.service.name"

  /** The filter text in front of the value. */
  const FilterPrefix: string := "(" + ContextSourceBundleProperty + "="

  /** The filter that matches the contexts published by the bundle `symbolicName`; the name is not escaped. */
  function Filter(symbolicName: string): (filter: string)
    ensures FilterValue(filter) == Some(symbolicName)
  {
    var filter := "(" + ContextSourceBundleProperty + "=" + symbolicName + ")";
    assert filter[..|FilterPrefix|] == FilterPrefix;
    assert filter[|FilterPrefix|..|filter| - 1] == symbolicName;
    filter
  }

  /** The value of a filter of the shape `Filter` builds, if `filter` has that shape. */
  function FilterValue(filter: string): Option<string> {
    if |filter| > |FilterPrefix| && filter[..|FilterPrefix|] == FilterPrefix && filter[|filter| - 1] == ')' then
      Some(filter[|FilterPrefix|..|filter| - 1])
    else
      None
  }

  /** Every filter with a value is the filter of that value, so `Filter` and `FilterValue` are inverse. */
  lemma FilterValueSound(filter: string)
    requires FilterValue(filter).Some?
    ensures Filter(FilterValue(filter).value) == filter
  {
    var v := FilterValue(filter).value;
    assert filter == filter[..|FilterPrefix|] + filter[|FilterPrefix|..|filter| - 1] + [filter[|filter| - 1]];
  }

  /** Distinct bundles get distinct filters. */
  lemma FilterInjective(a: string, b: string)
    requires a != b
    ensures Filter(a) != Filter(b)
  {
    assert FilterValue(Filter(a)) == Some(a);
    assert FilterValue(Filter(b)) == Some(b);
  }

  /**
   * `a.compareTo(b) <= 0` for service references: a higher ranking is
   * greater; under equal rankings the lower service id is greater.
   */
  predicate Below(a: ServiceRef, b: ServiceRef) {
    a.ranking < b.ranking || (a.ranking == b.ranking && a.serviceId >= b.serviceId)
  }

  /** `x` is one of `refs` and no reference of `refs` is above it. */
  ghost predicate IsGreatest(x: ServiceRef, refs: seq<ServiceRef>) {
    x in refs && forall y :: y in refs ==> Below(y, x)
  }

  /** `s` is sorted by `Collections.reverseOrder()`: greatest first. */
  ghost predicate SortedDesc(s: seq<ServiceRef>) {
    forall i, j :: 0 <= i < j < |s| ==> Below(s[j], s[i])
  }

  /** No two different references share a service id, as the registry guarantees. */
  ghost predicate DistinctIds(refs: seq<ServiceRef>) {
    forall i, j :: 0 <= i < |refs| && 0 <= j < |refs| && refs[i].serviceId == refs[j].serviceId ==> refs[i] == refs[j]
  }

  /** `x` inserted into the descending list `s` in front of the first element not above it. */
  function InsertDesc(x: ServiceRef, s: seq<ServiceRef>): (r: seq<ServiceRef>)
    ensures multiset(r) == multiset(s) + multiset{x}
  {
    if s == [] then [x]
    else if Below(s[0], x) then [x] + s
    else
      assert s == [s[0]] + s[1..];
      [s[0]] + InsertDesc(x, s[1..])
  }

  /** Inserting into a descending list keeps it descending. */
  lemma {:induction false} InsertDescSorted(x: ServiceRef, s: seq<ServiceRef>)
    requires SortedDesc(s)
    ensures SortedDesc(InsertDesc(x, s))
  {
    if s != [] && !Below(s[0], x) {
      var rest := InsertDesc(x, s[1..]);
      InsertDescSorted(x, s[1..]);
      forall k | 0 <= k < |rest| ensures Below(rest[k], s[0]) {
        assert rest[k] in multiset(rest);
        if rest[k] != x {
          assert rest[k] in multiset(s[1..]);
          var j :| 0 <= j < |s[1..]| && s[1..][j] == rest[k];
          assert s[j + 1] == rest[k];
        }
      }
      assert InsertDesc(x, s) == [s[0]] + rest;
    }
  }

  /** The references greatest first, as `Arrays.sort(refs, Collections.reverseOrder())` leaves them. */
  function SortDesc(s: seq<ServiceRef>): (r: seq<ServiceRef>)
    ensures SortedDesc(r)
    ensures multiset(r) == multiset(s)
  {
    if s == [] then []
    else
      assert s == [s[0]] + s[1..];
      var rest := SortDesc(s[1..]);
      InsertDescSorted(s[0], rest);
      InsertDesc(s[0], rest)
  }

  /** The first reference after the reverse sort: the greatest of `refs`. */
  function Best(refs: seq<ServiceRef>): (best: ServiceRef)
    requires |refs| > 0
    ensures IsGreatest(best, refs)
  {
    var sorted := SortDesc(refs);
    assert |sorted| == |multiset(sorted)| == |refs|;
    assert sorted[0] in multiset(refs);
    forall y | y in refs ensures Below(y, sorted[0]) {
      assert y in multiset(sorted);
      var j :| 0 <= j < |sorted| && sorted[j] == y;
    }
    sorted[0]
  }

  /**
   * The context `getApplicationContextService` hands back for a query
   * outcome: the service of the greatest reference, or none when the
   * registry found nothing or rejected the filter.
   */
  function Selected(q: Query): (context: Option<ApplicationContext>)
    ensures context.Some? <==> q.Refs? && |q.refs| > 0
    ensures context.Some? ==>
      exists k :: 0 <= k < |q.refs| && q.refs[k].service == context.value && IsGreatest(q.refs[k], q.refs)
  {
    match q
    case Refs(refs) => if |refs| > 0 then Some(Best(refs).service) else None
    case _ => None
  }

  /** A single reference is taken as it is. */
  lemma SelectedSingle(ref: ServiceRef)
    ensures Selected(Refs([ref])) == Some(ref.service)
  {
    assert SortDesc([ref]) == [ref];
  }

  /** The selection depends only on which references the registry returns, not on their order. */
  lemma SelectedIgnoresOrder(a: seq<ServiceRef>, b: seq<ServiceRef>)
    requires multiset(a) == multiset(b)
    requires DistinctIds(a)
    ensures Selected(Refs(a)) == Selected(Refs(b))
  {
    assert |a| == |multiset(a)| == |b|;
    if |a| > 0 {
      var x, y := Best(a), Best(b);
      assert x in multiset(b);
      assert y in multiset(a);
      assert Below(x, y) && Below(y, x);
      var i :| 0 <= i < |a| && a[i] == x;
      var j :| 0 <= j < |a| && a[j] == y;
    }
  }

  /**
   * `Arrays.sort(refs, Collections.reverseOrder())`: the library sort,
   * given by its effect on the array.
   */
  method ReverseSort(refs: array<ServiceRef>)
    modifies refs
    ensures refs[..] == SortDesc(old(refs[..]))
    ensures SortedDesc(refs[..]) && multiset(refs[..]) == multiset(old(refs[..]))
  {
    var sorted := SortDesc(refs[..]);
    assert |sorted| == |multiset(sorted)| == refs.Length;
    forall i | 0 <= i < refs.Length {
      refs[i] := sorted[i];
    }
    assert refs[..] == sorted;
  }

  /**
   * `getApplicationContextService`: query the registry with the bundle's
   * filter; no references, a null array or a rejected filter give no
   * context; otherwise the service of the first reference after sorting
   * several references in reverse order.
   */
  method GetApplicationContextService(symbolicName: string, registry: Registry) returns (context: Option<ApplicationContext>)
    ensures context == Selected(registry(AppContextServiceName, Filter(symbolicName)))
  {
    var filter := Filter(symbolicName);
    var query := registry(AppContextServiceName, filter);
    context := None;
    match query {
      case InvalidSyntax =>
        // the exception is caught and dropped
      case NoRefs =>
      case Refs(found) =>
        if |found| > 0 {
          var refs := new ServiceRef[|found|](i requires 0 <= i < |found| => found[i]);
          assert refs[..] == found;
          if refs.Length > 1 {
            ReverseSort(refs);
          } else {
            SelectedSingle(found[0]);
            assert found == [found[0]];
          }
          context := Some(refs[0].service);
        }
    }
  }
}
