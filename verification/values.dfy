/**
 * The values the object supplier exchanges with its collaborators: the
 * e4 injector (descriptors, requestors), the OSGi service registry
 * (service references) and the Spring/Gemini Blueprint event bus.
 */
module Values {
  import opened Wrappers

  /** A live Spring application context, known to the supplier only by identity. */
  datatype ApplicationContext = ApplicationContext(handle: nat)

  /** An e4 injection site that may ask to be re-injected; equality is identity, as for `equals` on IRequestor. */
  datatype Requestor = Requestor(identity: nat)

  /** A reflected `java.lang.reflect.Type`: a `Class`, or any other kind of type (parameterized, wildcard, ...). */
  datatype JavaType = ClassType(className: string) | OtherType

  /** What the injector tells the supplier about one injection site: the `@SpringInject` bean name and the desired type. */
  datatype Descriptor = Descriptor(beanName: string, desiredType: JavaType)

  /** An OSGi service reference: its service ranking, its registry-assigned service id and the service object it resolves to. */
  datatype ServiceRef = ServiceRef(ranking: int, serviceId: int, service: ApplicationContext)

  /**
   * The outcome of one `getServiceReferences(className, filter)` query:
   * an array of references, a null array, or an InvalidSyntaxException.
   */
  datatype Query = Refs(refs: seq<ServiceRef>) | NoRefs | InvalidSyntax

  /** The OSGi service registry as seen through the supplier's bundle context: service class name and filter to query outcome. */
  type Registry = (string, string) -> Query

  /** The kinds of OsgiBundleApplicationContextEvent the listener distinguishes. */
  datatype EventKind = Refreshed | Closed | OtherEvent

  /** An application-context event and the symbolic name of the bundle it concerns. */
  datatype ContextEvent = ContextEvent(kind: EventKind, bundle: string)

  /** What the supplier does, recorded in order: its tracking updates and its calls into the locator and into requestors. */
  datatype Effect =
    | TrackingUpdate(scope: string, requestor: Requestor, track: bool)
    | LocatorQuery(scope: string)
    | ResolveArguments(requestor: Requestor, arg: bool)
    | Execute(requestor: Requestor)

  /** Why `get` can fail before touching any state: the requesting class belongs to no bundle. */
  datatype GetError = UnresolvableScope
}
