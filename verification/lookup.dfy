/** Pulling the requested bean out of an application context. */
module Lookup {
  import opened Values
  import opened JavaString

  /** `SpringInject.beanName()` when the annotation does not set it. */
  const DefaultBeanName: string := ""

  /**
   * What `get` hands back to the injector: null, or the result of one
   * `getBean` call on a context (by name or by class). `getBean` itself,
   * and the exceptions it raises, belong to Spring.
   */
  datatype Answer =
    | NullAnswer
    | BeanNamed(context: ApplicationContext, name: string)
    | BeanOfType(context: ApplicationContext, className: string)

  /**
   * `getFromContext`: a bean name that is not blank after trimming is
   * looked up by that (untrimmed) name; otherwise a desired type that is a
   * class is looked up by type; otherwise there is nothing to inject.
   */
  function GetFromContext(descriptor: Descriptor, context: ApplicationContext): (answer: Answer)
    ensures answer.BeanNamed? <==> !IsBlank(descriptor.beanName)
    ensures answer.BeanNamed? ==> answer == BeanNamed(context, descriptor.beanName)
    ensures answer.BeanOfType? <==> IsBlank(descriptor.beanName) && descriptor.desiredType.ClassType?
    ensures answer.BeanOfType? ==> answer == BeanOfType(context, descriptor.desiredType.className)
    ensures answer.NullAnswer? <==> IsBlank(descriptor.beanName) && descriptor.desiredType.OtherType?
  {
    TrimEmptyIffBlank(descriptor.beanName);
    if Trim(descriptor.beanName) != [] then
      BeanNamed(context, descriptor.beanName)
    else if descriptor.desiredType.ClassType? then
      BeanOfType(context, descriptor.desiredType.className)
    else
      NullAnswer
  }

  /** With the annotation's default bean name the lookup goes by type. */
  lemma DefaultNameLooksUpByType(desired: JavaType, context: ApplicationContext)
    ensures GetFromContext(Descriptor(DefaultBeanName, desired), context)
         == if desired.ClassType? then BeanOfType(context, desired.className) else NullAnswer
  {
  }
}
