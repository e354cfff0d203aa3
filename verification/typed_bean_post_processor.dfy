/** TypedBeanPostProcessor: a bean post-processor that rewrites beans of one
    target type before and after initialisation and passes every other bean
    through. A bean is either an instance of the target type T or some
    other object O. */
module BeanPostProcessing {

  datatype Bean<T, O> = Instance(value: T) | Other(other: O)

  datatype TypedBeanPostProcessor<!T> = TypedBeanPostProcessor(beforeInit: T -> T, afterInit: T -> T)

  /** postProcessBeforeInitialization: beforeInit on a target-type bean, identity otherwise. */
  function PostProcessBeforeInitialization<T, O>(p: TypedBeanPostProcessor<T>, bean: Bean<T, O>, beanName: string): (r: Bean<T, O>)
    ensures bean.Other? ==> r == bean
    ensures bean.Instance? ==> r == Instance(p.beforeInit(bean.value))
  {
    match bean
    case Instance(t) => Instance(p.beforeInit(t))
    case Other(_) => bean
  }

  /** postProcessAfterInitialization: afterInit on a target-type bean, identity otherwise. */
  function PostProcessAfterInitialization<T, O>(p: TypedBeanPostProcessor<T>, bean: Bean<T, O>, beanName: string): (r: Bean<T, O>)
    ensures bean.Other? ==> r == bean
    ensures bean.Instance? ==> r == Instance(p.afterInit(bean.value))
  {
    match bean
    case Instance(t) => Instance(p.afterInit(t))
    case Other(_) => bean
  }

  /** applyBeforeInitialization(type, change): `change` before, the identity after. */
  function ApplyBeforeInitialization<T(!new)>(change: T -> T): (p: TypedBeanPostProcessor<T>)
    ensures forall t :: p.beforeInit(t) == change(t)
    ensures forall t :: p.afterInit(t) == t
  {
    TypedBeanPostProcessor(change, t => t)
  }

  /** A processor made by applyBeforeInitialization leaves every bean alone after initialisation. */
  lemma AfterHookIsIdentity<T(!new), O>(change: T -> T, bean: Bean<T, O>, beanName: string)
    ensures PostProcessAfterInitialization(ApplyBeforeInitialization(change), bean, beanName) == bean
  {
  }

  /** Neither hook looks at the bean name. */
  lemma BeanNameIsIgnored<T, O>(p: TypedBeanPostProcessor<T>, bean: Bean<T, O>, name1: string, name2: string)
    ensures PostProcessBeforeInitialization(p, bean, name1) == PostProcessBeforeInitialization(p, bean, name2)
    ensures PostProcessAfterInitialization(p, bean, name1) == PostProcessAfterInitialization(p, bean, name2)
  {
  }

  /** Both hooks keep the kind of a bean: target-type beans stay target-type, others stay others. */
  lemma HooksPreserveBeanKind<T, O>(p: TypedBeanPostProcessor<T>, bean: Bean<T, O>, beanName: string)
    ensures PostProcessBeforeInitialization(p, bean, beanName).Instance? <==> bean.Instance?
    ensures PostProcessAfterInitialization(p, bean, beanName).Instance? <==> bean.Instance?
  {
  }

  /** Re-running the before-hook changes nothing when its function is idempotent. */
  lemma BeforeHookIdempotent<T, O>(p: TypedBeanPostProcessor<T>, bean: Bean<T, O>, beanName: string)
    requires forall t :: p.beforeInit(p.beforeInit(t)) == p.beforeInit(t)
    ensures var once := PostProcessBeforeInitialization(p, bean, beanName);
      PostProcessBeforeInitialization(p, once, beanName) == once
  {
  }
}
