/**
 * The class hierarchy as the compiler and the runtime see it: each class mapped to its direct
 * superclass. It stands for `Types.isSubtype` in the processor and `Class.isAssignableFrom`
 * at run time.
 */
module Hierarchy {
  import opened JavaModel

  /** Direct superclass of each known class; a class with no entry has no superclass in view. */
  type Superclasses = map<ClassName, ClassName>

  /**
   * `t` is `target` or `target` lies on the superclass chain of `t`. Every step removes the
   * class it leaves from the map, so even a malformed, cyclic map cannot make the search diverge.
   */
  function IsSubtype(h: Superclasses, t: ClassName, target: ClassName): bool
    decreases |h|
  {
    if t == target then true
    else if t in h then
      assert |(h - {t}).Keys| < |h.Keys| by { assert (h - {t}).Keys == h.Keys - {t}; }
      IsSubtype(h - {t}, h[t], target)
    else false
  }

  /** Dropping a class that the chain from `t` never reaches does not change what the chain reaches. */
  lemma {:induction false} RemoveUnreached(h: Superclasses, t: ClassName, target: ClassName, k: ClassName)
    requires !IsSubtype(h, t, k)
    ensures IsSubtype(h - {k}, t, target) == IsSubtype(h, t, target)
    decreases |h|
  {
    if t != target && t in h {
      assert |(h - {t}).Keys| < |h.Keys| by { assert (h - {t}).Keys == h.Keys - {t}; }
      RemoveUnreached(h - {t}, h[t], target, k);
      assert (h - {t}) - {k} == (h - {k}) - {t};
    }
  }

  /**
   * A class whose direct superclass is `base` is a subtype of `target` exactly when `base` is,
   * unless the class is `target` itself or the hierarchy loops back to the class: a class that
   * reaches the base type through an intermediate class is treated like a direct subclass.
   */
  lemma SubtypeThroughBase(h: Superclasses, t: ClassName, base: ClassName, target: ClassName)
    requires t in h && h[t] == base && t != target
    requires !IsSubtype(h, base, t)
    ensures IsSubtype(h, t, target) <==> IsSubtype(h, base, target)
  {
    RemoveUnreached(h, base, target, t);
  }
}
