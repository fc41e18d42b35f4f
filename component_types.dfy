/** The C++ class hierarchy of components, as far as the component store
    can observe it: `typeid` gives the exact concrete class of a component,
    and every component class derives (publicly) from `Component`. */
module ComponentTypes {

  /** The exact runtime type of a component: either the base class
      `Component` itself or a named subclass of some other component class.
      Every tag's parent chain ends at `BaseComponent`, so no tag names a
      type that is not a component; the compile-time check that `C` is
      convertible to `Component` has nothing left to reject. */
  datatype TypeTag =
    | BaseComponent
    | Subclass(name: string, parent: TypeTag)

  /** "is-a": `t` is `base` or derives from it through its parent chain. */
  predicate IsA(t: TypeTag, base: TypeTag)
  {
    t == base || (t.Subclass? && IsA(t.parent, base))
  }

  /** Number of derivation steps from `Component` down to `t`. */
  function Depth(t: TypeTag): nat
  {
    match t
    case BaseComponent => 0
    case Subclass(_, p) => 1 + Depth(p)
  }

  /** An ancestor is never deeper in the hierarchy than its descendant. */
  lemma {:induction false} AncestorIsShallower(t: TypeTag, base: TypeTag)
    requires IsA(t, base)
    ensures Depth(base) <= Depth(t)
  {
    if t != base {
      AncestorIsShallower(t.parent, base);
    }
  }

  /** A subclass is a `base` (is-a holds) yet is never the exact type `base`:
      the two relations an exact-type lookup tells apart. */
  lemma SubclassIsNotItsAncestor(t: TypeTag, base: TypeTag)
    requires t.Subclass? && IsA(t.parent, base)
    ensures IsA(t, base) && t != base
  {
    AncestorIsShallower(t.parent, base);
  }
}
