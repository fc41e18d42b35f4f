/** The component store of a scene entity: an insertion-ordered list of
    components, each owned by the entity and pointing back at it, with
    `AddComponent<C>` (append a new `C`) and `GetComponent<C>` (first
    component whose exact runtime type is `C`, or null with a logged error). */
module EntityCore {
  import opened ComponentTypes

  /** One record sent to the engine's logging facility. */
  datatype LogRecord = Error(message: string)

  /** The text `GetComponent` logs when nothing matches. */
  const NotFoundMessage: string := "Could not find component."

  /** A render-shading resource; the entity only holds a non-owning reference. */
  class Shader {
    constructor () { }
  }

  /** A behaviour unit attached to an entity. Its exact runtime type and its
      back-reference to the owning entity are fixed at construction. */
  class Component {
    const tag: TypeTag
    const owner: Entity

    constructor (owner: Entity, tag: TypeTag)
      ensures this.owner == owner && this.tag == tag
    {
      this.owner := owner;
      this.tag := tag;
    }
  }

  /** Index of the first component in `cs` whose exact type is `tag`, or
      `|cs|` when there is none. */
  function FirstMatch(cs: seq<Component>, tag: TypeTag): (i: nat)
    ensures i <= |cs|
    ensures forall j :: 0 <= j < i ==> cs[j].tag != tag
    ensures i < |cs| ==> cs[i].tag == tag
    decreases |cs|
  {
    if cs == [] then 0
    else if cs[0].tag == tag then 0
    else 1 + FirstMatch(cs[1..], tag)
  }

  /** The first match is the only index with no match before it and a match
      at it (or the end, when nothing matches). */
  lemma FirstMatchUnique(cs: seq<Component>, tag: TypeTag, i: nat)
    requires i <= |cs|
    requires forall j :: 0 <= j < i ==> cs[j].tag != tag
    requires i < |cs| ==> cs[i].tag == tag
    ensures FirstMatch(cs, tag) == i
  {
  }

  /** Appending keeps an existing first match; otherwise the appended
      component is the first match exactly when it has the requested type. */
  lemma FirstMatchAppend(cs: seq<Component>, c: Component, tag: TypeTag)
    ensures FirstMatch(cs + [c], tag) ==
            if FirstMatch(cs, tag) < |cs| then FirstMatch(cs, tag)
            else if c.tag == tag then |cs|
            else |cs| + 1
  {
    var i := FirstMatch(cs, tag);
    var cs' := cs + [c];
    if i < |cs| {
      FirstMatchUnique(cs', tag, i);
    } else if c.tag == tag {
      FirstMatchUnique(cs', tag, |cs|);
    } else {
      FirstMatchUnique(cs', tag, |cs| + 1);
    }
  }

  /** Exact-type matching: the component a lookup for `base` finds has type
      `base` itself, so a component whose type merely derives from `base` is
      never the one found. */
  lemma SubclassNeverFound(cs: seq<Component>, k: nat, base: TypeTag)
    requires k < |cs| && cs[k].tag.Subclass? && IsA(cs[k].tag.parent, base)
    ensures IsA(cs[k].tag, base)
    ensures FirstMatch(cs, base) != k
  {
    SubclassIsNotItsAncestor(cs[k].tag, base);
  }

  class Entity {
    var components: seq<Component>
    var shader: Shader?

    /** Every stored component points back at this entity, and no component
        is stored twice (each is exclusively owned). */
    ghost predicate Valid()
      reads this
    {
      (forall i :: 0 <= i < |components| ==> components[i].owner == this) &&
      (forall i, j :: 0 <= i < j < |components| ==> components[i] != components[j])
    }

    /** A new entity has no components and no shader. */
    constructor ()
      ensures Valid()
      ensures components == [] && shader == null
    {
      components := [];
      shader := null;
    }

    /** Creates a component of exact type `tag` owned by this entity, appends
        it, and returns the element now at the back of the list. */
    method AddComponent(tag: TypeTag) returns (c: Component)
      requires Valid()
      modifies this
      ensures Valid()
      ensures fresh(c) && c.tag == tag && c.owner == this
      ensures components == old(components) + [c]
      ensures c == components[|components| - 1]
      ensures shader == old(shader)
    {
      var created := new Component(this, tag);
      components := components + [created];
      c := components[|components| - 1];
    }

    /** Scans the components in insertion order and returns the first whose
        exact type is `tag`; on a miss it logs one error and returns null. */
    method GetComponent(tag: TypeTag) returns (r: Component?, log: seq<LogRecord>)
      ensures r == null <==> forall i :: 0 <= i < |components| ==> components[i].tag != tag
      ensures r != null ==> FirstMatch(components, tag) < |components| &&
                            r == components[FirstMatch(components, tag)] && r.tag == tag
      ensures log == if r == null then [Error(NotFoundMessage)] else []
    {
      var k := 0;
      while k < |components|
        invariant 0 <= k <= |components|
        invariant forall j :: 0 <= j < k ==> components[j].tag != tag
      {
        if components[k].tag == tag {
          FirstMatchUnique(components, tag, k);
          return components[k], [];
        }
        k := k + 1;
      }
      return null, [Error(NotFoundMessage)];
    }
  }

  /** Adding a `tag` component to an entity that has none, then looking
      `tag` up, yields the very instance that was added, with nothing logged. */
  method AddThenGet(e: Entity, tag: TypeTag) returns (added: Component, found: Component?, log: seq<LogRecord>)
    requires e.Valid()
    requires forall i :: 0 <= i < |e.components| ==> e.components[i].tag != tag
    modifies e
    ensures e.Valid()
    ensures found == added && log == []
  {
    added := e.AddComponent(tag);
    FirstMatchAppend(old(e.components), added, tag);
    found, log := e.GetComponent(tag);
  }

  /** Attaching `a`, then `b`, then another `a`: the lookup of `a` returns the
      first-attached instance, never the second. */
  method FirstAttachedWins(a: TypeTag, b: TypeTag) returns (first: Component, second: Component, found: Component?)
    ensures first != second && first.tag == a && second.tag == a
    ensures found == first
  {
    var e := new Entity();
    first := e.AddComponent(a);
    var _ := e.AddComponent(b);
    second := e.AddComponent(a);
    var log;
    found, log := e.GetComponent(a);
  }

  /** An entity whose only component derives from `base`: looking up `base`
      finds nothing and logs exactly one error, although the component is-a
      `base`. */
  method LookupOfBaseMissesSubclass(name: string, base: TypeTag) returns (attached: Component, found: Component?, log: seq<LogRecord>)
    ensures IsA(attached.tag, base)
    ensures found == null && log == [Error(NotFoundMessage)]
  {
    var e := new Entity();
    attached := e.AddComponent(Subclass(name, base));
    SubclassIsNotItsAncestor(attached.tag, base);
    found, log := e.GetComponent(base);
  }
}
