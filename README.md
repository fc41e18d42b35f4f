# lei3d entity component store, in Dafny

This project models the component store of `lei3d::Entity`, the scene-graph
node of the lei3d engine. An entity owns an insertion-ordered list of
components (`m_Components`, a vector of `unique_ptr<Component>`). Each
component holds a back-reference to its entity. The entity also holds a
non-owning `Shader*` that starts out null. Two template operations work on the
list:

- `AddComponent<C>()` constructs a `C` with the entity as its owner. It appends
  the new component and returns the element now at the back of the list.
- `GetComponent<C>()` scans the list in insertion order. It returns the first
  component whose exact runtime type (`typeid`) is `C`. If none matches, it
  logs an error and returns null.

How the C++ maps to Dafny:

- `ComponentTypes` (`component_types.dfy`) stands in for the C++ class
  hierarchy. `TypeTag` is the exact runtime type of a component: either
  `Component` itself (`BaseComponent`) or a named subclass of another component
  class. `IsA` is the derives-from relation. It is there so that the model can
  state "exact type, not is-a".
- `EntityCore` (`entity.dfy`) has the classes `Component`, `Entity` and
  `Shader`. A component's tag and owner are `const`, because in C++ both are
  fixed at construction. `Entity.components` is the vector, and `Valid()` is the
  entity's invariant: every stored component points back at this entity, and no
  component is stored twice. `FirstMatch` is the specification of the lookup,
  and `GetComponent` is proved against it. `AddComponent` is specified by the
  new list, `components == old(components) + [c]`. The lemma `FirstMatchAppend`
  links the two: it says how an append changes the first match.
- The template argument `C` becomes a `TypeTag` parameter. A null pointer
  becomes `null` of type `Component?`. The `LEI_ERROR` call becomes a returned
  log, a `seq<LogRecord>`: one `Error` record on a miss and nothing on a hit.
  Because of this, `GetComponent` changes no state. It has no `modifies`
  clause, so the verifier checks that it is a read-only search.

## Model

| member | source | states |
|---|---|---|
| ComponentTypes.AncestorIsShallower | src/engine/engine/Entity.hpp:75 | if `t` is-a `base`, then `base` is no deeper in the class hierarchy than `t` |
| ComponentTypes.SubclassIsNotItsAncestor | src/engine/engine/Entity.hpp:75 | a subclass is-a each of its ancestors but never has an ancestor as its exact type, which is the distinction the `typeid` comparison draws |
| EntityCore.FirstMatch | src/engine/engine/Entity.hpp:64-79 | the index it returns is at most the list length, no earlier component has the requested exact type, and the component at that index (if any) has it |
| EntityCore.FirstMatchUnique | src/engine/engine/Entity.hpp:66 | the first match is uniquely determined: any index with no match before it and a match at it (or the end when nothing matches) equals `FirstMatch` |
| EntityCore.FirstMatchAppend | src/engine/engine/Entity.hpp:95-96 | appending a component keeps an existing first match; otherwise the appended component is found exactly when its type is the one requested |
| EntityCore.SubclassNeverFound | src/engine/engine/Entity.hpp:75 | a component whose type only derives from `base` is never the one a lookup for `base` finds, even though it is-a `base` |
| EntityCore.Entity.constructor | src/engine/engine/Entity.hpp:32-35 | a new entity has no components and a null shader, and satisfies the store's invariant |
| EntityCore.Entity.AddComponent | src/engine/engine/Entity.hpp:89-100 | the returned component is a new instance with the requested exact type and this entity as owner; the list becomes the old list plus that component, so it is one longer and earlier entries are unchanged and in order; the result is the element at the back; the shader is unchanged and the invariant is kept |
| EntityCore.Entity.GetComponent | src/engine/engine/Entity.hpp:68-83 | returns null if and only if no component has the requested exact type; otherwise returns the component at the first such index, whose type is exactly the requested one; logs one error exactly on a miss and nothing on a hit; changes no state |
| EntityCore.AddThenGet | src/engine/engine/Entity.hpp:89-100 | on an entity with no component of type `C`, `AddComponent<C>` followed by `GetComponent<C>` returns the same instance and logs nothing |
| EntityCore.FirstAttachedWins | src/engine/engine/Entity.hpp:66 | after attaching `A`, then `B`, then another `A`, looking up `A` returns the first `A` instance, which is a different object from the second |
| EntityCore.LookupOfBaseMissesSubclass | src/engine/engine/Entity.hpp:73-82 | on an entity whose only component derives from `base`, looking up `base` returns null and logs exactly one error |

## Left out

- `Transform` and its matrices: `GetTranslationMat`, `GetRotationMat`, `GetScaleMat`, `GetModelMat`, `SetPosition`, `SetScale` (src/engine/engine/Entity.hpp:19-24, 46-54). They are glm floating-point vectors and matrices, and their bodies are not part of this model.
- The lifecycle fan-out `Start`, `Update`, `PhysicsUpdate`, `Render` and `OnDestroy` (src/engine/engine/Entity.hpp:40-44). They are only declared in the header and call virtual hooks of component subclasses that are not part of this model.
- `SetShader` (src/engine/engine/Entity.hpp:49). Its body is not part of this model. Only the null default of `m_Shader` is modelled, and `AddComponent` is proved to leave it unchanged.
- `LEI_ERROR` (src/engine/engine/Entity.hpp:81) writes to the engine's logging facility. It is modelled as the returned log, not as I/O.
- `unique_ptr` ownership, destruction of components, and dangling pointers are not modelled. Dafny objects are garbage-collected. Exclusive ownership is reduced to "no component is stored twice" in `Entity.Valid()`.
- Multiple inheritance is not modelled. `TypeTag` gives each component class a single parent chain, while C++ allows a class to reach `Component` through several bases. Lookups compare exact types and do not depend on this. The is-a lemmas (`SubclassIsNotItsAncestor`, `SubclassNeverFound`, `LookupOfBaseMissesSubclass`) cover single-inheritance hierarchies only.
- Entity.AddComponent: allocation failure is not modelled. `std::make_unique` and `push_back` (src/engine/engine/Entity.hpp:95-96) can throw `std::bad_alloc`, and `push_back` then leaves the vector unchanged. The model's `AddComponent` always succeeds.
- The component constructor's own work is not modelled. `Component.hpp` is not part of this model. Only the owner back-reference it receives is kept.
