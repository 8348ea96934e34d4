/**
 * The type catalog: what PHP reflection tells the container about classes
 * and parameters. It stands in for `class_exists`, `get_parent_class`,
 * `class_implements`, `ReflectionClass::getConstructor`/`getMethod` and
 * `ReflectionParameter`.
 */
module Catalog {
  import opened Wrappers
  import opened Values

  /** A parameter's declared type. */
  datatype TypeDecl =
    | Untyped
    /** A single named type; `builtin` for `int`, `string`, `array`, ... */
    | Named(name: string, builtin: bool)
    | UnionOf(members: seq<string>)

  /** A reflected parameter: its name, declared type and default value if one is available. */
  datatype Param = Param(name: string, ptype: TypeDecl, default: Option<Value>)

  /** Where a parameter was declared: the declaring class (none for a plain function) and the function's name. */
  datatype ParamSite = ParamSite(param: Param, declaringClass: Option<string>, functionName: string)

  /**
   * A class (never an interface: `class_exists` is false for interfaces).
   * `parents` is the chain `get_parent_class` walks, nearest first;
   * `interfaces` is `class_implements`; `ctor` is the constructor's
   * parameter list, if the class has a constructor; `methods` maps each
   * callable method (inherited ones included) to its parameters.
   */
  datatype ClassInfo = ClassInfo(
    parents: seq<string>,
    interfaces: seq<string>,
    ctor: Option<seq<Param>>,
    methods: map<string, seq<Param>>)

  datatype Catalog = Catalog(classes: map<string, ClassInfo>)

  /** `class_exists($name)`. */
  predicate ClassExists(cat: Catalog, name: string) {
    name in cat.classes
  }

  /** The successive values of `get_parent_class`, nearest first; empty for an unknown class. */
  function ParentChain(cat: Catalog, name: string): seq<string> {
    if name in cat.classes then cat.classes[name].parents else []
  }

  /** `class_implements($name)`; empty for an unknown class. */
  function InterfacesOf(cat: Catalog, name: string): seq<string> {
    if name in cat.classes then cat.classes[name].interfaces else []
  }

  /** `$param->getClass()`: the class named by a single non-builtin type, if any. */
  function ClassHint(p: Param): Option<string> {
    match p.ptype
    case Named(n, false) => Some(n)
    case _ => None
  }

  /** `is_a` on an object of class `cls`: the class itself, an ancestor or an implemented interface. */
  predicate ClassIsA(cat: Catalog, cls: string, name: string) {
    cls == name || name in ParentChain(cat, cls) || name in InterfacesOf(cat, cls)
  }
}
