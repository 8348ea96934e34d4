/**
 * The accessors and constructors of the three resolvable value classes
 * (Reference, DefaultReference, RequiredParameter). Their `resolve`
 * methods need a container and live with it (module Container); the
 * one that needs no container, RequiredParameter's, is `RequiredFailure`.
 */
module References {
  import opened Wrappers
  import opened Names
  import opened Values
  import opened Catalog
  import opened Exceptions

  // ---------------------------------------------------------------- Reference

  function GetName(r: Reference): RefName {
    r.name
  }

  function GetArgs(r: Reference): Args {
    r.args
  }

  /** `new Reference($name, $args)`: the getters return what was given. */
  function NewReference(name: RefName, args: Args): (r: Reference)
    ensures GetName(r) == name && GetArgs(r) == args
  {
    Reference(name, args)
  }

  /** `setName`: replaces the name and leaves the arguments. */
  function SetName(r: Reference, name: RefName): (r': Reference)
    ensures GetName(r') == name
    ensures GetArgs(r') == GetArgs(r)
  {
    r.(name := name)
  }

  /** `setArgs` (which returns `$this`): replaces the arguments and leaves the name. */
  function SetArgs(r: Reference, args: Args): (r': Reference)
    ensures GetArgs(r') == args
    ensures GetName(r') == GetName(r)
  {
    r.(args := args)
  }

  /** PHP `empty($this->name)`: `""`, `"0"` or an empty array. */
  predicate IsEmptyName(n: RefName) {
    match n
    case NameString(s) => EmptyString(s)
    case NameList(names) => |names| == 0
  }

  // --------------------------------------------------------- DefaultReference

  function GetDefaultName(d: DefaultReference): string {
    d.name
  }

  /** `new DefaultReference($name)`: `getName` returns the constructor's name. */
  function NewDefaultReference(name: string): (d: DefaultReference)
    ensures GetDefaultName(d) == name
  {
    DefaultReference(name)
  }

  /** `setName`: `getName` then returns the new value. */
  function SetDefaultName(d: DefaultReference, name: string): (d': DefaultReference)
    ensures GetDefaultName(d') == name
  {
    d.(name := name)
  }

  // -------------------------------------------------------- RequiredParameter

  /**
   * The class string a RequiredParameter passes to its DefaultReference
   * parent: the declared type's name for a single, non-builtin named type,
   * and `""` for no type, a builtin type or a union type.
   */
  function ClassString(t: TypeDecl): (s: string)
    ensures t.Named? && !t.builtin ==> s == t.name
    ensures !(t.Named? && !t.builtin) ==> s == ""
  {
    match t
    case Named(n, false) => n
    case _ => ""
  }

  /**
   * The description of the owning function: `Class::fn()` when there is a
   * declaring class and `fn()` otherwise. It always ends in `()`, so it is
   * never PHP-empty.
   */
  function FunctionDescription(site: ParamSite): (s: string)
    ensures site.declaringClass.None? ==> s == site.functionName + "()"
    ensures site.declaringClass.Some? ==> s == site.declaringClass.value + "::" + site.functionName + "()"
    ensures |s| >= 2 && s[|s| - 2..] == "()"
    ensures !EmptyString(s)
  {
    var prefix := if site.declaringClass.Some? then site.declaringClass.value + "::" else "";
    var s := prefix + site.functionName + "()";
    assert s[|s| - 2..] == "()";
    s
  }

  /** `new RequiredParameter($param)`. */
  function NewRequiredParameter(site: ParamSite): (r: RequiredParameter)
    ensures GetParameter(r) == site.param.name
    ensures GetFunction(r) == FunctionDescription(site)
    ensures r.name == ClassString(site.param.ptype)
  {
    RequiredParameter(ClassString(site.param.ptype), site.param.name, FunctionDescription(site))
  }

  function GetParameter(r: RequiredParameter): string {
    r.parameter
  }

  function GetFunction(r: RequiredParameter): string {
    r.functionName
  }

  /** RequiredParameter::resolve never returns: it throws this exception. */
  function RequiredFailure(r: RequiredParameter): (e: MissingArgumentException)
    ensures e.arg == GetParameter(r) && e.functionName == GetFunction(r)
  {
    NewMissingArgument(GetParameter(r), GetFunction(r))
  }

  /**
   * A RequiredParameter built from a reflected parameter always fails with
   * the long message form, naming the parameter and `Class::fn()` / `fn()`.
   */
  lemma RequiredParameterMessage(site: ParamSite)
    ensures RequiredFailure(NewRequiredParameter(site)).message
            == "Missing argument $" + site.param.name + " for " + FunctionDescription(site) + "."
    ensures RequiredFailure(NewRequiredParameter(site)).code == 500
  {
  }
}
