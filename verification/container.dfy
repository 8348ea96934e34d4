/**
 * The container: its configuration surface, `has`, and the resolution
 * engine (getArgs, createInstance, makeFactory, createSharedInstance,
 * resolveArgs and the `resolve` methods of the reference classes).
 *
 * PHP objects are shared by reference, and a Reference may walk through
 * containers held as instances of other containers, so the engine works on
 * a World: an arena of containers and a heap of the objects they built.
 * Every operation returns its outcome together with the world it leaves,
 * on failure too: nothing is rolled back.
 *
 * Reflection is replaced by a Catalog. Constructor and method bodies are
 * foreign code: constructing or calling records the invocation and its
 * arguments on the object, and nothing else.
 *
 * The recursion through references has no bound in PHP; here every
 * reference resolved through `get` spends one unit of `fuel`, and running
 * out is the `OutOfFuel` failure.
 */
module Container {
  import opened Wrappers
  import opened Names
  import opened Values
  import opened Catalog
  import opened Exceptions
  import opened References
  import opened Rules
  import opened Planner

  /** A method invoked on a built object, with the resolved argument plan. */
  datatype Invocation = Invocation(methodName: string, args: Plan)

  /** An object the container built: its class, the constructor's arguments and the calls made on it since. */
  datatype Obj = Obj(cls: string, ctorArgs: Plan, log: seq<Invocation>)

  /**
   * makeFactory's closure, as data: the class, the constructor plan (None
   * when the class is built by `new $className` without arguments), and the
   * planned post-construction calls.
   */
  datatype Factory = Factory(className: string, ctorPlan: Option<Plan>, calls: seq<(string, Plan)>)

  /** One Container object's fields; `current` is the key `currentRule` refers to. */
  datatype ContainerState = ContainerState(
    rules: RuleMap,
    current: string,
    instances: map<string, Value>,
    factories: map<string, Factory>)

  datatype World = World(containers: map<nat, ContainerState>, heap: seq<Obj>)

  /** An operation's result and the world it leaves behind. */
  datatype Out<+T> = Out(res: Res<T>, w: World)

  // ===================================================== configuration surface

  /** `new Container()`: the wildcard rule inherits and has empty constructor arguments, and is current. */
  function NewContainer(): (st: ContainerState)
    ensures st.rules.Keys == {"*"} && WildcardInherits(st.rules)
    ensures st.rules["*"].ctorArgs == Some([])
    ensures st.current == "*" && st.instances == map[] && st.factories == map[]
  {
    ContainerState(map["*" := EmptyRule.(inherit := Some(Bool(true)), ctorArgs := Some([]))], "*", map[], map[])
  }

  function CurrentRule(st: ContainerState): Rule {
    RuleOf(st.rules, st.current)
  }

  /** Only the current rule changed; every other rule, the selection and the caches are as before. */
  ghost predicate OnlyCurrentChanged(st: ContainerState, st': ContainerState) {
    && st'.current == st.current
    && st.current in st'.rules
    && st'.instances == st.instances && st'.factories == st.factories
    && forall k :: k != st.current ==> AgreeOn(st.rules, st'.rules, k)
  }

  function UpdateCurrent(st: ContainerState, r: Rule): ContainerState {
    st.(rules := st.rules[st.current := r])
  }

  /** `defaultRule()`: selects the wildcard rule. */
  function DefaultRule(st: ContainerState): (st': ContainerState)
    ensures st'.current == "*" && st'.rules == st.rules
  {
    st.(current := "*")
  }

  /** `rule($id)`: selects the rule of the normalised id, creating an empty one if there is none. */
  function SelectRule(st: ContainerState, id: string): (st': ContainerState)
    ensures st'.current == NormalizeId(id) && st'.current in st'.rules
    ensures CurrentRule(st') == RuleOf(st.rules, NormalizeId(id))
    ensures forall k :: k in st.rules ==> k in st'.rules && st'.rules[k] == st.rules[k]
    ensures st'.rules.Keys == st.rules.Keys + {NormalizeId(id)}
    ensures st'.instances == st.instances && st'.factories == st.factories
  {
    Select(st, NormalizeId(id))
  }

  function Select(st: ContainerState, nid: string): (st': ContainerState)
    ensures st'.current == nid && st'.current in st'.rules
    ensures CurrentRule(st') == RuleOf(st.rules, nid)
    ensures forall k :: k in st.rules ==> k in st'.rules && st'.rules[k] == st.rules[k]
    ensures st'.rules.Keys == st.rules.Keys + {nid}
    ensures st'.instances == st.instances && st'.factories == st.factories
  {
    if nid in st.rules then st.(current := nid)
    else st.(rules := st.rules[nid := EmptyRule], current := nid)
  }

  /** `setClass($value)`. */
  function SetClass(st: ContainerState, value: string): (st': ContainerState)
    ensures OnlyCurrentChanged(st, st')
    ensures CurrentRule(st') == CurrentRule(st).(cls := Some(value))
  {
    UpdateCurrent(st, CurrentRule(st).(cls := Some(value)))
  }

  /** `setShared($value)`. */
  function SetShared(st: ContainerState, value: Value): (st': ContainerState)
    ensures OnlyCurrentChanged(st, st')
    ensures CurrentRule(st') == CurrentRule(st).(shared := Some(value))
  {
    UpdateCurrent(st, CurrentRule(st).(shared := Some(value)))
  }

  /** `setInherit($value)`. */
  function SetInherit(st: ContainerState, value: Value): (st': ContainerState)
    ensures OnlyCurrentChanged(st, st')
    ensures CurrentRule(st') == CurrentRule(st).(inherit := Some(value))
  {
    UpdateCurrent(st, CurrentRule(st).(inherit := Some(value)))
  }

  /** `setConstructorArgs($args)`. */
  function SetConstructorArgs(st: ContainerState, args: Args): (st': ContainerState)
    ensures OnlyCurrentChanged(st, st')
    ensures CurrentRule(st') == CurrentRule(st).(ctorArgs := Some(args))
  {
    UpdateCurrent(st, CurrentRule(st).(ctorArgs := Some(args)))
  }

  /** `addCall($method, $args)`: appends one call to the current rule's calls, keeping the earlier ones. */
  function AddCall(st: ContainerState, methodName: string, args: Args): (st': ContainerState)
    ensures OnlyCurrentChanged(st, st')
    ensures CallsOf(CurrentRule(st')) == CallsOf(CurrentRule(st)) + [Call(methodName, args)]
    ensures CurrentRule(st') == CurrentRule(st).(calls := Some(CallsOf(CurrentRule(st)) + [Call(methodName, args)]))
  {
    UpdateCurrent(st, CurrentRule(st).(calls := Some(CallsOf(CurrentRule(st)) + [Call(methodName, args)])))
  }

  /** `setInstance($name, $instance)`: stores the value under the normalised name; rules are untouched. */
  function SetInstance(st: ContainerState, name: string, instance: Value): (st': ContainerState)
    ensures st'.rules == st.rules && st'.current == st.current && st'.factories == st.factories
    ensures st'.instances == st.instances[NormalizeId(name) := instance]
  {
    st.(instances := st.instances[NormalizeId(name) := instance])
  }

  /** `isset($this->instances[$nid])`: present and not null. */
  predicate InstanceIsSet(st: ContainerState, nid: string) {
    nid in st.instances && IsSet(st.instances[nid])
  }

  /** `has($id)`: a non-null instance, any rule (even an empty one), or an existing class. */
  predicate Has(cat: Catalog, st: ContainerState, id: string) {
    var nid := NormalizeId(id);
    InstanceIsSet(st, nid) || nid in st.rules || ClassExists(cat, nid)
  }

  // ============================================================ world helpers

  /** Allocates an object; its handle is the old heap size. */
  function Alloc(w: World, o: Obj): (r: (World, nat))
    ensures r.1 == |w.heap| && r.0.heap == w.heap + [o] && r.0.containers == w.containers
  {
    (w.(heap := w.heap + [o]), |w.heap|)
  }

  /** Records a method invocation on object `h`. */
  function Invoke(w: World, h: nat, inv: Invocation): (w': World)
    ensures w'.containers == w.containers && |w'.heap| == |w.heap|
    ensures forall j :: 0 <= j < |w.heap| ==> w'.heap[j].cls == w.heap[j].cls
  {
    if h < |w.heap| then w.(heap := w.heap[h := w.heap[h].(log := w.heap[h].log + [inv])]) else w
  }

  /** `$this->instances[$nid] = $v` in container `c`. */
  function Publish(w: World, c: nat, nid: string, v: Value): World {
    if c in w.containers
    then w.(containers := w.containers[c := w.containers[c].(instances := w.containers[c].instances[nid := v])])
    else w
  }

  /** `$this->factories[$nid] = $f` in container `c`. */
  function CacheFactory(w: World, c: nat, nid: string, f: Factory): World {
    if c in w.containers
    then w.(containers := w.containers[c := w.containers[c].(factories := w.containers[c].factories[nid := f])])
    else w
  }

  /** `!empty($rule['shared'])`. */
  predicate IsShared(r: Rule) {
    r.shared.Some? && Truthy(r.shared.value)
  }

  /** Configuration is never changed by resolution; caches and the heap only grow; objects keep their class. */
  ghost predicate Extends(w: World, w': World) {
    && w'.containers.Keys == w.containers.Keys
    && (forall c :: c in w.containers ==>
          && w'.containers[c].rules == w.containers[c].rules
          && w'.containers[c].current == w.containers[c].current
          && w.containers[c].instances.Keys <= w'.containers[c].instances.Keys
          && w.containers[c].factories.Keys <= w'.containers[c].factories.Keys)
    && |w.heap| <= |w'.heap|
    && (forall h :: 0 <= h < |w.heap| ==> w'.heap[h].cls == w.heap[h].cls)
  }

  /** An instance slot holds the same thing in both states. */
  predicate SameSlot(st: ContainerState, st': ContainerState, k: string) {
    (k in st.instances <==> k in st'.instances) && (k in st.instances ==> st'.instances[k] == st.instances[k])
  }

  /** A non-null cached instance is never replaced or removed. */
  ghost predicate Stable(w: World, w': World) {
    forall c, k :: c in w.containers && c in w'.containers && InstanceIsSet(w.containers[c], k) ==>
      k in w'.containers[c].instances && w'.containers[c].instances[k] == w.containers[c].instances[k]
  }

  /** Only ids whose effective rule is shared ever get an instance published. */
  ghost predicate OnlySharedPublished(cat: Catalog, w: World, w': World) {
    forall c, k :: c in w.containers && c in w'.containers && !IsShared(MakeRule(cat, w.containers[c].rules, k)) ==>
      SameSlot(w.containers[c], w'.containers[c], k)
  }

  /** Everything resolution guarantees about the world it leaves. */
  ghost predicate Evolves(cat: Catalog, w: World, w': World) {
    Extends(w, w') && Stable(w, w') && OnlySharedPublished(cat, w, w')
  }

  lemma EvolvesTrans(cat: Catalog, w1: World, w2: World, w3: World)
    requires Evolves(cat, w1, w2) && Evolves(cat, w2, w3)
    ensures Evolves(cat, w1, w3)
  {
  }

  lemma AllocEvolves(cat: Catalog, w: World, w1: World, o: Obj)
    requires Evolves(cat, w, w1)
    ensures Evolves(cat, w, Alloc(w1, o).0)
  {
  }

  /** Caching a factory keeps every guarantee. */
  lemma CacheFactoryEvolves(cat: Catalog, w: World, w1: World, c: nat, nid: string, f: Factory)
    requires Evolves(cat, w, w1)
    ensures Evolves(cat, w, CacheFactory(w1, c, nid, f))
  {
  }

  /** Publishing a shared id that was not set at `w` keeps every guarantee relative to `w`. */
  lemma PublishEvolves(cat: Catalog, w: World, w1: World, c: nat, nid: string, v: Value)
    requires Evolves(cat, w, w1) && c in w.containers && !InstanceIsSet(w.containers[c], nid)
    requires IsShared(MakeRule(cat, w.containers[c].rules, nid))
    ensures Evolves(cat, w, Publish(w1, c, nid, v))
  {
    var w2 := Publish(w1, c, nid, v);
    forall c', k | c' in w.containers && c' in w2.containers && !IsShared(MakeRule(cat, w.containers[c'].rules, k))
      ensures SameSlot(w.containers[c'], w2.containers[c'], k)
    {
      assert SameSlot(w.containers[c'], w1.containers[c'], k);
    }
  }

  /** A successful result is an object allocated during the operation. */
  predicate FreshObject(w: World, o: Out<Value>) {
    o.res.Ok? ==> o.res.value.Object? && |w.heap| <= o.res.value.handle < |o.w.heap|
  }

  // =========================================================== pure planning

  /** `empty($rule['class']) ? $nid : $rule['class']`. */
  function ClassNameFor(nid: string, rule: Rule): string {
    if rule.cls.Some? && !EmptyString(rule.cls.value) then rule.cls.value else nid
  }

  /** Every configured call names a method of the class. */
  predicate MethodsExist(methods: map<string, seq<Param>>, calls: seq<Call>) {
    forall k :: 0 <= k < |calls| ==> calls[k].methodName in methods
  }

  /** Call `k` is the first one naming a method the class lacks. */
  predicate FirstMissing(methods: map<string, seq<Param>>, calls: seq<Call>, k: int) {
    0 <= k < |calls| && calls[k].methodName !in methods && forall j :: 0 <= j < k ==> calls[j].methodName in methods
  }

  /**
   * Plans each configured call: `getMethod` (failing on an unknown method) and makeDefaultArgs.
   * It succeeds exactly when every method exists, planning each call's
   * arguments against that method's parameters; otherwise the error names
   * the first missing method.
   */
  function PlanCalls(className: string, methods: map<string, seq<Param>>, calls: seq<Call>): (r: Res<seq<(string, Plan)>>)
    ensures r.Ok? <==> MethodsExist(methods, calls)
    ensures r.Ok? ==> |r.value| == |calls| && forall i :: 0 <= i < |calls| ==>
              r.value[i] == (calls[i].methodName, MakeDefaultArgs(methods[calls[i].methodName], calls[i].args))
    ensures r.Fail? ==> exists k :: FirstMissing(methods, calls, k) && r.error == NoSuchMethod(className, calls[k].methodName)
  {
    if |calls| == 0 then Ok([])
    else if calls[0].methodName !in methods then Fail(NoSuchMethod(className, calls[0].methodName))
    else
      var rest := PlanCalls(className, methods, calls[1..]);
      if rest.Fail? then
        assert exists k :: FirstMissing(methods, calls, k) && rest.error == NoSuchMethod(className, calls[k].methodName) by {
          var k :| FirstMissing(methods, calls[1..], k) && rest.error == NoSuchMethod(className, calls[1..][k].methodName);
          assert FirstMissing(methods, calls, k + 1);
        }
        rest
      else
        assert MethodsExist(methods, calls) by {
          forall k | 0 < k < |calls| ensures calls[k].methodName in methods {
            assert calls[k] == calls[1..][k - 1];
          }
        }
        var r := [(calls[0].methodName, MakeDefaultArgs(methods[calls[0].methodName], calls[0].args))] + rest.value;
        assert forall i :: 0 < i < |calls| ==> r[i] == rest.value[i - 1] && calls[i] == calls[1..][i - 1];
        Ok(r)
  }

  /**
   * Container::makeFactory: fails with NotFound when the class does not
   * exist, with a TypeError when the constructor has parameters but the
   * rule has no constructorArgs, and with NoSuchMethod for an unknown call;
   * otherwise plans the constructor and every call once.
   */
  function MakeFactory(cat: Catalog, nid: string, rule: Rule): (r: Res<Factory>)
    ensures r.Ok? ==> ClassExists(cat, r.value.className) && r.value.className == ClassNameFor(nid, rule)
    ensures !ClassExists(cat, ClassNameFor(nid, rule)) ==> r == Fail(NotFound(ClassNotFound(ClassNameFor(nid, rule))))
    ensures ClassExists(cat, ClassNameFor(nid, rule)) ==>
              var info := cat.classes[ClassNameFor(nid, rule)];
              && (r == Fail(TypeError) <==> NeedsArgs(info) && rule.ctorArgs.None?)
              && (r.Ok? <==> !(NeedsArgs(info) && rule.ctorArgs.None?) && MethodsExist(info.methods, CallsOf(rule)))
              && (r.Ok? ==> PlanCalls(r.value.className, info.methods, CallsOf(rule)) == Ok(r.value.calls))
              && (r.Ok? && NeedsArgs(info) ==> r.value.ctorPlan == Some(MakeDefaultArgs(info.ctor.value, rule.ctorArgs.value)))
              && (r.Ok? && !NeedsArgs(info) ==> r.value.ctorPlan.None?)
    ensures r.Ok? ==> |r.value.calls| == |CallsOf(rule)|
  {
    var className := ClassNameFor(nid, rule);
    if !ClassExists(cat, className) then Fail(NotFound(ClassNotFound(className)))
    else
      var info := cat.classes[className];
      var hasArgs := NeedsArgs(info);
      if hasArgs && rule.ctorArgs.None? then Fail(TypeError)
      else
        var ctorPlan := if hasArgs then Some(MakeDefaultArgs(info.ctor.value, rule.ctorArgs.value)) else None;
        var calls := PlanCalls(className, info.methods, CallsOf(rule));
        if calls.Fail? then Fail(calls.error) else Ok(Factory(className, ctorPlan, calls.value))
  }

  /** `$constructor && $constructor->getNumberOfParameters() > 0`: the class is built through its constructor's plan. */
  predicate NeedsArgs(info: ClassInfo) {
    info.ctor.Some? && |info.ctor.value| > 0
  }

  /** `is_a($v, $name)` (objects only; scalars are never instances). */
  predicate InstanceOf(cat: Catalog, heap: seq<Obj>, v: Value, name: string) {
    match v
    case Object(h) => h < |heap| && ClassIsA(cat, heap[h].cls, name)
    case ContainerObj(_) => name == ContainerClass || name == ContainerInterfaceClass || name == PsrContainerInterfaceClass
    case Ref(_) => name == ReferenceClass || name == ReferenceInterfaceClass
    case DefaultRef(_) => name == DefaultReferenceClass || name == ReferenceInterfaceClass
    case Required(_) => name == RequiredParameterClass || name == DefaultReferenceClass || name == ReferenceInterfaceClass
    case _ => false
  }

  /**
   * One slot of resolveArgs before resolution: a named call argument wins
   * (an explicit null too); else the positional call argument at `pos` if
   * it is set (not null) and the slot is not a DefaultReference or the
   * argument `is_a` its class; else the planned value.
   */
  function SelectArg(cat: Catalog, heap: seq<Obj>, slot: Value, name: string, lowered: Args, pos: nat): (ch: Choice)
    ensures HasKey(lowered, StrKey(name)) ==> !ch.consumed && Some(ch.value) == Lookup(lowered, StrKey(name))
    ensures ch.consumed ==> Some(ch.value) == Lookup(lowered, IntKey(pos)) && ch.value != Null
    ensures ch.consumed && IsDefaultReference(slot) ==> InstanceOf(cat, heap, ch.value, DefaultRefName(slot))
    ensures !HasKey(lowered, StrKey(name)) && !ch.consumed ==> ch.value == slot
  {
    var named := Lookup(lowered, StrKey(name));
    if named.Some? then Choice(named.value, false)
    else
      var at := Lookup(lowered, IntKey(pos));
      if at.Some? && IsSet(at.value)
         && (!IsDefaultReference(slot) || InstanceOf(cat, heap, at.value, DefaultRefName(slot)))
      then Choice(at.value, true)
      else Choice(slot, false)
  }

  // ======================================================= resolution engine

  /** `getArgs($id, $args)`: a set instance, else the cached factory, else createInstance. */
  function GetArgs(cat: Catalog, w: World, c: nat, id: string, args: Args, fuel: nat): (o: Out<Value>)
    ensures Evolves(cat, w, o.w)
    ensures c in w.containers && !InstanceIsSet(w.containers[c], NormalizeId(id)) ==> FreshObject(w, o)
    ensures c in w.containers && !InstanceIsSet(w.containers[c], NormalizeId(id)) && o.res.Ok?
            && !IsShared(MakeRule(cat, w.containers[c].rules, NormalizeId(id)))
            ==> NormalizeId(id) in o.w.containers[c].factories
    decreases fuel, 7, 0
  {
    var nid := NormalizeId(id);
    if c !in w.containers then Out(Fail(NotAContainer), w)
    else
      var st := w.containers[c];
      if InstanceIsSet(st, nid) then Out(Ok(st.instances[nid]), w)
      else if nid in st.factories then RunFactory(cat, w, c, st.factories[nid], args, fuel)
      else CreateInstance(cat, w, c, nid, args, fuel)
  }

  /** `get($id)`. */
  function Get(cat: Catalog, w: World, c: nat, id: string, fuel: nat): (o: Out<Value>)
    ensures Evolves(cat, w, o.w)
    decreases fuel, 8, 0
  {
    GetArgs(cat, w, c, id, [], fuel)
  }

  /**
   * Container::createInstance: a non-shared rule builds through a factory
   * and caches the factory once it has produced an instance; a shared rule
   * takes the shared path.
   */
  function CreateInstance(cat: Catalog, w: World, c: nat, nid: string, args: Args, fuel: nat): (o: Out<Value>)
    requires c in w.containers && !InstanceIsSet(w.containers[c], nid)
    ensures Evolves(cat, w, o.w)
    ensures FreshObject(w, o)
    ensures !IsShared(MakeRule(cat, w.containers[c].rules, nid)) && o.res.Ok? ==> nid in o.w.containers[c].factories
    decreases fuel, 6, 0
  {
    var rule := MakeRule(cat, w.containers[c].rules, nid);
    if !IsShared(rule) then
      var f := MakeFactory(cat, nid, rule);
      if f.Fail? then Out(Fail(f.error), w)
      else
        var o := RunFactory(cat, w, c, f.value, args, fuel);
        if o.res.Fail? then o
        else
          CacheFactoryEvolves(cat, w, o.w, c, nid, f.value);
          Out(o.res, CacheFactory(o.w, c, nid, f.value))
    else CreateShared(cat, w, c, nid, rule, args, fuel)
  }

  /** Invokes a factory: resolves the constructor plan against the call's arguments, builds, then runs the planned calls. */
  function RunFactory(cat: Catalog, w: World, c: nat, f: Factory, args: Args, fuel: nat): (o: Out<Value>)
    ensures Evolves(cat, w, o.w)
    ensures FreshObject(w, o)
    ensures o.res.Ok? ==> o.w.heap[o.res.value.handle].cls == f.className
    decreases fuel, 5, 0
  {
    var ctor := if f.ctorPlan.Some? then ResolveArgs(cat, w, c, f.ctorPlan.value, args, Null, fuel) else Out(Ok([]), w);
    if ctor.res.Fail? then Out(Fail(ctor.res.error), ctor.w)
    else
      var (w1, h) := Alloc(ctor.w, Obj(f.className, ctor.res.value, []));
      AllocEvolves(cat, w, ctor.w, Obj(f.className, ctor.res.value, []));
      var calls := RunPlannedCalls(cat, w1, c, h, f.calls, fuel, 0);
      EvolvesTrans(cat, w, w1, calls.w);
      if calls.res.Fail? then Out(Fail(calls.res.error), calls.w) else Out(Ok(Object(h)), calls.w)
  }

  /** The factory's call wrapper: resolve each planned call's arguments against the new instance and invoke. */
  function RunPlannedCalls(cat: Catalog, w: World, c: nat, h: nat, calls: seq<(string, Plan)>, fuel: nat, i: nat): (o: Out<()>)
    requires i <= |calls|
    ensures Evolves(cat, w, o.w)
    decreases fuel, 4, |calls| - i
  {
    if i == |calls| then Out(Ok(()), w)
    else
      var a := ResolveArgs(cat, w, c, calls[i].1, [], Object(h), fuel);
      if a.res.Fail? then Out(Fail(a.res.error), a.w)
      else RunPlannedCalls(cat, Invoke(a.w, h, Invocation(calls[i].0, a.res.value)), c, h, calls, fuel, i + 1)
  }

  /** Container::createSharedInstance: construct and publish, then run the calls; a failing call removes nothing. */
  function CreateShared(cat: Catalog, w: World, c: nat, nid: string, rule: Rule, args: Args, fuel: nat): (o: Out<Value>)
    requires c in w.containers && !InstanceIsSet(w.containers[c], nid)
    requires rule == MakeRule(cat, w.containers[c].rules, nid) && IsShared(rule)
    ensures Evolves(cat, w, o.w)
    ensures FreshObject(w, o)
    ensures o.res.Ok? ==> nid in o.w.containers[c].instances && o.w.containers[c].instances[nid] == o.res.value
    ensures var built := ConstructShared(cat, w, c, nid, rule, args, fuel);
            built.res.Ok? ==> nid in o.w.containers[c].instances && o.w.containers[c].instances[nid] == Object(built.res.value)
    decreases fuel, 5, 0
  {
    var built := ConstructShared(cat, w, c, nid, rule, args, fuel);
    if built.res.Fail? then Out(Fail(built.res.error), built.w)
    else
      var h := built.res.value;
      var calls := RunSharedCalls(cat, built.w, c, h, ClassNameFor(nid, rule), CallsOf(rule), fuel, 0);
      EvolvesTrans(cat, w, built.w, calls.w);
      assert InstanceIsSet(built.w.containers[c], nid);
      if calls.res.Fail? then Out(Fail(calls.res.error), calls.w) else Out(Ok(Object(h)), calls.w)
  }

  /**
   * The construction half of createSharedInstance: the constructor's
   * arguments are planned and resolved FIRST, then the object is built and
   * published under `nid`.
   */
  function ConstructShared(cat: Catalog, w: World, c: nat, nid: string, rule: Rule, args: Args, fuel: nat): (o: Out<nat>)
    requires c in w.containers && !InstanceIsSet(w.containers[c], nid)
    requires IsShared(MakeRule(cat, w.containers[c].rules, nid))
    ensures Evolves(cat, w, o.w)
    ensures o.res.Ok? ==> |w.heap| <= o.res.value < |o.w.heap| && o.w.heap[o.res.value].cls == ClassNameFor(nid, rule)
    ensures o.res.Ok? ==> nid in o.w.containers[c].instances && o.w.containers[c].instances[nid] == Object(o.res.value)
    ensures !ClassExists(cat, ClassNameFor(nid, rule)) ==> o == Out(Fail(NotFound(ClassNotFound(ClassNameFor(nid, rule)))), w)
    decreases fuel, 4, 0
  {
    var className := ClassNameFor(nid, rule);
    if !ClassExists(cat, className) then Out(Fail(NotFound(ClassNotFound(className))), w)
    else
      var info := cat.classes[className];
      if info.ctor.Some? && |info.ctor.value| > 0 then
        if rule.ctorArgs.None? then Out(Fail(TypeError), w)
        else
          var a := ResolveArgs(cat, w, c, MakeDefaultArgs(info.ctor.value, rule.ctorArgs.value), args, Null, fuel);
          if a.res.Fail? then Out(Fail(a.res.error), a.w)
          else
            var (w1, h) := Alloc(a.w, Obj(className, a.res.value, []));
            AllocEvolves(cat, w, a.w, Obj(className, a.res.value, []));
            PublishEvolves(cat, w, w1, c, nid, Object(h));
            Out(Ok(h), Publish(w1, c, nid, Object(h)))
      else
        var (w1, h) := Alloc(w, Obj(className, [], []));
        AllocEvolves(cat, w, w, Obj(className, [], []));
        PublishEvolves(cat, w, w1, c, nid, Object(h));
        Out(Ok(h), Publish(w1, c, nid, Object(h)))
  }

  /** The calls half of createSharedInstance: for each call, `getMethod`, plan, resolve against the instance, invoke. */
  function RunSharedCalls(cat: Catalog, w: World, c: nat, h: nat, className: string, calls: seq<Call>, fuel: nat, i: nat): (o: Out<()>)
    requires i <= |calls|
    ensures Evolves(cat, w, o.w)
    decreases fuel, 4, |calls| - i
  {
    if i == |calls| then Out(Ok(()), w)
    else
      var methods := if className in cat.classes then cat.classes[className].methods else map[];
      var m := calls[i].methodName;
      if m !in methods then Out(Fail(NoSuchMethod(className, m)), w)
      else
        var a := ResolveArgs(cat, w, c, MakeDefaultArgs(methods[m], calls[i].args), [], Object(h), fuel);
        if a.res.Fail? then Out(Fail(a.res.error), a.w)
        else RunSharedCalls(cat, Invoke(a.w, h, Invocation(m, a.res.value)), c, h, className, calls, fuel, i + 1)
  }

  /**
   * Container::resolveArgs: overlays the call's arguments on the plan and
   * resolves references. The contracts here keep keys and literals; what
   * every slot receives, and in which world it is resolved, is stated by
   * `Resolution.ResolveArgsOverlay`.
   */
  function ResolveArgs(cat: Catalog, w: World, c: nat, plan: Plan, args: Args, instance: Value, fuel: nat): (o: Out<Plan>)
    ensures Evolves(cat, w, o.w)
    ensures o.res.Ok? ==> PlanKeys(o.res.value) == PlanKeys(plan)
    ensures o.res.Ok? ==> forall j :: 0 <= j < |plan| && NamedLiteral(LowerKeys(args), plan[j].0) ==>
                            Some(o.res.value[j].1) == Lookup(LowerKeys(args), StrKey(plan[j].0))
    ensures o.res.Ok? && |args| == 0 ==> forall j :: 0 <= j < |plan| && !IsReference(plan[j].1) ==>
                            o.res.value[j].1 == plan[j].1
    decreases fuel, 3, 0
  {
    var o := ResolveSlots(cat, w, c, plan, LowerKeys(args), instance, fuel, 0, 0);
    assert plan[0..] == plan;
    if o.res.Ok? then
      ResolvedEverywhere(plan, LowerKeys(args), o.res.value);
      assert PlanKeys(o.res.value) == PlanKeys(plan);
      o
    else o
  }

  /** The call supplies a named argument for this slot, and it needs no resolution. */
  predicate NamedLiteral(lowered: Args, name: string) {
    var v := Lookup(lowered, StrKey(name));
    v.Some? && !IsReference(v.value)
  }

  /**
   * One resolved slot: a named call argument that needs no resolution lands
   * verbatim, and, when the call passed no arguments, a non-reference slot
   * is unchanged.
   */
  predicate SlotOk(lowered: Args, slot: (string, Value), v: Value) {
    && (NamedLiteral(lowered, slot.0) ==> Some(v) == Lookup(lowered, StrKey(slot.0)))
    && (|lowered| == 0 && !IsReference(slot.1) ==> v == slot.1)
  }

  /** `r` is `p` resolved slot by slot: the same keys in the same order, each value as SlotOk describes. */
  predicate Resolved(p: Plan, lowered: Args, r: Plan) {
    && |r| == |p|
    && (|p| > 0 ==> r[0].0 == p[0].0 && SlotOk(lowered, p[0], r[0].1) && Resolved(p[1..], lowered, r[1..]))
  }

  /** The slot-by-slot description, stated for every position at once. */
  lemma {:induction false} ResolvedEverywhere(p: Plan, lowered: Args, r: Plan)
    requires Resolved(p, lowered, r)
    ensures |r| == |p|
    ensures forall j :: 0 <= j < |p| ==> r[j].0 == p[j].0 && SlotOk(lowered, p[j], r[j].1)
  {
    if |p| > 0 {
      ResolvedEverywhere(p[1..], lowered, r[1..]);
      forall j | 0 < j < |p| ensures r[j].0 == p[j].0 && SlotOk(lowered, p[j], r[j].1) {
        assert r[j] == r[1..][j - 1] && p[j] == p[1..][j - 1];
      }
    }
  }

  /** The loop of resolveArgs from slot `i` with positional cursor `pos`; yields the resolved slots `i..`. */
  function ResolveSlots(cat: Catalog, w: World, c: nat, plan: Plan, lowered: Args, instance: Value, fuel: nat, i: nat, pos: nat): (o: Out<Plan>)
    requires i <= |plan|
    ensures Evolves(cat, w, o.w)
    ensures o.res.Ok? ==> Resolved(plan[i..], lowered, o.res.value)
    decreases fuel, 2, |plan| - i
  {
    if i == |plan| then Out(Ok([]), w)
    else
      var ch := SelectArg(cat, w.heap, plan[i].1, plan[i].0, lowered, pos);
      var v := ResolveValue(cat, w, c, ch.value, instance, fuel);
      if v.res.Fail? then Out(Fail(v.res.error), v.w)
      else
        var rest := ResolveSlots(cat, v.w, c, plan, lowered, instance, fuel, i + 1, if ch.consumed then pos + 1 else pos);
        if rest.res.Fail? then rest
        else
          assert plan[i..][1..] == plan[i + 1..];
          Out(Ok([(plan[i].0, v.res.value)] + rest.res.value), rest.w)
  }

  /**
   * `$value->resolve($this, $instance)` for the reference classes; any
   * other value is returned as it is. A Reference with an empty name is
   * null, with a string name `getArgs(name, args)`, with an array name a
   * chain of `get` calls starting at this container. A DefaultReference is
   * `get(name)`. A RequiredParameter fails with MissingArgument.
   */
  function ResolveValue(cat: Catalog, w: World, c: nat, v: Value, instance: Value, fuel: nat): (o: Out<Value>)
    ensures Evolves(cat, w, o.w)
    ensures !IsReference(v) ==> o == Out(Ok(v), w)
    decreases fuel, 1, 0
  {
    match v
    case Ref(r) =>
      if IsEmptyName(r.name) then Out(Ok(Null), w)
      else if r.name.NameString? then
        if fuel == 0 then Out(Fail(OutOfFuel), w) else GetArgs(cat, w, c, r.name.s, r.args, fuel - 1)
      else ResolveChain(cat, w, r.name.names, ContainerObj(c), fuel, 0)
    case DefaultRef(d) =>
      if fuel == 0 then Out(Fail(OutOfFuel), w) else GetArgs(cat, w, c, d.name, [], fuel - 1)
    case Required(p) => Out(Fail(MissingArgument(RequiredFailure(p))), w)
    case _ => Out(Ok(v), w)
  }

  /** `foreach ($names as $name) $result = $result->get($name);` from name `i` on. */
  function ResolveChain(cat: Catalog, w: World, names: seq<string>, cur: Value, fuel: nat, i: nat): (o: Out<Value>)
    requires i <= |names|
    ensures Evolves(cat, w, o.w)
    decreases fuel, 0, |names| - i
  {
    if i == |names| then Out(Ok(cur), w)
    else if !cur.ContainerObj? then Out(Fail(NotAContainer), w)
    else if fuel == 0 then Out(Fail(OutOfFuel), w)
    else
      var next := GetArgs(cat, w, cur.cid, names[i], [], fuel - 1);
      if next.res.Fail? then next else ResolveChain(cat, next.w, names, next.res.value, fuel, i + 1)
  }
}
