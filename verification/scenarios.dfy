/**
 * Concrete configurations taken from the repository's own test suite,
 * with the outcome the model gives for each. Class names are written
 * without their namespace.
 */
module Scenarios {
  import opened Wrappers
  import opened Values
  import opened Catalog
  import opened Exceptions
  import opened Names
  import opened Planner
  import opened Container
  import ContainerFacts
  import References
  import Rules

  const DbClass := "Db"
  const PdoDbClass := "PdoDb"
  const DbInterface := "DbInterface"

  /** The parameters of `Db::__construct($name = 'localhost')`. */
  function DbParams(): seq<Param> {
    [Param("name", Untyped, Some(Str("localhost")))]
  }

  /** `Db($name = 'localhost')`, and `PdoDb extends Db` without a constructor of its own. */
  function DbCatalog(): Catalog {
    var ctor := Some(DbParams());
    Catalog(map[
      DbClass := ClassInfo([], [DbInterface], ctor, map[]),
      PdoDbClass := ClassInfo([DbClass], [DbInterface], ctor, map[])])
  }

  /** `rule(Db)->setConstructorArgs(['foo'])`, optionally with `->setInherit(false)` first. */
  function DbRuleWorld(inherit: bool): World {
    var st := SelectRule(NewContainer(), DbClass);
    var st := if inherit then st else SetInherit(st, Bool(false));
    World(map[0 := SetConstructorArgs(st, [(IntKey(0), Str("foo"))])], [])
  }

  lemma PlainName(s: string)
    requires |s| > 0 && s[0] != Separator
    ensures NormalizeId(s) == s
  {
  }

  /** The rules a DbRuleWorld holds: the wildcard's and Db's own. */
  function DbRulesMap(inherit: bool): map<string, Rules.Rule> {
    var own := Rules.EmptyRule.(ctorArgs := Some([(IntKey(0), Str("foo"))]));
    map["*" := Rules.EmptyRule.(inherit := Some(Bool(true)), ctorArgs := Some([])),
        DbClass := if inherit then own else own.(inherit := Some(Bool(false)))]
  }

  /** One container holding exactly the two rules, no instances, no factories and an empty heap. */
  ghost predicate DbConfigured(w: World, inherit: bool) {
    && 0 in w.containers && w.heap == []
    && w.containers[0].rules == DbRulesMap(inherit)
    && w.containers[0].instances == map[] && w.containers[0].factories == map[]
  }

  /** The configuration calls leave the container in exactly that state. */
  lemma DbRuleWorldConfigured(w: World, inherit: bool)
    requires w == DbRuleWorld(inherit)
    ensures DbConfigured(w, inherit)
  {
    PlainName(DbClass);
    var st0 := NewContainer();
    var st1 := SelectRule(st0, DbClass);
    var st2 := if inherit then st1 else SetInherit(st1, Bool(false));
    assert st2.instances == map[] && st2.factories == map[];
    var st3 := SetConstructorArgs(st2, [(IntKey(0), Str("foo"))]);
    assert w == World(map[0 := st3], []);
  }

  /** The effective rule of PdoDb when Db's rule is inherited: Db's arguments, then the wildcard. */
  lemma PdoDbRuleInherited(rules: map<string, Rules.Rule>)
    requires rules == DbRulesMap(true)
    ensures Rules.MakeRule(DbCatalog(), rules, PdoDbClass)
            == Rules.EmptyRule.(inherit := Some(Bool(true)), ctorArgs := Some([(IntKey(0), Str("foo"))]))
  {
    assert Rules.RuleOf(rules, PdoDbClass) == Rules.EmptyRule;
    assert !Rules.StopsInheritance(rules, DbClass);
    assert Rules.MergeAncestors(rules, Rules.EmptyRule, [DbClass]) == Rules.Union(Rules.EmptyRule, rules[DbClass]);
    assert Rules.WildcardInherits(rules);
    var withDefault := Rules.Union(Rules.Union(Rules.EmptyRule, rules[DbClass]), rules["*"]);
    assert !Rules.InterfaceAddsCalls(rules, DbInterface);
    assert Rules.AddInterfaceCalls(rules, withDefault, [DbInterface]) == withDefault;
  }

  /** The effective rule of PdoDb when Db's rule stops inheritance: only the wildcard. */
  lemma PdoDbRuleNotInherited(rules: map<string, Rules.Rule>)
    requires rules == DbRulesMap(false)
    ensures Rules.MakeRule(DbCatalog(), rules, PdoDbClass)
            == Rules.EmptyRule.(inherit := Some(Bool(true)), ctorArgs := Some([]))
  {
    assert Rules.RuleOf(rules, PdoDbClass) == Rules.EmptyRule;
    assert Rules.StopsInheritance(rules, DbClass);
    assert Rules.MergeAncestors(rules, Rules.EmptyRule, [DbClass]) == Rules.EmptyRule;
    assert Rules.WildcardInherits(rules);
    var withDefault := Rules.Union(Rules.EmptyRule, rules["*"]);
    assert !Rules.InterfaceAddsCalls(rules, DbInterface);
    assert Rules.AddInterfaceCalls(rules, withDefault, [DbInterface]) == withDefault;
  }

  /** Db's constructor plan: the positional rule argument if there is one, else the declared default. */
  lemma DbPlan(ruleArgs: Args, v: Value)
    requires (ruleArgs == [] && v == Str("localhost")) || ruleArgs == [(IntKey(0), v)]
    ensures MakeDefaultArgs(DbParams(), ruleArgs) == [("name", v)]
  {
    var lowered := LowerKeys(ruleArgs);
    assert lowered == ruleArgs;
    assert Lower("name") == "name";
    var p := DbParams()[0];
    assert Lookup(lowered, StrKey("name")).None?;
    assert ClassHint(p).None?;
    var c := ChooseDefault(p, lowered, 0);
    assert c.value == v;
    assert Put([], "name", v) == [("name", v)];
    assert PlanFrom(DbParams(), lowered, 0, 0, []) == PlanFrom(DbParams(), lowered, 1, if c.consumed then 1 else 0, [("name", v)]);
  }

  /** The factory of Db or PdoDb under a rule that only sets inherit and constructor arguments: the plan and no calls. */
  lemma DbFactory(cls: string, rule: Rules.Rule, ruleArgs: Args, v: Value)
    requires cls == DbClass || cls == PdoDbClass
    requires rule == Rules.EmptyRule.(inherit := Some(Bool(true)), ctorArgs := Some(ruleArgs))
    requires (ruleArgs == [] && v == Str("localhost")) || ruleArgs == [(IntKey(0), v)]
    ensures !IsShared(rule)
    ensures MakeFactory(DbCatalog(), cls, rule) == Ok(Factory(cls, Some([("name", v)]), []))
  {
    DbPlan(ruleArgs, v);
    assert ClassNameFor(cls, rule) == cls;
    assert DbCatalog().classes[cls].ctor == Some(DbParams());
    assert Rules.CallsOf(rule) == [];
    assert PlanCalls(cls, map[], []) == Ok([]);
  }

  /** Getting PdoDb from any fresh world whose effective PdoDb rule carries `ruleArgs`. */
  lemma DbGet(w: World, ruleArgs: Args, v: Value)
    requires 0 in w.containers && w.heap == []
    requires w.containers[0].instances == map[] && w.containers[0].factories == map[]
    requires (ruleArgs == [] && v == Str("localhost")) || ruleArgs == [(IntKey(0), v)]
    requires !IsReference(v)
    requires Rules.MakeRule(DbCatalog(), w.containers[0].rules, PdoDbClass)
             == Rules.EmptyRule.(inherit := Some(Bool(true)), ctorArgs := Some(ruleArgs))
    ensures var o := Get(DbCatalog(), w, 0, PdoDbClass, 0);
            o.res == Ok(Object(0)) && o.w.heap == [Obj(PdoDbClass, [("name", v)], [])]
  {
    DbFactory(PdoDbClass, Rules.EmptyRule.(inherit := Some(Bool(true)), ctorArgs := Some(ruleArgs)), ruleArgs, v);
    PlainName(PdoDbClass);
    var f := Factory(PdoDbClass, Some([("name", v)]), []);
    assert ContainerFacts.LiteralPlan([("name", v)]);
    ContainerFacts.FirstGetOfLiteralFactory(DbCatalog(), w, 0, PdoDbClass, f, 0);
    assert ContainerFacts.Invocations([]) == [];
  }

  /**
   * After `rule(Db)->setConstructorArgs(['foo'])` (see DbRuleWorldConfigured), the
   * subclass PdoDb is built with the constructor arguments of its parent's rule.
   */
  lemma InheritedClassArgs(w: World)
    requires DbConfigured(w, true)
    ensures var o := Get(DbCatalog(), w, 0, PdoDbClass, 0);
            o.res == Ok(Object(0)) && o.w.heap == [Obj(PdoDbClass, [("name", Str("foo"))], [])]
  {
    PdoDbRuleInherited(w.containers[0].rules);
    DbGet(w, [(IntKey(0), Str("foo"))], Str("foo"));
  }

  /**
   * After `rule(Db)->setInherit(false)->setConstructorArgs(['foo'])`, the
   * subclass PdoDb falls back to the declared default.
   */
  lemma NonInheritedClassArgs(w: World)
    requires DbConfigured(w, false)
    ensures var o := Get(DbCatalog(), w, 0, PdoDbClass, 0);
            o.res == Ok(Object(0)) && o.w.heap == [Obj(PdoDbClass, [("name", Str("localhost"))], [])]
  {
    PdoDbRuleNotInherited(w.containers[0].rules);
    DbGet(w, [], Str("localhost"));
  }

  // ------------------------------------------------------------------- cycles

  const DecoratorClass := "DbDecorator"

  /** A self-reference by name, as in `new Reference(DbDecorator)`. */
  const SelfRef := Ref(Reference(NameString(DecoratorClass), []))

  /** `DbDecorator(DbInterface $db = null)`. */
  function DecoratorParams(): seq<Param> {
    [Param("db", Named(DbInterface, false), Some(Null))]
  }

  function DecoratorCatalog(): Catalog {
    Catalog(map[DecoratorClass := ClassInfo([], [DbInterface], Some(DecoratorParams()), map[])])
  }

  /** `rule(DbDecorator)->setShared(true)->setConstructorArgs(['db' => new Reference(DbDecorator)])`. */
  function CycleWorld(): World {
    var st := SetShared(SelectRule(NewContainer(), DecoratorClass), Bool(true));
    World(map[0 := SetConstructorArgs(st, [(StrKey("db"), SelfRef)])], [])
  }

  function CycleRulesMap(): map<string, Rules.Rule> {
    map["*" := Rules.EmptyRule.(inherit := Some(Bool(true)), ctorArgs := Some([])),
        DecoratorClass := Rules.EmptyRule.(shared := Some(Bool(true)), ctorArgs := Some([(StrKey("db"), SelfRef)]))]
  }

  /** One container holding the wildcard's and DbDecorator's rules, with nothing cached. */
  ghost predicate CycleConfigured(w: World) {
    && 0 in w.containers
    && w.containers[0].rules == CycleRulesMap()
    && w.containers[0].instances == map[] && w.containers[0].factories == map[]
  }

  /** The configuration calls leave the container in exactly that state. */
  lemma CycleWorldConfigured(w: World)
    requires w == CycleWorld()
    ensures CycleConfigured(w)
  {
    PlainName(DecoratorClass);
  }

  lemma CycleRule(rules: map<string, Rules.Rule>)
    requires rules == CycleRulesMap()
    ensures Rules.MakeRule(DecoratorCatalog(), rules, DecoratorClass)
            == Rules.Rule(None, Some(Bool(true)), Some(Bool(true)), Some([(StrKey("db"), SelfRef)]), None)
  {
    var own := rules[DecoratorClass];
    assert Rules.MergeAncestors(rules, own, []) == own;
    assert Rules.WildcardInherits(rules);
    var withDefault := Rules.Union(own, rules["*"]);
    assert !Rules.InterfaceAddsCalls(rules, DbInterface);
    assert Rules.AddInterfaceCalls(rules, withDefault, [DbInterface]) == withDefault;
  }

  lemma CyclePlan()
    ensures MakeDefaultArgs(DecoratorParams(), [(StrKey("db"), SelfRef)]) == [("db", SelfRef)]
  {
    var lowered := LowerKeys([(StrKey("db"), SelfRef)]);
    assert Lower("db") == "db";
    assert lowered == [(StrKey("db"), SelfRef)];
    assert Lookup(lowered, StrKey("db")) == Some(SelfRef);
    assert Put([], "db", SelfRef) == [("db", SelfRef)];
  }

  /** Resolving the self-reference fails once the inner `get` of DbDecorator fails the same way. */
  lemma SelfRefStep(cat: Catalog, w: World, fuel: nat)
    requires fuel > 0 ==> GetArgs(cat, w, 0, DecoratorClass, [], fuel - 1) == Out(Fail(OutOfFuel), w)
    ensures ResolveArgs(cat, w, 0, [("db", SelfRef)], [], Null, fuel) == Out(Fail(OutOfFuel), w)
  {
    assert ResolveValue(cat, w, 0, SelfRef, Null, fuel) == Out(Fail(OutOfFuel), w);
    assert LowerKeys([]) == [];
  }

  /** One attempt at DbDecorator fails once the attempt its argument makes has failed. */
  lemma CycleStep(w: World, fuel: nat)
    requires CycleConfigured(w)
    requires fuel > 0 ==> Get(DecoratorCatalog(), w, 0, DecoratorClass, fuel - 1) == Out(Fail(OutOfFuel), w)
    ensures Get(DecoratorCatalog(), w, 0, DecoratorClass, fuel) == Out(Fail(OutOfFuel), w)
  {
    var cat := DecoratorCatalog();
    assert fuel > 0 ==> Get(cat, w, 0, DecoratorClass, fuel - 1) == GetArgs(cat, w, 0, DecoratorClass, [], fuel - 1);
    CycleRule(w.containers[0].rules);
    PlainName(DecoratorClass);
    var rule := Rules.MakeRule(cat, w.containers[0].rules, DecoratorClass);
    assert ClassNameFor(DecoratorClass, rule) == DecoratorClass;
    var ctor := cat.classes[DecoratorClass].ctor.value;
    assert ctor == DecoratorParams();
    CyclePlan();
    assert MakeDefaultArgs(ctor, rule.ctorArgs.value) == [("db", SelfRef)];
    SelfRefStep(cat, w, fuel);
    ContainerFacts.SharedArgumentFailureBuildsNothing(cat, w, 0, DecoratorClass, [], fuel);
  }

  /**
   * The shared self-reference never finishes: the constructor's argument is
   * resolved before the instance is published, so each attempt asks for
   * DbDecorator again, until the fuel runs out, and nothing is left behind.
   * The configuration calls produce such a state (CycleWorldConfigured).
   */
  lemma {:induction false} CyclicSharedDiverges(w: World, fuel: nat)
    requires CycleConfigured(w)
    ensures Get(DecoratorCatalog(), w, 0, DecoratorClass, fuel) == Out(Fail(OutOfFuel), w)
  {
    if fuel > 0 {
      CyclicSharedDiverges(w, fuel - 1);
    }
    CycleStep(w, fuel);
  }

  // ------------------------------------------------------- interface calls

  const FooClass := "Foo"
  const FooAware := "FooAwareInterface"
  const SetFooCall := Rules.Call("setFoo", [(IntKey(0), Int(123))])
  const SetBarCall := Rules.Call("setBar", [(IntKey(0), Int(456))])

  /** `Foo implements FooAwareInterface`, no constructor, `setFoo($foo)` and `setBar($bar)`. */
  function FooCatalog(): Catalog {
    Catalog(map[FooClass := ClassInfo([], [FooAware], None,
      map["setFoo" := [Param("foo", Untyped, None)], "setBar" := [Param("bar", Untyped, None)]])])
  }

  /** `rule(FooAwareInterface)->addCall('setFoo', [123])->defaultRule()->addCall('setBar', [456])`. */
  function CallMergeWorld(): World {
    var st := AddCall(SelectRule(NewContainer(), FooAware), "setFoo", [(IntKey(0), Int(123))]);
    World(map[0 := AddCall(DefaultRule(st), "setBar", [(IntKey(0), Int(456))])], [])
  }

  function CallMergeRulesMap(): map<string, Rules.Rule> {
    map["*" := Rules.EmptyRule.(inherit := Some(Bool(true)), ctorArgs := Some([]), calls := Some([SetBarCall])),
        FooAware := Rules.EmptyRule.(calls := Some([SetFooCall]))]
  }

  /** One container holding the wildcard's and the interface's rules, with nothing cached or built. */
  ghost predicate CallMergeConfigured(w: World) {
    && 0 in w.containers && w.heap == []
    && w.containers[0].rules == CallMergeRulesMap()
    && w.containers[0].instances == map[] && w.containers[0].factories == map[]
  }

  /** The configuration calls leave the container in exactly that state. */
  lemma CallMergeWorldConfigured(w: World)
    requires w == CallMergeWorld()
    ensures CallMergeConfigured(w)
  {
    PlainName(FooAware);
    assert [] + [SetFooCall] == [SetFooCall];
    assert [] + [SetBarCall] == [SetBarCall];
  }

  /** The wildcard's calls come first, then the interface's calls are appended. */
  lemma CallMergeRule(rules: map<string, Rules.Rule>)
    requires rules == CallMergeRulesMap()
    ensures Rules.MakeRule(FooCatalog(), rules, FooClass)
            == Rules.EmptyRule.(inherit := Some(Bool(true)), ctorArgs := Some([]), calls := Some([SetBarCall, SetFooCall]))
  {
    assert Rules.RuleOf(rules, FooClass) == Rules.EmptyRule;
    assert Rules.MergeAncestors(rules, Rules.EmptyRule, []) == Rules.EmptyRule;
    assert Rules.WildcardInherits(rules);
    var withDefault := Rules.Union(Rules.EmptyRule, rules["*"]);
    assert Rules.InterfaceAddsCalls(rules, FooAware);
    assert [SetBarCall] + [SetFooCall] == [SetBarCall, SetFooCall];
    assert Rules.AddInterfaceCalls(rules, withDefault, [FooAware])
           == Rules.AddInterfaceCalls(rules, withDefault.(calls := Some([SetBarCall, SetFooCall])), []);
  }

  /** A one-parameter method called with one positional argument gets it under the parameter's name. */
  lemma OneArgPlan(name: string, v: Value)
    requires name == "foo" || name == "bar"
    ensures MakeDefaultArgs([Param(name, Untyped, None)], [(IntKey(0), v)]) == [(name, v)]
  {
    var params := [Param(name, Untyped, None)];
    var lowered := LowerKeys([(IntKey(0), v)]);
    assert lowered == [(IntKey(0), v)];
    assert Lower(name) == name;
    assert Lookup(lowered, StrKey(name)).None?;
    assert ClassHint(params[0]).None?;
    assert ChooseDefault(params[0], lowered, 0) == Choice(v, true);
    assert Put([], name, v) == [(name, v)];
    assert PlanFrom(params, lowered, 0, 0, []) == PlanFrom(params, lowered, 1, 1, [(name, v)]);
  }

  lemma FooFactory()
    ensures MakeFactory(FooCatalog(), FooClass,
              Rules.EmptyRule.(inherit := Some(Bool(true)), ctorArgs := Some([]), calls := Some([SetBarCall, SetFooCall])))
            == Ok(Factory(FooClass, None, FooCalls()))
  {
    var methods := FooCatalog().classes[FooClass].methods;
    OneArgPlan("bar", Int(456));
    OneArgPlan("foo", Int(123));
    assert methods["setFoo"] == [Param("foo", Untyped, None)];
    assert methods["setBar"] == [Param("bar", Untyped, None)];
    assert "setFoo" in methods && "setBar" in methods;
    assert [SetFooCall][1..] == [];
    assert PlanCalls(FooClass, methods, []) == Ok([]);
    assert MakeDefaultArgs(methods["setFoo"], SetFooCall.args) == [("foo", Int(123))];
    assert MakeDefaultArgs(methods["setBar"], SetBarCall.args) == [("bar", Int(456))];
    assert [("setFoo", [("foo", Int(123))])] + [] == [("setFoo", [("foo", Int(123))])];
    assert PlanCalls(FooClass, methods, [SetFooCall]) == Ok([("setFoo", [("foo", Int(123))])]);
    assert [("setBar", [("bar", Int(456))])] + [("setFoo", [("foo", Int(123))])]
           == [("setBar", [("bar", Int(456))]), ("setFoo", [("foo", Int(123))])];
    assert [SetBarCall, SetFooCall][1..] == [SetFooCall];
    assert PlanCalls(FooClass, methods, [SetFooCall]) == Ok([("setFoo", [("foo", Int(123))])]);
    assert PlanCalls(FooClass, methods, [SetBarCall, SetFooCall])
           == Ok([("setBar", [("bar", Int(456))]), ("setFoo", [("foo", Int(123))])]);
  }

  /** The invocations `get(Foo)` makes: setBar(456), then setFoo(123). */
  function MergedInvocations(): seq<Invocation> {
    [Invocation("setBar", [("bar", Int(456))]), Invocation("setFoo", [("foo", Int(123))])]
  }

  /** The planned calls of Foo's factory: setBar(456), then setFoo(123). */
  function FooCalls(): seq<(string, Plan)> {
    [("setBar", [("bar", Int(456))]), ("setFoo", [("foo", Int(123))])]
  }

  lemma FooCallsLiteral()
    ensures forall k :: 0 <= k < |FooCalls()| ==> ContainerFacts.LiteralPlan(FooCalls()[k].1)
    ensures ContainerFacts.Invocations(FooCalls()) == MergedInvocations()
  {
    assert ContainerFacts.LiteralPlan(FooCalls()[0].1) && ContainerFacts.LiteralPlan(FooCalls()[1].1);
  }

  /** Once configured (see CallMergeWorldConfigured), `get(Foo)` makes the wildcard's call and then the interface's call on the new object. */
  lemma InterfaceCallMerging(w: World)
    requires CallMergeConfigured(w)
    ensures var o := Get(FooCatalog(), w, 0, FooClass, 0);
            o.res == Ok(Object(0)) && o.w.heap == [Obj(FooClass, [], MergedInvocations())]
  {
    CallMergeRule(w.containers[0].rules);
    FooFactory();
    PlainName(FooClass);
    FooCallsLiteral();
    ContainerFacts.FirstGetOfLiteralFactory(FooCatalog(), w, 0, FooClass, Factory(FooClass, None, FooCalls()), 0);
  }

  // ------------------------------------------------------------ nested chain

  /** `new Reference(['config', 'foo'])`. */
  const ChainRef := Ref(Reference(NameList(["config", "foo"]), []))

  /**
   * `parent->setInstance('config', child)`, `child->setInstance('foo', 'bar')`,
   * `parent->rule(Db)->setConstructorArgs([new Reference(['config', 'foo'])])`;
   * the parent is container 0 and the child container 1.
   */
  function NestedWorld(): World {
    var parent := SetConstructorArgs(SelectRule(NewContainer(), DbClass), [(IntKey(0), ChainRef)]);
    World(map[0 := SetInstance(parent, "config", ContainerObj(1)),
              1 := SetInstance(NewContainer(), "foo", Str("bar"))], [])
  }

  /** The parent's rules: the wildcard's and Db's. */
  function NestedRulesMap(): map<string, Rules.Rule> {
    map["*" := Rules.EmptyRule.(inherit := Some(Bool(true)), ctorArgs := Some([])),
        DbClass := Rules.EmptyRule.(ctorArgs := Some([(IntKey(0), ChainRef)]))]
  }

  /** Parent 0 holds Db's rule and the child as `config`; child 1 holds `foo`; nothing is built yet. */
  ghost predicate NestedConfigured(w: World) {
    && 0 in w.containers && 1 in w.containers && w.heap == []
    && w.containers[0].rules == NestedRulesMap()
    && w.containers[0].instances == map["config" := ContainerObj(1)]
    && w.containers[0].factories == map[]
    && w.containers[1].instances == map["foo" := Str("bar")]
  }

  /** The configuration calls leave the two containers in exactly that state. */
  lemma NestedWorldConfigured(w: World)
    requires w == NestedWorld()
    ensures NestedConfigured(w)
  {
    PlainName(DbClass);
    PlainName("config");
    PlainName("foo");
  }

  lemma NestedRule(rules: map<string, Rules.Rule>)
    requires rules == NestedRulesMap()
    ensures Rules.MakeRule(DbCatalog(), rules, DbClass)
            == Rules.EmptyRule.(inherit := Some(Bool(true)), ctorArgs := Some([(IntKey(0), ChainRef)]))
  {
    var own := rules[DbClass];
    assert Rules.MergeAncestors(rules, own, []) == own;
    assert Rules.WildcardInherits(rules);
    var withDefault := Rules.Union(own, rules["*"]);
    assert !Rules.InterfaceAddsCalls(rules, DbInterface);
    assert Rules.AddInterfaceCalls(rules, withDefault, [DbInterface]) == withDefault;
  }

  /** A two-name chain through set instances: container 0's `a` is container 1, whose `b` is the result. */
  lemma TwoStepChain(cat: Catalog, w: World, a: string, b: string, v: Value, fuel: nat)
    requires fuel > 0 && 0 in w.containers && 1 in w.containers
    requires InstanceIsSet(w.containers[0], NormalizeId(a)) && w.containers[0].instances[NormalizeId(a)] == ContainerObj(1)
    requires InstanceIsSet(w.containers[1], NormalizeId(b)) && w.containers[1].instances[NormalizeId(b)] == v
    ensures ResolveChain(cat, w, [a, b], ContainerObj(0), fuel, 0) == Out(Ok(v), w)
  {
    ContainerFacts.CachedInstanceWins(cat, w, 0, a, [], fuel - 1);
    ContainerFacts.CachedInstanceWins(cat, w, 1, b, [], fuel - 1);
    assert ResolveChain(cat, w, [a, b], v, fuel, 2) == Out(Ok(v), w);
    assert ResolveChain(cat, w, [a, b], ContainerObj(1), fuel, 1) == Out(Ok(v), w);
  }

  /** The constructor plan resolves the chain from the parent to the child's `foo`. */
  lemma NestedChain(cat: Catalog, w: World)
    requires 0 in w.containers && 1 in w.containers
    requires w.containers[0].instances == map["config" := ContainerObj(1)]
    requires w.containers[1].instances == map["foo" := Str("bar")]
    ensures ResolveArgs(cat, w, 0, [("name", ChainRef)], [], Null, 1) == Out(Ok([("name", Str("bar"))]), w)
  {
    PlainName("config");
    PlainName("foo");
    TwoStepChain(cat, w, "config", "foo", Str("bar"), 1);
    assert !References.IsEmptyName(NameList(["config", "foo"]));
    assert ResolveValue(cat, w, 0, ChainRef, Null, 1) == Out(Ok(Str("bar")), w);
    assert SelectArg(cat, w.heap, ChainRef, "name", [], 0) == Choice(ChainRef, false);
    assert ResolveSlots(cat, w, 0, [("name", ChainRef)], [], Null, 1, 1, 0) == Out(Ok([]), w);
    assert [("name", Str("bar"))] + [] == [("name", Str("bar"))];
    assert ResolveSlots(cat, w, 0, [("name", ChainRef)], [], Null, 1, 0, 0) == Out(Ok([("name", Str("bar"))]), w);
    assert LowerKeys([]) == [];
  }

  /** Once configured (see NestedWorldConfigured), `get(Db)` in the parent builds a Db whose constructor got the child's `foo`. */
  lemma NestedReference(w: World)
    requires NestedConfigured(w)
    ensures var o := Get(DbCatalog(), w, 0, DbClass, 1);
            o.res == Ok(Object(0)) && o.w.heap == [Obj(DbClass, [("name", Str("bar"))], [])]
  {
    var cat := DbCatalog();
    var ruleArgs := [(IntKey(0), ChainRef)];
    NestedRule(w.containers[0].rules);
    DbFactory(DbClass, Rules.EmptyRule.(inherit := Some(Bool(true)), ctorArgs := Some(ruleArgs)), ruleArgs, ChainRef);
    var f := Factory(DbClass, Some([("name", ChainRef)]), []);
    NestedChain(cat, w);
    assert RunFactory(cat, w, 0, f, [], 1) == Out(Ok(Object(0)), w.(heap := [Obj(DbClass, [("name", Str("bar"))], [])]));
    PlainName(DbClass);
    ContainerFacts.FirstGetCompilesFactory(cat, w, 0, DbClass, f, [], 1);
  }
}
