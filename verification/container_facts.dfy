/**
 * Properties relating several calls of the container: id normalisation,
 * the caching state machine, argument selection, and the `resolve`
 * semantics of the three reference classes.
 */
module ContainerFacts {
  import opened Wrappers
  import opened Names
  import opened Values
  import opened Catalog
  import opened Exceptions
  import References
  import Rules
  import opened Planner
  import opened Container

  // ============================================================ normalisation

  /** `X` and `\X` (any number of separators) name the same rule, instance and `has` entry. */
  lemma LeadingSeparatorsAddressSameEntry(cat: Catalog, st: ContainerState, k: nat, id: string, v: Value)
    ensures Has(cat, st, Separators(k) + id) == Has(cat, st, id)
    ensures SelectRule(st, Separators(k) + id) == SelectRule(st, id)
    ensures SetInstance(st, Separators(k) + id, v) == SetInstance(st, id, v)
  {
    NormalizeIgnoresSeparators(k, id);
  }

  /** `getArgs` ignores leading separators. */
  lemma LeadingSeparatorsGetSameResult(cat: Catalog, w: World, c: nat, k: nat, id: string, args: Args, fuel: nat)
    ensures GetArgs(cat, w, c, Separators(k) + id, args, fuel) == GetArgs(cat, w, c, id, args, fuel)
  {
    NormalizeIgnoresSeparators(k, id);
    var nid := NormalizeId(id);
    assert NormalizeId(Separators(k) + id) == nid;
    if c in w.containers {
      var st := w.containers[c];
      if InstanceIsSet(st, nid) {
        CachedInstanceWins(cat, w, c, id, args, fuel);
        CachedInstanceWins(cat, w, c, Separators(k) + id, args, fuel);
      } else if nid in st.factories {
        assert GetArgs(cat, w, c, id, args, fuel) == RunFactory(cat, w, c, st.factories[nid], args, fuel);
      } else {
        assert GetArgs(cat, w, c, id, args, fuel) == CreateInstance(cat, w, c, nid, args, fuel);
      }
    }
  }

  // ================================================================== caching

  /** A set instance is returned as it is, whatever the call's arguments, and the world is unchanged. */
  lemma CachedInstanceWins(cat: Catalog, w: World, c: nat, id: string, args: Args, fuel: nat)
    requires c in w.containers && InstanceIsSet(w.containers[c], NormalizeId(id))
    ensures GetArgs(cat, w, c, id, args, fuel) == Out(Ok(w.containers[c].instances[NormalizeId(id)]), w)
  {
  }

  /**
   * A shared id yields the same object on every later `getArgs`, whatever
   * the arguments: the first success publishes it.
   */
  lemma SharedIsSingleton(cat: Catalog, w: World, c: nat, id: string, args1: Args, args2: Args, fuel1: nat, fuel2: nat)
    requires c in w.containers && NormalizeId(id) !in w.containers[c].factories
    requires IsShared(Rules.MakeRule(cat, w.containers[c].rules, NormalizeId(id)))
    ensures var o1 := GetArgs(cat, w, c, id, args1, fuel1);
            o1.res.Ok? ==> GetArgs(cat, o1.w, c, id, args2, fuel2) == Out(o1.res, o1.w)
  {
    var nid := NormalizeId(id);
    var o1 := GetArgs(cat, w, c, id, args1, fuel1);
    if o1.res.Ok? {
      if InstanceIsSet(w.containers[c], nid) {
        CachedInstanceWins(cat, w, c, id, args1, fuel1);
      } else {
        var rule := Rules.MakeRule(cat, w.containers[c].rules, nid);
        assert o1 == CreateInstance(cat, w, c, nid, args1, fuel1);
        assert o1 == CreateShared(cat, w, c, nid, rule, args1, fuel1);
        assert InstanceIsSet(o1.w.containers[c], nid);
      }
      CachedInstanceWins(cat, o1.w, c, id, args2, fuel2);
    }
  }

  /** The first `getArgs` of a non-shared id compiles its factory, runs it, and caches it once it has succeeded. */
  lemma FirstGetCompilesFactory(cat: Catalog, w: World, c: nat, id: string, f: Factory, args: Args, fuel: nat)
    requires c in w.containers
    requires !InstanceIsSet(w.containers[c], NormalizeId(id)) && NormalizeId(id) !in w.containers[c].factories
    requires var rule := Rules.MakeRule(cat, w.containers[c].rules, NormalizeId(id));
             !IsShared(rule) && MakeFactory(cat, NormalizeId(id), rule) == Ok(f)
    ensures var o := RunFactory(cat, w, c, f, args, fuel);
            GetArgs(cat, w, c, id, args, fuel)
            == if o.res.Fail? then o else Out(o.res, CacheFactory(o.w, c, NormalizeId(id), f))
  {
  }

  /**
   * On the shared path the constructor's arguments are resolved before
   * anything is built: when that fails, the first `getArgs` fails with the
   * same error, in the world the resolution left, and nothing is published.
   */
  lemma SharedArgumentFailureBuildsNothing(cat: Catalog, w: World, c: nat, id: string, args: Args, fuel: nat)
    requires c in w.containers
    requires !InstanceIsSet(w.containers[c], NormalizeId(id)) && NormalizeId(id) !in w.containers[c].factories
    requires var rule := Rules.MakeRule(cat, w.containers[c].rules, NormalizeId(id));
             var cls := ClassNameFor(NormalizeId(id), rule);
             IsShared(rule) && ClassExists(cat, cls) && rule.ctorArgs.Some?
             && cat.classes[cls].ctor.Some? && |cat.classes[cls].ctor.value| > 0
    ensures var rule := Rules.MakeRule(cat, w.containers[c].rules, NormalizeId(id));
            var ctor := cat.classes[ClassNameFor(NormalizeId(id), rule)].ctor.value;
            var a := ResolveArgs(cat, w, c, MakeDefaultArgs(ctor, rule.ctorArgs.value), args, Null, fuel);
            a.res.Fail? ==> GetArgs(cat, w, c, id, args, fuel) == Out(Fail(a.res.error), a.w)
  {
    var nid := NormalizeId(id);
    var rule := Rules.MakeRule(cat, w.containers[c].rules, nid);
    assert GetArgs(cat, w, c, id, args, fuel) == CreateShared(cat, w, c, nid, rule, args, fuel);
  }

  /**
   * A non-shared id that has no instance caches its factory on success, and
   * the next `getArgs` builds a different object.
   */
  lemma NonSharedGetsFresh(cat: Catalog, w: World, c: nat, id: string, args1: Args, args2: Args, fuel1: nat, fuel2: nat)
    requires c in w.containers && !InstanceIsSet(w.containers[c], NormalizeId(id))
    requires !IsShared(Rules.MakeRule(cat, w.containers[c].rules, NormalizeId(id)))
    ensures var o1 := GetArgs(cat, w, c, id, args1, fuel1);
            var o2 := GetArgs(cat, o1.w, c, id, args2, fuel2);
            o1.res.Ok? ==> NormalizeId(id) in o1.w.containers[c].factories
                           && o1.res.value.Object?
                           && (o2.res.Ok? ==> o2.res.value.Object? && o2.res.value != o1.res.value)
  {
    var nid := NormalizeId(id);
    var o1 := GetArgs(cat, w, c, id, args1, fuel1);
    if o1.res.Ok? {
      assert SameSlot(w.containers[c], o1.w.containers[c], nid);
      assert !InstanceIsSet(o1.w.containers[c], nid);
    }
  }

  // ========================================================= argument overlay

  /** A named call argument always wins, an explicit null included, and consumes no position. */
  lemma NamedArgumentWins(cat: Catalog, heap: seq<Obj>, slot: Value, name: string, lowered: Args, pos: nat, v: Value)
    requires Lookup(lowered, StrKey(name)) == Some(v)
    ensures SelectArg(cat, heap, slot, name, lowered, pos) == Choice(v, false)
  {
  }

  /** A null positional argument is never taken: the slot keeps its planned value and the cursor stays. */
  lemma NullPositionalSkipped(cat: Catalog, heap: seq<Obj>, slot: Value, name: string, lowered: Args, pos: nat)
    requires !HasKey(lowered, StrKey(name)) && Lookup(lowered, IntKey(pos)) == Some(Null)
    ensures SelectArg(cat, heap, slot, name, lowered, pos) == Choice(slot, false)
  {
  }

  /**
   * Without a named argument, the positional one is taken exactly when it
   * is set and passes the type gate; a RequiredParameter slot is gated like
   * any DefaultReference.
   */
  lemma PositionalTakenIff(cat: Catalog, heap: seq<Obj>, slot: Value, name: string, lowered: Args, pos: nat)
    requires !HasKey(lowered, StrKey(name))
    ensures SelectArg(cat, heap, slot, name, lowered, pos).consumed <==>
              (Lookup(lowered, IntKey(pos)).Some? && Lookup(lowered, IntKey(pos)).value != Null
               && (!IsDefaultReference(slot) || InstanceOf(cat, heap, Lookup(lowered, IntKey(pos)).value, DefaultRefName(slot))))
    ensures slot.Required? ==> IsDefaultReference(slot)
  {
  }

  /** The plan holds no reference, so resolution has nothing to do on it. */
  predicate LiteralPlan(plan: Plan) {
    forall j :: 0 <= j < |plan| ==> !IsReference(plan[j].1)
  }

  /** The invocations a list of planned calls makes, in order. */
  function Invocations(calls: seq<(string, Plan)>): (r: seq<Invocation>)
    ensures |r| == |calls| && forall j :: 0 <= j < |calls| ==> r[j] == Invocation(calls[j].0, calls[j].1)
  {
    seq(|calls|, j requires 0 <= j < |calls| => Invocation(calls[j].0, calls[j].1))
  }

  /** Object `h` with `invs` appended to its log. */
  function AppendLog(w: World, h: nat, invs: seq<Invocation>): World
    requires h < |w.heap|
  {
    w.(heap := w.heap[h := w.heap[h].(log := w.heap[h].log + invs)])
  }

  lemma AppendLogTwice(w: World, h: nat, a: seq<Invocation>, b: seq<Invocation>)
    requires h < |w.heap|
    ensures AppendLog(AppendLog(w, h, a), h, b) == AppendLog(w, h, a + b)
  {
    assert w.heap[h].log + a + b == w.heap[h].log + (a + b);
  }

  /**
   * The factory's calls run in rule order, each once, with its planned
   * arguments, and nothing else changes (when no argument needs resolving).
   */
  lemma {:induction false} LiteralCallsRunInOrder(cat: Catalog, w: World, c: nat, h: nat, calls: seq<(string, Plan)>, fuel: nat, i: nat)
    requires i <= |calls| && h < |w.heap|
    requires forall k :: i <= k < |calls| ==> LiteralPlan(calls[k].1)
    ensures RunPlannedCalls(cat, w, c, h, calls, fuel, i) == Out(Ok(()), AppendLog(w, h, Invocations(calls[i..])))
    decreases |calls| - i
  {
    if i == |calls| {
      assert Invocations(calls[i..]) == [];
      assert w.heap[h].(log := w.heap[h].log + []) == w.heap[h];
      assert w.heap[h := w.heap[h]] == w.heap;
    } else {
      var inv := Invocation(calls[i].0, calls[i].1);
      LiteralPlanResolvesToItself(cat, w, c, calls[i].1, Object(h), fuel);
      assert RunPlannedCalls(cat, w, c, h, calls, fuel, i) == RunPlannedCalls(cat, Invoke(w, h, inv), c, h, calls, fuel, i + 1);
      assert Invoke(w, h, inv) == AppendLog(w, h, [inv]);
      LiteralCallsRunInOrder(cat, AppendLog(w, h, [inv]), c, h, calls, fuel, i + 1);
      AppendLogTwice(w, h, [inv], Invocations(calls[i + 1..]));
      assert Invocations(calls[i..]) == [inv] + Invocations(calls[i + 1..]);
    }
  }

  /**
   * A factory whose plans hold no references, called without arguments,
   * builds exactly one new object, with the planned constructor arguments,
   * and makes the planned calls on it in order.
   */
  lemma LiteralFactoryRuns(cat: Catalog, w: World, c: nat, f: Factory, fuel: nat)
    requires f.ctorPlan.Some? ==> LiteralPlan(f.ctorPlan.value)
    requires forall k :: 0 <= k < |f.calls| ==> LiteralPlan(f.calls[k].1)
    ensures var built := w.(heap := w.heap + [Obj(f.className, f.ctorPlan.GetOr([]), [])]);
            RunFactory(cat, w, c, f, [], fuel) == Out(Ok(Object(|w.heap|)), AppendLog(built, |w.heap|, Invocations(f.calls)))
  {
    if f.ctorPlan.Some? {
      LiteralPlanResolvesToItself(cat, w, c, f.ctorPlan.value, Null, fuel);
    }
    var built := w.(heap := w.heap + [Obj(f.className, f.ctorPlan.GetOr([]), [])]);
    LiteralCallsRunInOrder(cat, built, c, |w.heap|, f.calls, fuel, 0);
    assert f.calls[0..] == f.calls;
  }

  /**
   * The first `get` of a non-shared id whose factory holds no references
   * builds exactly one object: the planned constructor arguments, then every
   * planned call in order. The factory is cached and nothing else changes.
   */
  lemma FirstGetOfLiteralFactory(cat: Catalog, w: World, c: nat, id: string, f: Factory, fuel: nat)
    requires c in w.containers
    requires !InstanceIsSet(w.containers[c], NormalizeId(id)) && NormalizeId(id) !in w.containers[c].factories
    requires var rule := Rules.MakeRule(cat, w.containers[c].rules, NormalizeId(id));
             !IsShared(rule) && MakeFactory(cat, NormalizeId(id), rule) == Ok(f)
    requires f.ctorPlan.Some? ==> LiteralPlan(f.ctorPlan.value)
    requires forall k :: 0 <= k < |f.calls| ==> LiteralPlan(f.calls[k].1)
    ensures var o := Get(cat, w, c, id, fuel);
            o.res == Ok(Object(|w.heap|))
            && o.w.heap == w.heap + [Obj(f.className, f.ctorPlan.GetOr([]), Invocations(f.calls))]
            && o.w.containers[c].factories == w.containers[c].factories[NormalizeId(id) := f]
            && o.w.containers[c].instances == w.containers[c].instances
  {
    var nid := NormalizeId(id);
    var built := w.(heap := w.heap + [Obj(f.className, f.ctorPlan.GetOr([]), [])]);
    var logged := AppendLog(built, |w.heap|, Invocations(f.calls));
    LiteralFactoryRuns(cat, w, c, f, fuel);
    FirstGetCompilesFactory(cat, w, c, id, f, [], fuel);
    assert GetArgs(cat, w, c, id, [], fuel) == Out(Ok(Object(|w.heap|)), CacheFactory(logged, c, nid, f));
    LoggedHeap(w, f);
    CacheFactoryKeeps(logged, c, nid, f);
  }

  /** The heap after building `f`'s object and logging its calls. */
  lemma LoggedHeap(w: World, f: Factory)
    ensures var built := w.(heap := w.heap + [Obj(f.className, f.ctorPlan.GetOr([]), [])]);
            AppendLog(built, |w.heap|, Invocations(f.calls)).heap
            == w.heap + [Obj(f.className, f.ctorPlan.GetOr([]), Invocations(f.calls))]
            && AppendLog(built, |w.heap|, Invocations(f.calls)).containers == w.containers
  {
    assert [] + Invocations(f.calls) == Invocations(f.calls);
  }

  /** Caching a factory touches only that container's factory table. */
  lemma CacheFactoryKeeps(w: World, c: nat, nid: string, f: Factory)
    requires c in w.containers
    ensures var w' := CacheFactory(w, c, nid, f);
            w'.heap == w.heap && c in w'.containers
            && w'.containers[c].factories == w.containers[c].factories[nid := f]
            && w'.containers[c].instances == w.containers[c].instances
  {
  }

  /** Without call arguments, a slot holding no reference passes through and the cursor stays. */
  lemma LiteralSlotStep(cat: Catalog, w: World, c: nat, plan: Plan, instance: Value, fuel: nat, i: nat, pos: nat)
    requires i < |plan| && !IsReference(plan[i].1)
    ensures var rest := ResolveSlots(cat, w, c, plan, [], instance, fuel, i + 1, pos);
            ResolveSlots(cat, w, c, plan, [], instance, fuel, i, pos)
            == if rest.res.Fail? then rest else Out(Ok([plan[i]] + rest.res.value), rest.w)
  {
    var ch := SelectArg(cat, w.heap, plan[i].1, plan[i].0, [], pos);
    assert ch.value == plan[i].1 && !ch.consumed;
    assert ResolveValue(cat, w, c, ch.value, instance, fuel) == Out(Ok(plan[i].1), w);
  }

  /** Slots `i..` of a plan holding no references, resolved without call arguments, come back unchanged. */
  lemma {:induction false} LiteralSlotsResolveToThemselves(cat: Catalog, w: World, c: nat, plan: Plan, instance: Value, fuel: nat, i: nat, pos: nat)
    requires i <= |plan|
    requires forall j :: i <= j < |plan| ==> !IsReference(plan[j].1)
    ensures ResolveSlots(cat, w, c, plan, [], instance, fuel, i, pos) == Out(Ok(plan[i..]), w)
    decreases |plan| - i
  {
    if i < |plan| {
      LiteralSlotStep(cat, w, c, plan, instance, fuel, i, pos);
      LiteralSlotsResolveToThemselves(cat, w, c, plan, instance, fuel, i + 1, pos);
      assert plan[i..] == [plan[i]] + plan[i + 1..];
    }
  }

  /** A plan holding no references, resolved without call arguments, is returned as it is and the world is untouched. */
  lemma LiteralPlanResolvesToItself(cat: Catalog, w: World, c: nat, plan: Plan, instance: Value, fuel: nat)
    requires LiteralPlan(plan)
    ensures ResolveArgs(cat, w, c, plan, [], instance, fuel) == Out(Ok(plan), w)
  {
    LiteralSlotsResolveToThemselves(cat, w, c, plan, instance, fuel, 0, 0);
    assert LowerKeys([]) == [];
    assert plan[0..] == plan;
  }

  // ================================================================ references

  /** A Reference with a PHP-empty name is null, without touching any container. */
  lemma EmptyNameIsNull(cat: Catalog, w: World, c: nat, r: Reference, instance: Value, fuel: nat)
    requires References.IsEmptyName(r.name)
    ensures ResolveValue(cat, w, c, Ref(r), instance, fuel) == Out(Ok(Null), w)
  {
  }

  /** A Reference with a string name is `getArgs(name, args)` on the resolving container. */
  lemma StringNameIsGetArgs(cat: Catalog, w: World, c: nat, s: string, args: Args, instance: Value, fuel: nat)
    requires !EmptyString(s) && fuel > 0
    ensures ResolveValue(cat, w, c, Ref(References.NewReference(NameString(s), args)), instance, fuel)
            == GetArgs(cat, w, c, s, args, fuel - 1)
  {
  }

  /** One more step of the `get` chain. */
  function ChainStep(cat: Catalog, o: Out<Value>, n: string, fuel: nat): Out<Value> {
    if o.res.Fail? then o
    else if !o.res.value.ContainerObj? then Out(Fail(NotAContainer), o.w)
    else if fuel == 0 then Out(Fail(OutOfFuel), o.w)
    else GetArgs(cat, o.w, o.res.value.cid, n, [], fuel - 1)
  }

  /** An array name is a left fold of `get`: appending a name adds one step after the rest. */
  lemma {:induction false} ChainIsLeftFold(cat: Catalog, w: World, names: seq<string>, n: string, cur: Value, fuel: nat, i: nat)
    requires i <= |names|
    ensures ResolveChain(cat, w, names + [n], cur, fuel, i) == ChainStep(cat, ResolveChain(cat, w, names, cur, fuel, i), n, fuel)
    decreases |names| - i
  {
    var ext := names + [n];
    if i == |names| {
      if cur.ContainerObj? && fuel > 0 {
        var next := GetArgs(cat, w, cur.cid, ext[i], [], fuel - 1);
        assert ext[i] == n;
        if next.res.Ok? {
          assert ResolveChain(cat, next.w, ext, next.res.value, fuel, i + 1) == Out(Ok(next.res.value), next.w);
        }
      }
    } else {
      assert ext[i] == names[i];
      if cur.ContainerObj? && fuel > 0 {
        var next := GetArgs(cat, w, cur.cid, names[i], [], fuel - 1);
        if next.res.Ok? {
          ChainIsLeftFold(cat, next.w, names, n, next.res.value, fuel, i + 1);
        }
      }
    }
  }

  /** A one-element array name is `get(name)` on the resolving container. */
  lemma SingletonChainIsGet(cat: Catalog, w: World, c: nat, s: string, args: Args, instance: Value, fuel: nat)
    requires fuel > 0
    ensures ResolveValue(cat, w, c, Ref(References.NewReference(NameList([s]), args)), instance, fuel) == Get(cat, w, c, s, fuel - 1)
  {
    ChainIsLeftFold(cat, w, [], s, ContainerObj(c), fuel, 0);
    assert [] + [s] == [s];
  }

  /** The instance the arguments are resolved against never changes what a reference resolves to. */
  lemma InstanceIgnored(cat: Catalog, w: World, c: nat, v: Value, i1: Value, i2: Value, fuel: nat)
    ensures ResolveValue(cat, w, c, v, i1, fuel) == ResolveValue(cat, w, c, v, i2, fuel)
  {
  }

  /** A DefaultReference is `get(name)`: no constructor arguments are passed. */
  lemma DefaultReferenceIsGet(cat: Catalog, w: World, c: nat, name: string, instance: Value, fuel: nat)
    requires fuel > 0
    ensures ResolveValue(cat, w, c, DefaultRef(References.NewDefaultReference(name)), instance, fuel) == Get(cat, w, c, name, fuel - 1)
  {
  }

  /** A RequiredParameter never resolves: it fails with its parameter and function, code 500, and the world unchanged. */
  lemma RequiredParameterFails(cat: Catalog, w: World, c: nat, site: ParamSite, instance: Value, fuel: nat)
    ensures var o := ResolveValue(cat, w, c, Required(References.NewRequiredParameter(site)), instance, fuel);
            o.w == w && o.res.Fail? && o.res.error.MissingArgument?
            && o.res.error.missing.arg == site.param.name
            && o.res.error.missing.functionName == References.FunctionDescription(site)
            && o.res.error.missing.code == 500
  {
  }

  // ====================================================================== has

  /** Selecting a rule is enough for `has`, even if the rule stays empty. */
  lemma HasAfterRule(cat: Catalog, st: ContainerState, id: string)
    ensures Has(cat, SelectRule(st, id), id)
  {
  }

  /** `has` follows `isset`: a null instance does not count, any other does. */
  lemma HasAfterSetInstance(cat: Catalog, st: ContainerState, id: string, v: Value)
    ensures IsSet(v) ==> Has(cat, SetInstance(st, id, v), id)
    ensures !IsSet(v) && NormalizeId(id) !in st.rules && !ClassExists(cat, NormalizeId(id))
            ==> !Has(cat, SetInstance(st, id, v), id)
  {
  }

  /**
   * An id with no instance and no cached factory whose effective rule names
   * a class that does not exist: `getArgs` throws the 404
   * NotFoundException for that class, shared or not, and builds nothing.
   */
  lemma MissingClassIsNotFound(cat: Catalog, w: World, c: nat, id: string, args: Args, fuel: nat)
    requires c in w.containers
    requires !InstanceIsSet(w.containers[c], NormalizeId(id)) && NormalizeId(id) !in w.containers[c].factories
    requires !ClassExists(cat, ClassNameFor(NormalizeId(id), Rules.MakeRule(cat, w.containers[c].rules, NormalizeId(id))))
    ensures var nid := NormalizeId(id);
            var className := ClassNameFor(nid, Rules.MakeRule(cat, w.containers[c].rules, nid));
            GetArgs(cat, w, c, id, args, fuel) == Out(Fail(NotFound(ClassNotFound(className))), w)
  {
    var nid := NormalizeId(id);
    var rule := Rules.MakeRule(cat, w.containers[c].rules, nid);
    assert GetArgs(cat, w, c, id, args, fuel) == CreateInstance(cat, w, c, nid, args, fuel);
    if IsShared(rule) {
      assert CreateInstance(cat, w, c, nid, args, fuel) == CreateShared(cat, w, c, nid, rule, args, fuel);
    }
  }

  /**
   * An id `has` denies, with no cached factory and no class from the
   * wildcard rule, is looked up as the class of that very name: `getArgs`
   * throws the 404 NotFoundException naming it and builds nothing.
   */
  lemma UnknownIdIsNotFound(cat: Catalog, w: World, c: nat, id: string, args: Args, fuel: nat)
    requires c in w.containers
    requires !Has(cat, w.containers[c], id) && NormalizeId(id) !in w.containers[c].factories
    requires Rules.MakeRule(cat, w.containers[c].rules, NormalizeId(id)).cls.None?
    ensures GetArgs(cat, w, c, id, args, fuel) == Out(Fail(NotFound(ClassNotFound(NormalizeId(id)))), w)
  {
    MissingClassIsNotFound(cat, w, c, id, args, fuel);
  }

  // ============================================================ configuration

  /** A rule's own constructor arguments are what `makeRule` uses for that id. */
  lemma ConstructorArgsTakeEffect(cat: Catalog, st: ContainerState, id: string, args: Args)
    ensures var st' := SetConstructorArgs(SelectRule(st, id), args);
            Rules.MakeRule(cat, st'.rules, NormalizeId(id)).ctorArgs == Some(args)
  {
    var st' := SetConstructorArgs(SelectRule(st, id), args);
    var nid := NormalizeId(id);
    Rules.MakeRuleIsFirstWriterWins(cat, st'.rules, nid, Rules.ArgsField);
    var srcs := Rules.Sources(cat, st'.rules, nid);
    Rules.FirstSetPicksEarliest(srcs, Rules.ArgsField, 0);
  }
}
