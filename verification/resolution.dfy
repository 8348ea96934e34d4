/**
 * What Container::resolveArgs computes, stated without its cursor: which
 * value each slot selects (a named call argument, the positional call
 * argument the slot is entitled to, or the planned value), and what that
 * value becomes once references are resolved.
 */
module Resolution {
  import opened Wrappers
  import opened Values
  import opened Catalog
  import opened Exceptions
  import opened Planner
  import opened Container
  import ContainerFacts
  import References

  /** Every object among the call's arguments is one the heap holds (PHP objects always exist). */
  predicate ArgsInHeap(args: Args, heap: seq<Obj>) {
    forall k :: 0 <= k < |args| && args[k].1.Object? ==> args[k].1.handle < |heap|
  }

  /** No call argument needs resolution. */
  predicate NoReferences(args: Args) {
    forall k :: 0 <= k < |args| ==> !IsReference(args[k].1)
  }

  /** How many positional call arguments the slots before `i` take. */
  function Taken(cat: Catalog, heap: seq<Obj>, plan: Plan, lowered: Args, i: nat): (n: nat)
    requires i <= |plan|
    ensures n <= i
  {
    if i == 0 then 0
    else
      var pos := Taken(cat, heap, plan, lowered, i - 1);
      pos + (if SelectArg(cat, heap, plan[i - 1].1, plan[i - 1].0, lowered, pos).consumed then 1 else 0)
  }

  /** The value slot `i` selects before resolution: its cursor is the number of positionals taken before it. */
  function ExpectedArg(cat: Catalog, heap: seq<Obj>, plan: Plan, lowered: Args, i: nat): Value
    requires i < |plan|
  {
    SelectArg(cat, heap, plan[i].1, plan[i].0, lowered, Taken(cat, heap, plan, lowered, i)).value
  }

  /**
   * The world slot `j` is resolved in: the starting world after the selected
   * values of slots `0..j` have been resolved, one after the other, in plan
   * order (an earlier slot may build or publish objects).
   */
  ghost function SlotWorld(cat: Catalog, w: World, c: nat, plan: Plan, lowered: Args, instance: Value, fuel: nat, j: nat): (r: World)
    requires j <= |plan|
    ensures Evolves(cat, w, r)
  {
    if j == 0 then w
    else
      var prev := SlotWorld(cat, w, c, plan, lowered, instance, fuel, j - 1);
      var o := ResolveValue(cat, prev, c, ExpectedArg(cat, w.heap, plan, lowered, j - 1), instance, fuel);
      EvolvesTrans(cat, w, prev, o.w);
      o.w
  }

  /**
   * Slot `i` holds `v`: its selected value, resolved by `$value->resolve($this, $instance)`
   * in the world the earlier slots left (a value that is no reference comes back as it is).
   */
  ghost predicate SlotOverlaid(cat: Catalog, w: World, c: nat, plan: Plan, lowered: Args, instance: Value, fuel: nat, i: nat, v: Value)
    requires i < |plan|
  {
    ResolveValue(cat, SlotWorld(cat, w, c, plan, lowered, instance, fuel, i), c, ExpectedArg(cat, w.heap, plan, lowered, i), instance, fuel).res == Ok(v)
  }

  /**
   * `r` holds slots `i..` of the plan, each keyed as planned and holding its
   * selected value resolved, slot `i` in world `wi` and each later slot in
   * the world the one before it left. Selection is against `w0`, the world
   * the call started in.
   */
  ghost predicate OverlaidFrom(cat: Catalog, w0: World, wi: World, c: nat, plan: Plan, lowered: Args, instance: Value, fuel: nat, i: nat, r: Plan)
    requires i <= |plan|
    decreases |plan| - i
  {
    && |r| == |plan| - i
    && (i < |plan| ==>
          var v := ResolveValue(cat, wi, c, ExpectedArg(cat, w0.heap, plan, lowered, i), instance, fuel);
          && r[0].0 == plan[i].0
          && v.res == Ok(r[0].1)
          && OverlaidFrom(cat, w0, v.w, c, plan, lowered, instance, fuel, i + 1, r[1..]))
  }

  /**
   * Selection looks at the heap only to ask `is_a` of a positional object
   * argument, and the heap only grows with classes kept, so a later heap
   * selects the same as the heap the call started with.
   */
  lemma SelectArgStable(cat: Catalog, heap: seq<Obj>, heap': seq<Obj>, slot: Value, name: string, lowered: Args, pos: nat)
    requires ArgsInHeap(lowered, heap)
    requires |heap| <= |heap'| && forall h :: 0 <= h < |heap| ==> heap'[h].cls == heap[h].cls
    ensures SelectArg(cat, heap', slot, name, lowered, pos) == SelectArg(cat, heap, slot, name, lowered, pos)
  {
    var at := Lookup(lowered, IntKey(pos));
    if at.Some? && at.value.Object? {
      var k :| 0 <= k < |lowered| && lowered[k] == (IntKey(pos), at.value) && forall j :: k < j < |lowered| ==> lowered[j].0 != IntKey(pos);
      assert at.value.handle < |heap|;
    }
  }

  /**
   * In a world the call's starting world evolves into, with the cursor at the
   * positionals taken before slot `i`, the loop selects slot `i`'s expected
   * argument and moves the cursor to the count taken before slot `i + 1`.
   */
  lemma SelectsExpected(cat: Catalog, w0: World, w: World, plan: Plan, lowered: Args, i: nat, pos: nat)
    requires i < |plan|
    requires ArgsInHeap(lowered, w0.heap) && Evolves(cat, w0, w)
    requires pos == Taken(cat, w0.heap, plan, lowered, i)
    ensures var ch := SelectArg(cat, w.heap, plan[i].1, plan[i].0, lowered, pos);
            && ch.value == ExpectedArg(cat, w0.heap, plan, lowered, i)
            && (if ch.consumed then pos + 1 else pos) == Taken(cat, w0.heap, plan, lowered, i + 1)
  {
    SelectArgStable(cat, w0.heap, w.heap, plan[i].1, plan[i].0, lowered, pos);
  }

  /** One iteration of the resolveArgs loop: a successful run resolved slot `i`'s selection and then the rest. */
  lemma SlotStep(cat: Catalog, w: World, c: nat, plan: Plan, lowered: Args, instance: Value, fuel: nat, i: nat, pos: nat)
    requires i < |plan|
    ensures var o := ResolveSlots(cat, w, c, plan, lowered, instance, fuel, i, pos);
            var ch := SelectArg(cat, w.heap, plan[i].1, plan[i].0, lowered, pos);
            var v := ResolveValue(cat, w, c, ch.value, instance, fuel);
            o.res.Ok? ==>
              && v.res.Ok?
              && var rest := ResolveSlots(cat, v.w, c, plan, lowered, instance, fuel, i + 1, if ch.consumed then pos + 1 else pos);
                 rest.res.Ok? && o.res.value == [(plan[i].0, v.res.value)] + rest.res.value
  {
  }

  /** The loop of resolveArgs from slot `i` on, with the cursor at the positionals taken so far. */
  lemma {:induction false} SlotsOverlay(cat: Catalog, w0: World, w: World, c: nat, plan: Plan, lowered: Args, instance: Value, fuel: nat, i: nat, pos: nat)
    requires i <= |plan|
    requires ArgsInHeap(lowered, w0.heap) && Evolves(cat, w0, w)
    requires pos == Taken(cat, w0.heap, plan, lowered, i)
    ensures var o := ResolveSlots(cat, w, c, plan, lowered, instance, fuel, i, pos);
            o.res.Ok? ==> OverlaidFrom(cat, w0, w, c, plan, lowered, instance, fuel, i, o.res.value)
    decreases |plan| - i
  {
    var o := ResolveSlots(cat, w, c, plan, lowered, instance, fuel, i, pos);
    if i < |plan| && o.res.Ok? {
      var ch := SelectArg(cat, w.heap, plan[i].1, plan[i].0, lowered, pos);
      SelectsExpected(cat, w0, w, plan, lowered, i, pos);
      var v := ResolveValue(cat, w, c, ch.value, instance, fuel);
      SlotStep(cat, w, c, plan, lowered, instance, fuel, i, pos);
      var pos' := if ch.consumed then pos + 1 else pos;
      EvolvesTrans(cat, w0, w, v.w);
      SlotsOverlay(cat, w0, v.w, c, plan, lowered, instance, fuel, i + 1, pos');
      assert o.res.value[1..] == ResolveSlots(cat, v.w, c, plan, lowered, instance, fuel, i + 1, pos').res.value;
    }
  }

  /** The head of an overlay that starts in slot `i`'s SlotWorld, and the rest starting in slot `i + 1`'s. */
  lemma OverlaidHead(cat: Catalog, w: World, c: nat, plan: Plan, lowered: Args, instance: Value, fuel: nat, i: nat, r: Plan)
    requires i < |plan|
    requires OverlaidFrom(cat, w, SlotWorld(cat, w, c, plan, lowered, instance, fuel, i), c, plan, lowered, instance, fuel, i, r)
    ensures r[0].0 == plan[i].0 && SlotOverlaid(cat, w, c, plan, lowered, instance, fuel, i, r[0].1)
    ensures OverlaidFrom(cat, w, SlotWorld(cat, w, c, plan, lowered, instance, fuel, i + 1), c, plan, lowered, instance, fuel, i + 1, r[1..])
  {
  }

  /** The slot-by-slot description, stated for every position at once, each slot in its own SlotWorld. */
  lemma {:induction false} OverlaidEverywhere(cat: Catalog, w: World, c: nat, plan: Plan, lowered: Args, instance: Value, fuel: nat, i: nat, r: Plan)
    requires i <= |plan|
    requires OverlaidFrom(cat, w, SlotWorld(cat, w, c, plan, lowered, instance, fuel, i), c, plan, lowered, instance, fuel, i, r)
    ensures |r| == |plan| - i
    ensures forall j :: i <= j < |plan| ==>
              (r[j - i].0 == plan[j].0 && SlotOverlaid(cat, w, c, plan, lowered, instance, fuel, j, r[j - i].1))
    decreases |plan| - i
  {
    if i < |plan| {
      OverlaidHead(cat, w, c, plan, lowered, instance, fuel, i, r);
      OverlaidEverywhere(cat, w, c, plan, lowered, instance, fuel, i + 1, r[1..]);
      forall j | i < j < |plan|
        ensures r[j - i].0 == plan[j].0 && SlotOverlaid(cat, w, c, plan, lowered, instance, fuel, j, r[j - i].1)
      {
        assert r[j - i] == r[1..][j - (i + 1)];
      }
    }
  }

  /**
   * resolveArgs overlays the call's arguments on the plan and resolves what
   * it selected: the result has the plan's keys in order, and slot `j`
   * holds its selected value (the named call argument, else the positional
   * one at the count of positionals taken before it if it is set and passes
   * the DefaultReference gate, else the planned value), resolved in the
   * world the earlier slots left (its SlotWorld); a value that is no
   * reference comes back as it is.
   */
  lemma ResolveArgsOverlay(cat: Catalog, w: World, c: nat, plan: Plan, args: Args, instance: Value, fuel: nat)
    requires ArgsInHeap(args, w.heap)
    ensures var o := ResolveArgs(cat, w, c, plan, args, instance, fuel);
            o.res.Ok? ==> |o.res.value| == |plan| && forall j :: 0 <= j < |plan| ==>
              (o.res.value[j].0 == plan[j].0 && SlotOverlaid(cat, w, c, plan, LowerKeys(args), instance, fuel, j, o.res.value[j].1))
  {
    var lowered := LowerKeys(args);
    var o := ResolveArgs(cat, w, c, plan, args, instance, fuel);
    assert ArgsInHeap(lowered, w.heap);
    SlotsOverlay(cat, w, w, c, plan, lowered, instance, fuel, 0, 0);
    if o.res.Ok? {
      var r := o.res.value;
      OverlaidEverywhere(cat, w, c, plan, lowered, instance, fuel, 0, r);
      forall j | 0 <= j < |plan|
        ensures r[j].0 == plan[j].0 && SlotOverlaid(cat, w, c, plan, lowered, instance, fuel, j, r[j].1)
      {
        assert r[j - 0] == r[j];
      }
    }
  }

  /** A RequiredParameter never resolves, in whatever world: its resolve always throws. */
  lemma RequiredNeverResolves(cat: Catalog, w: World, c: nat, e: Value, instance: Value, fuel: nat)
    requires e.Required?
    ensures ResolveValue(cat, w, c, e, instance, fuel).res.Fail?
  {
  }

  /** A Reference with a PHP-empty name resolves to null, in whatever world. */
  lemma EmptyReferenceIsNull(cat: Catalog, w: World, c: nat, e: Value, instance: Value, fuel: nat)
    requires e.Ref? && References.IsEmptyName(e.ref.name)
    ensures ResolveValue(cat, w, c, e, instance, fuel).res == Ok(Null)
  {
  }

  /** A slot that selects a RequiredParameter makes the whole resolveArgs call fail. */
  lemma RequiredSelectedFails(cat: Catalog, w: World, c: nat, plan: Plan, args: Args, instance: Value, fuel: nat, j: nat)
    requires ArgsInHeap(args, w.heap) && j < |plan|
    requires ExpectedArg(cat, w.heap, plan, LowerKeys(args), j).Required?
    ensures ResolveArgs(cat, w, c, plan, args, instance, fuel).res.Fail?
  {
    ResolveArgsOverlay(cat, w, c, plan, args, instance, fuel);
    var o := ResolveArgs(cat, w, c, plan, args, instance, fuel);
    if o.res.Ok? {
      RequiredNeverResolves(cat, SlotWorld(cat, w, c, plan, LowerKeys(args), instance, fuel, j), c, ExpectedArg(cat, w.heap, plan, LowerKeys(args), j), instance, fuel);
      assert false;
    }
  }

  /** A slot that selects a Reference with a PHP-empty name receives null. */
  lemma EmptyReferenceSelectedIsNull(cat: Catalog, w: World, c: nat, plan: Plan, args: Args, instance: Value, fuel: nat, j: nat)
    requires ArgsInHeap(args, w.heap) && j < |plan|
    requires var e := ExpectedArg(cat, w.heap, plan, LowerKeys(args), j);
             e.Ref? && References.IsEmptyName(e.ref.name)
    ensures var o := ResolveArgs(cat, w, c, plan, args, instance, fuel);
            o.res.Ok? ==> o.res.value[j].1 == Null
  {
    ResolveArgsOverlay(cat, w, c, plan, args, instance, fuel);
    var o := ResolveArgs(cat, w, c, plan, args, instance, fuel);
    if o.res.Ok? {
      EmptyReferenceIsNull(cat, SlotWorld(cat, w, c, plan, LowerKeys(args), instance, fuel, j), c, ExpectedArg(cat, w.heap, plan, LowerKeys(args), j), instance, fuel);
    }
  }

  /** A value a call argument or a reference-free slot selects needs no resolution. */
  lemma SelectedLiteral(cat: Catalog, heap: seq<Obj>, plan: Plan, lowered: Args, i: nat, pos: nat)
    requires i < |plan| && !IsReference(plan[i].1) && NoReferences(lowered)
    ensures !IsReference(SelectArg(cat, heap, plan[i].1, plan[i].0, lowered, pos).value)
  {
    var named := Lookup(lowered, StrKey(plan[i].0));
    var at := Lookup(lowered, IntKey(pos));
    if named.Some? {
      var k :| 0 <= k < |lowered| && lowered[k] == (StrKey(plan[i].0), named.value) && forall j :: k < j < |lowered| ==> lowered[j].0 != StrKey(plan[i].0);
    }
    if at.Some? {
      var k :| 0 <= k < |lowered| && lowered[k] == (IntKey(pos), at.value) && forall j :: k < j < |lowered| ==> lowered[j].0 != IntKey(pos);
    }
  }

  /** A slot whose selection needs no resolution takes it as it is and leaves the world alone. */
  lemma LiteralStep(cat: Catalog, w: World, c: nat, plan: Plan, lowered: Args, instance: Value, fuel: nat, i: nat, pos: nat)
    requires i < |plan|
    requires !IsReference(SelectArg(cat, w.heap, plan[i].1, plan[i].0, lowered, pos).value)
    ensures var ch := SelectArg(cat, w.heap, plan[i].1, plan[i].0, lowered, pos);
            var rest := ResolveSlots(cat, w, c, plan, lowered, instance, fuel, i + 1, if ch.consumed then pos + 1 else pos);
            ResolveSlots(cat, w, c, plan, lowered, instance, fuel, i, pos)
            == if rest.res.Fail? then rest else Out(Ok([(plan[i].0, ch.value)] + rest.res.value), rest.w)
  {
    var ch := SelectArg(cat, w.heap, plan[i].1, plan[i].0, lowered, pos);
    assert ResolveValue(cat, w, c, ch.value, instance, fuel) == Out(Ok(ch.value), w);
  }

  /** With nothing to resolve, the slots from `i` succeed and leave the world alone. */
  lemma {:induction false} LiteralSlotsSelect(cat: Catalog, w: World, c: nat, plan: Plan, lowered: Args, instance: Value, fuel: nat, i: nat, pos: nat)
    requires i <= |plan| && ContainerFacts.LiteralPlan(plan) && NoReferences(lowered)
    ensures var o := ResolveSlots(cat, w, c, plan, lowered, instance, fuel, i, pos); o.res.Ok? && o.w == w
    decreases |plan| - i
  {
    if i < |plan| {
      var ch := SelectArg(cat, w.heap, plan[i].1, plan[i].0, lowered, pos);
      SelectedLiteral(cat, w.heap, plan, lowered, i, pos);
      LiteralStep(cat, w, c, plan, lowered, instance, fuel, i, pos);
      LiteralSlotsSelect(cat, w, c, plan, lowered, instance, fuel, i + 1, if ch.consumed then pos + 1 else pos);
    }
  }

  /**
   * When neither the plan nor the call's arguments hold references,
   * resolveArgs succeeds, changes nothing, and returns exactly the overlay:
   * every slot its selected value, keyed as planned.
   */
  lemma LiteralOverlay(cat: Catalog, w: World, c: nat, plan: Plan, args: Args, instance: Value, fuel: nat)
    requires ContainerFacts.LiteralPlan(plan) && NoReferences(args) && ArgsInHeap(args, w.heap)
    ensures var o := ResolveArgs(cat, w, c, plan, args, instance, fuel);
            && o.w == w && o.res.Ok? && |o.res.value| == |plan|
            && forall j :: 0 <= j < |plan| ==> o.res.value[j] == (plan[j].0, ExpectedArg(cat, w.heap, plan, LowerKeys(args), j))
  {
    var lowered := LowerKeys(args);
    assert NoReferences(lowered);
    LiteralSlotsSelect(cat, w, c, plan, lowered, instance, fuel, 0, 0);
    ResolveArgsOverlay(cat, w, c, plan, args, instance, fuel);
    var r := ResolveArgs(cat, w, c, plan, args, instance, fuel).res.value;
    forall j | 0 <= j < |plan| ensures r[j] == (plan[j].0, ExpectedArg(cat, w.heap, plan, lowered, j)) {
      SelectedLiteral(cat, w.heap, plan, lowered, j, Taken(cat, w.heap, plan, lowered, j));
      assert SlotOverlaid(cat, w, c, plan, lowered, instance, fuel, j, r[j].1);
    }
  }
}
