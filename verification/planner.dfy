/**
 * Argument planning (Container::makeDefaultArgs): a parameter list and a
 * rule's arguments become an ordered plan from lower-cased parameter name
 * to value, with a positional cursor that advances only when a positional
 * rule argument is consumed.
 */
module Planner {
  import opened Wrappers
  import opened Names
  import opened Values
  import opened Catalog

  /** The value picked for one parameter, and whether it consumed the positional argument at the cursor. */
  datatype Choice = Choice(value: Value, consumed: bool)

  /**
   * One parameter's value: a named rule argument (case-insensitive), else a
   * DefaultReference to its class, else the positional rule argument at
   * `pos`, else its declared default, else null.
   */
  function ChooseDefault(p: Param, lowered: Args, pos: nat): Choice {
    var named := Lookup(lowered, StrKey(Lower(p.name)));
    if named.Some? then Choice(named.value, false)
    else if ClassHint(p).Some? then Choice(DefaultRef(DefaultReference(NormalizeId(ClassHint(p).value))), false)
    else
      var at := Lookup(lowered, IntKey(pos));
      if at.Some? then Choice(at.value, true)
      else Choice(p.default.GetOr(Null), false)
  }

  /** The loop over the parameters from index `i`, with cursor `pos` and the plan built so far. */
  function PlanFrom(params: seq<Param>, lowered: Args, i: nat, pos: nat, acc: Plan): Plan
    requires i <= |params|
    decreases |params| - i
  {
    if i == |params| then acc
    else
      var c := ChooseDefault(params[i], lowered, pos);
      PlanFrom(params, lowered, i + 1, if c.consumed then pos + 1 else pos, Put(acc, Lower(params[i].name), c.value))
  }

  /** Container::makeDefaultArgs. */
  function MakeDefaultArgs(params: seq<Param>, ruleArgs: Args): Plan {
    PlanFrom(params, LowerKeys(ruleArgs), 0, 0, [])
  }

  // ------------------------------------------------------------ specification

  /** A parameter that can only be filled positionally: no named rule argument and no class type. */
  predicate Positional(p: Param, lowered: Args) {
    !HasKey(lowered, StrKey(Lower(p.name))) && ClassHint(p).None?
  }

  /** How many of the first `i` parameters are positional ones. */
  function PositionalBefore(params: seq<Param>, lowered: Args, i: nat): (k: nat)
    requires i <= |params|
    ensures k <= i
  {
    if i == 0 then 0
    else PositionalBefore(params, lowered, i - 1) + (if Positional(params[i - 1], lowered) then 1 else 0)
  }

  /** The rule arguments hold every position `0..k`. */
  predicate PositionsFilled(lowered: Args, k: nat) {
    forall j: nat :: j <= k ==> HasKey(lowered, IntKey(j))
  }

  /**
   * The value makeDefaultArgs plans for parameter `i`, stated without the
   * cursor: the k-th positional parameter receives positional argument k
   * exactly when positions 0..k are all present (the first gap stops
   * positional filling for good); otherwise its default, or null.
   */
  function ExpectedSlot(params: seq<Param>, lowered: Args, i: nat): Value
    requires i < |params|
  {
    var p := params[i];
    var named := Lookup(lowered, StrKey(Lower(p.name)));
    if named.Some? then named.value
    else if ClassHint(p).Some? then DefaultRef(DefaultReference(NormalizeId(ClassHint(p).value)))
    else
      var k := PositionalBefore(params, lowered, i);
      if PositionsFilled(lowered, k) then Lookup(lowered, IntKey(k)).value
      else p.default.GetOr(Null)
  }

  /** No two parameter names coincide once lower-cased. */
  predicate DistinctLowerNames(params: seq<Param>) {
    forall i, j :: 0 <= i < j < |params| ==> Lower(params[i].name) != Lower(params[j].name)
  }

  /** The cursor after `e` positional parameters: every earlier position was present, and it is stuck on a gap if behind. */
  predicate CursorOk(lowered: Args, pos: nat, e: nat) {
    && pos <= e
    && (forall j: nat :: j < pos ==> HasKey(lowered, IntKey(j)))
    && (pos < e ==> !HasKey(lowered, IntKey(pos)))
  }

  /** With the cursor as CursorOk describes it, one loop step picks the expected value. */
  lemma ChooseIsExpected(params: seq<Param>, lowered: Args, i: nat, pos: nat)
    requires i < |params|
    requires CursorOk(lowered, pos, PositionalBefore(params, lowered, i))
    ensures ChooseDefault(params[i], lowered, pos).value == ExpectedSlot(params, lowered, i)
  {
    var p := params[i];
    var e := PositionalBefore(params, lowered, i);
    if Positional(p, lowered) {
      if pos == e {
        if HasKey(lowered, IntKey(e)) {
          assert PositionsFilled(lowered, e);
        } else {
          assert !PositionsFilled(lowered, e);
        }
      } else {
        assert !HasKey(lowered, IntKey(pos));
        assert !PositionsFilled(lowered, e);
      }
    }
  }

  /** One loop step keeps the cursor invariant. */
  lemma CursorStep(params: seq<Param>, lowered: Args, i: nat, pos: nat)
    requires i < |params|
    requires CursorOk(lowered, pos, PositionalBefore(params, lowered, i))
    ensures var c := ChooseDefault(params[i], lowered, pos);
            CursorOk(lowered, if c.consumed then pos + 1 else pos, PositionalBefore(params, lowered, i + 1))
  {
  }

  /** The first `n` plan entries are the expected slots of the first `n` parameters. */
  predicate SlotsSoFar(params: seq<Param>, lowered: Args, acc: Plan, n: nat)
    requires n <= |params|
  {
    |acc| == n && forall j :: 0 <= j < n ==> acc[j] == (Lower(params[j].name), ExpectedSlot(params, lowered, j))
  }

  /** With distinct names, `$result[$name] = $value` appends the i-th expected slot. */
  lemma ExtendPlan(params: seq<Param>, lowered: Args, i: nat, acc: Plan, v: Value)
    requires i < |params|
    requires DistinctLowerNames(params)
    requires SlotsSoFar(params, lowered, acc, i)
    requires v == ExpectedSlot(params, lowered, i)
    ensures SlotsSoFar(params, lowered, Put(acc, Lower(params[i].name), v), i + 1)
  {
    var name := Lower(params[i].name);
    assert name !in PlanKeys(acc) by {
      forall j | 0 <= j < |acc| ensures PlanKeys(acc)[j] != name {
        assert acc[j].0 == Lower(params[j].name);
      }
    }
    assert Put(acc, name, v) == acc + [(name, v)];
  }

  /** One loop iteration keeps both the slot invariant and the cursor invariant. */
  lemma SlotsStep(params: seq<Param>, lowered: Args, i: nat, pos: nat, acc: Plan)
    requires i < |params| && DistinctLowerNames(params)
    requires SlotsSoFar(params, lowered, acc, i) && CursorOk(lowered, pos, PositionalBefore(params, lowered, i))
    ensures var c := ChooseDefault(params[i], lowered, pos);
            var acc' := Put(acc, Lower(params[i].name), c.value);
            var pos' := if c.consumed then pos + 1 else pos;
            && SlotsSoFar(params, lowered, acc', i + 1)
            && CursorOk(lowered, pos', PositionalBefore(params, lowered, i + 1))
  {
    var c := ChooseDefault(params[i], lowered, pos);
    ChooseIsExpected(params, lowered, i, pos);
    CursorStep(params, lowered, i, pos);
    ExtendPlan(params, lowered, i, acc, c.value);
  }

  lemma {:induction false} PlanFromSlots(params: seq<Param>, lowered: Args, i: nat, pos: nat, acc: Plan)
    requires i <= |params| && DistinctLowerNames(params)
    requires SlotsSoFar(params, lowered, acc, i) && CursorOk(lowered, pos, PositionalBefore(params, lowered, i))
    ensures SlotsSoFar(params, lowered, PlanFrom(params, lowered, i, pos, acc), |params|)
    decreases |params| - i
  {
    if i < |params| {
      var c := ChooseDefault(params[i], lowered, pos);
      SlotsStep(params, lowered, i, pos, acc);
      PlanFromSlots(params, lowered, i + 1, if c.consumed then pos + 1 else pos, Put(acc, Lower(params[i].name), c.value));
    }
  }

  /**
   * makeDefaultArgs returns exactly one entry per parameter, keyed by its
   * lower-cased name, in declaration order, holding the value
   * `ExpectedSlot` describes (named rule argument, then DefaultReference,
   * then positional, then default, then null).
   */
  lemma MakeDefaultArgsSlots(params: seq<Param>, ruleArgs: Args)
    requires DistinctLowerNames(params)
    ensures var plan := MakeDefaultArgs(params, ruleArgs);
            && |plan| == |params|
            && forall i :: 0 <= i < |params| ==>
                 plan[i] == (Lower(params[i].name), ExpectedSlot(params, LowerKeys(ruleArgs), i))
  {
    PlanFromSlots(params, LowerKeys(ruleArgs), 0, 0, []);
  }

  /** After `$plan[$name] = $v` the keys are the old ones plus `name`. */
  lemma PutKeys(acc: Plan, name: string, v: Value, k: string)
    ensures k in PlanKeys(Put(acc, name, v)) <==> k in PlanKeys(acc) || k == name
  {
    if name !in PlanKeys(acc) {
      assert PlanKeys(Put(acc, name, v)) == PlanKeys(acc) + [name];
    }
  }

  /** Some parameter from index `i` on is named `k` once lower-cased. */
  predicate NamedFrom(params: seq<Param>, i: nat, k: string) {
    exists j :: i <= j < |params| && Lower(params[j].name) == k
  }

  lemma NamedFromStep(params: seq<Param>, i: nat, k: string)
    requires i < |params|
    ensures NamedFrom(params, i, k) <==> Lower(params[i].name) == k || NamedFrom(params, i + 1, k)
  {
    if NamedFrom(params, i, k) && Lower(params[i].name) != k {
      var j :| i <= j < |params| && Lower(params[j].name) == k;
      assert i + 1 <= j;
    }
  }

  lemma {:induction false} PlanFromKeys(params: seq<Param>, lowered: Args, i: nat, pos: nat, acc: Plan, k: string)
    requires i <= |params|
    ensures k in PlanKeys(PlanFrom(params, lowered, i, pos, acc)) <==> k in PlanKeys(acc) || NamedFrom(params, i, k)
    decreases |params| - i
  {
    if i < |params| {
      var c := ChooseDefault(params[i], lowered, pos);
      var acc' := Put(acc, Lower(params[i].name), c.value);
      PutKeys(acc, Lower(params[i].name), c.value, k);
      NamedFromStep(params, i, k);
      PlanFromKeys(params, lowered, i + 1, if c.consumed then pos + 1 else pos, acc', k);
    }
  }

  /**
   * Whatever the parameter names, the plan's keys are exactly the
   * lower-cased parameter names (parameters whose names differ only in case
   * share one entry).
   */
  lemma MakeDefaultArgsKeys(params: seq<Param>, ruleArgs: Args, k: string)
    ensures k in PlanKeys(MakeDefaultArgs(params, ruleArgs))
            <==> exists j :: 0 <= j < |params| && Lower(params[j].name) == k
  {
    PlanFromKeys(params, LowerKeys(ruleArgs), 0, 0, [], k);
  }
}
