/**
 * Rules and the effective-rule merge (Container::makeRule).
 *
 * A rule is a PHP array with at most the keys `class`, `shared`, `inherit`,
 * `constructorArgs` and `calls`; here it is a record of optional fields, and
 * PHP's `$rule += $other` (keys already present win) is `Union`.
 */
module Rules {
  import opened Wrappers
  import opened Values
  import opened Catalog

  /** One configured post-construction call: `[$method, $args]`. */
  datatype Call = Call(methodName: string, args: Args)

  datatype Rule = Rule(
    cls: Option<string>,
    shared: Option<Value>,
    inherit: Option<Value>,
    ctorArgs: Option<Args>,
    calls: Option<seq<Call>>)

  const EmptyRule := Rule(None, None, None, None, None)

  /** The five keys a rule array can hold, and their contents. */
  datatype Field = ClassField | SharedField | InheritField | ArgsField | CallsField
  datatype Entry = ClassEntry(s: string) | FlagEntry(v: Value) | ArgsEntry(args: Args) | CallsEntry(calls: seq<Call>)

  /** `$rule[$field]` if set. */
  function Get(r: Rule, f: Field): Option<Entry> {
    match f
    case ClassField => if r.cls.Some? then Some(ClassEntry(r.cls.value)) else None
    case SharedField => if r.shared.Some? then Some(FlagEntry(r.shared.value)) else None
    case InheritField => if r.inherit.Some? then Some(FlagEntry(r.inherit.value)) else None
    case ArgsField => if r.ctorArgs.Some? then Some(ArgsEntry(r.ctorArgs.value)) else None
    case CallsField => if r.calls.Some? then Some(CallsEntry(r.calls.value)) else None
  }

  function FirstOf<T>(a: Option<T>, b: Option<T>): Option<T> {
    if a.Some? then a else b
  }

  /** PHP `$a + $b` on rule arrays: every key of `a` is kept, `b` only fills the missing ones. */
  function Union(a: Rule, b: Rule): (r: Rule)
    ensures forall f :: Get(r, f) == FirstOf(Get(a, f), Get(b, f))
  {
    Rule(FirstOf(a.cls, b.cls), FirstOf(a.shared, b.shared), FirstOf(a.inherit, b.inherit),
         FirstOf(a.ctorArgs, b.ctorArgs), FirstOf(a.calls, b.calls))
  }

  type RuleMap = map<string, Rule>

  /** `isset($rules[$id]) ? $rules[$id] : []`. */
  function RuleOf(rules: RuleMap, id: string): Rule {
    if id in rules then rules[id] else EmptyRule
  }

  /** `isset($rule['calls']) ? $rule['calls'] : []`. */
  function CallsOf(r: Rule): seq<Call> {
    r.calls.GetOr([])
  }

  /**
   * The parent walk stops at an ancestor that has no rule, or whose
   * `inherit` is set (non-null) and falsy.
   */
  predicate StopsInheritance(rules: RuleMap, cls: string) {
    cls !in rules
    || (rules[cls].inherit.Some? && IsSet(rules[cls].inherit.value) && !Truthy(rules[cls].inherit.value))
  }

  /** `!empty($this->rules['*']['inherit'])`. */
  predicate WildcardInherits(rules: RuleMap) {
    "*" in rules && rules["*"].inherit.Some? && Truthy(rules["*"].inherit.value)
  }

  /**
   * An interface rule contributes its calls when they are non-empty and its
   * `inherit` is unset, null, or anything but the boolean `false`.
   */
  predicate InterfaceAddsCalls(rules: RuleMap, iface: string) {
    iface in rules && |CallsOf(rules[iface])| > 0
    && (rules[iface].inherit.None? || rules[iface].inherit.value != Bool(false))
  }

  /** The loop over `get_parent_class`: merge ancestors until one stops the walk. */
  function MergeAncestors(rules: RuleMap, acc: Rule, parents: seq<string>): Rule
    decreases |parents|
  {
    if |parents| == 0 || StopsInheritance(rules, parents[0]) then acc
    else MergeAncestors(rules, Union(acc, rules[parents[0]]), parents[1..])
  }

  /** The loop over `class_implements`: append each contributing interface's calls. */
  function AddInterfaceCalls(rules: RuleMap, acc: Rule, ifaces: seq<string>): Rule
    decreases |ifaces|
  {
    if |ifaces| == 0 then acc
    else
      var next :=
        if InterfaceAddsCalls(rules, ifaces[0])
        then acc.(calls := Some(CallsOf(acc) + CallsOf(rules[ifaces[0]])))
        else acc;
      AddInterfaceCalls(rules, next, ifaces[1..])
  }

  /** Container::makeRule. */
  function MakeRule(cat: Catalog, rules: RuleMap, nid: string): Rule {
    var own := RuleOf(rules, nid);
    if ClassExists(cat, nid) then
      var withParents := MergeAncestors(rules, own, ParentChain(cat, nid));
      var withDefault := if WildcardInherits(rules) then Union(withParents, rules["*"]) else withParents;
      AddInterfaceCalls(rules, withDefault, InterfacesOf(cat, nid))
    else if WildcardInherits(rules) then Union(own, rules["*"])
    else own
  }

  // ------------------------------------------------------------ specification

  /**
   * How many ancestors, nearest first, pass their rule on: all of them
   * up to (not including) the first one that stops inheritance.
   */
  function InheritingCount(rules: RuleMap, parents: seq<string>): (n: nat)
    ensures n <= |parents|
    ensures forall j :: 0 <= j < n ==> !StopsInheritance(rules, parents[j])
    ensures n < |parents| ==> StopsInheritance(rules, parents[n])
  {
    if |parents| == 0 || StopsInheritance(rules, parents[0]) then 0
    else 1 + InheritingCount(rules, parents[1..])
  }

  /** The rules of the inheriting ancestors, nearest first. */
  function InheritedRules(rules: RuleMap, parents: seq<string>): (rs: seq<Rule>)
    ensures |rs| == InheritingCount(rules, parents)
  {
    var n := InheritingCount(rules, parents);
    seq(n, j requires 0 <= j < n => rules[parents[j]])
  }

  /**
   * The rules an id's effective rule is drawn from, highest precedence
   * first: its own rule, its inheriting ancestors (nearest first), and the
   * wildcard rule when that inherits.
   */
  function Sources(cat: Catalog, rules: RuleMap, nid: string): seq<Rule> {
    [RuleOf(rules, nid)]
    + InheritedRules(rules, ParentChain(cat, nid))
    + (if WildcardInherits(rules) then [rules["*"]] else [])
  }

  /** First writer wins: the field's value in the earliest source that sets it. */
  function FirstSet(srcs: seq<Rule>, f: Field): Option<Entry> {
    if |srcs| == 0 then None else FirstOf(Get(srcs[0], f), FirstSet(srcs[1..], f))
  }

  /** The calls the contributing interfaces add, in `class_implements` order. */
  function InterfaceCalls(rules: RuleMap, ifaces: seq<string>): seq<Call> {
    if |ifaces| == 0 then []
    else (if InterfaceAddsCalls(rules, ifaces[0]) then CallsOf(rules[ifaces[0]]) else [])
         + InterfaceCalls(rules, ifaces[1..])
  }

  function EntryCalls(e: Option<Entry>): seq<Call> {
    if e.Some? && e.value.CallsEntry? then e.value.calls else []
  }

  /** The effective rule's fields, described without the merge loops. */
  function EffectiveField(cat: Catalog, rules: RuleMap, nid: string, f: Field): Option<Entry> {
    var merged := FirstSet(Sources(cat, rules, nid), f);
    var extra := InterfaceCalls(rules, InterfacesOf(cat, nid));
    if f == CallsField && |extra| > 0 then Some(CallsEntry(EntryCalls(merged) + extra)) else merged
  }

  // ------------------------------------------------------------------- lemmas

  lemma {:induction false} FirstSetAppend(a: seq<Rule>, b: seq<Rule>, f: Field)
    ensures FirstSet(a + b, f) == FirstOf(FirstSet(a, f), FirstSet(b, f))
  {
    if |a| > 0 {
      assert (a + b)[1..] == a[1..] + b;
      FirstSetAppend(a[1..], b, f);
    } else {
      assert a + b == b;
    }
  }

  /** Nearer sources beat farther ones: the earliest source that sets a field decides it. */
  lemma {:induction false} FirstSetPicksEarliest(srcs: seq<Rule>, f: Field, i: nat)
    requires i < |srcs| && Get(srcs[i], f).Some?
    requires forall j :: 0 <= j < i ==> Get(srcs[j], f).None?
    ensures FirstSet(srcs, f) == Get(srcs[i], f)
  {
    if i > 0 {
      FirstSetPicksEarliest(srcs[1..], f, i - 1);
    }
  }

  lemma {:induction false} MergeAncestorsSpec(rules: RuleMap, acc: Rule, parents: seq<string>, f: Field)
    ensures Get(MergeAncestors(rules, acc, parents), f)
            == FirstOf(Get(acc, f), FirstSet(InheritedRules(rules, parents), f))
    decreases |parents|
  {
    if |parents| == 0 || StopsInheritance(rules, parents[0]) {
      assert InheritedRules(rules, parents) == [];
    } else {
      var rs := InheritedRules(rules, parents);
      assert rs[0] == rules[parents[0]];
      assert rs[1..] == InheritedRules(rules, parents[1..]);
      MergeAncestorsSpec(rules, Union(acc, rules[parents[0]]), parents[1..], f);
    }
  }

  lemma {:induction false} AddInterfaceCallsSpec(rules: RuleMap, acc: Rule, ifaces: seq<string>, f: Field)
    ensures var extra := InterfaceCalls(rules, ifaces);
            Get(AddInterfaceCalls(rules, acc, ifaces), f)
            == if f == CallsField && |extra| > 0 then Some(CallsEntry(CallsOf(acc) + extra)) else Get(acc, f)
    decreases |ifaces|
  {
    if |ifaces| > 0 {
      var next :=
        if InterfaceAddsCalls(rules, ifaces[0])
        then acc.(calls := Some(CallsOf(acc) + CallsOf(rules[ifaces[0]])))
        else acc;
      AddInterfaceCallsSpec(rules, next, ifaces[1..], f);
      var rest := InterfaceCalls(rules, ifaces[1..]);
      if InterfaceAddsCalls(rules, ifaces[0]) {
        var head := CallsOf(rules[ifaces[0]]);
        assert InterfaceCalls(rules, ifaces) == head + rest;
        assert CallsOf(next) + rest == CallsOf(acc) + (head + rest);
        if |rest| == 0 {
          assert head + rest == head;
        }
      } else {
        assert InterfaceCalls(rules, ifaces) == rest;
      }
    }
  }

  /**
   * makeRule is a first-writer-wins union over the own rule, the inheriting
   * ancestors (nearest first) and the inheriting wildcard rule, with the
   * contributing interfaces' calls appended to the merged calls. For an id
   * that is not a class there are no ancestors and no interfaces.
   */
  lemma MakeRuleIsFirstWriterWins(cat: Catalog, rules: RuleMap, nid: string, f: Field)
    ensures Get(MakeRule(cat, rules, nid), f) == EffectiveField(cat, rules, nid, f)
  {
    var own := RuleOf(rules, nid);
    var srcs := Sources(cat, rules, nid);
    var anc := InheritedRules(rules, ParentChain(cat, nid));
    var star := if WildcardInherits(rules) then [rules["*"]] else [];
    assert srcs == [own] + anc + star;
    FirstSetAppend([own] + anc, star, f);
    FirstSetAppend([own], anc, f);
    assert FirstSet(star, f) == (if WildcardInherits(rules) then Get(rules["*"], f) else None);
    if ClassExists(cat, nid) {
      var withParents := MergeAncestors(rules, own, ParentChain(cat, nid));
      MergeAncestorsSpec(rules, own, ParentChain(cat, nid), f);
      var withDefault := if WildcardInherits(rules) then Union(withParents, rules["*"]) else withParents;
      AddInterfaceCallsSpec(rules, withDefault, InterfacesOf(cat, nid), f);
      if f == CallsField {
        assert CallsOf(withDefault) == EntryCalls(Get(withDefault, f));
      }
    } else {
      assert anc == [];
      assert InterfaceCalls(rules, InterfacesOf(cat, nid)) == [];
    }
  }

  /** Two rule maps agree on an id: both lack it, or both hold the same rule. */
  predicate AgreeOn(rules: RuleMap, rules': RuleMap, id: string) {
    (id in rules <==> id in rules') && (id in rules ==> rules[id] == rules'[id])
  }

  lemma {:induction false} InheritedRulesFrame(rules: RuleMap, rules': RuleMap, parents: seq<string>)
    requires forall j :: 0 <= j <= InheritingCount(rules, parents) && j < |parents| ==> AgreeOn(rules, rules', parents[j])
    ensures InheritedRules(rules, parents) == InheritedRules(rules', parents)
  {
    if |parents| > 0 && !StopsInheritance(rules, parents[0]) {
      assert AgreeOn(rules, rules', parents[0]);
      forall j | 0 <= j <= InheritingCount(rules, parents[1..]) && j < |parents[1..]|
        ensures AgreeOn(rules, rules', parents[1..][j])
      {
        assert parents[1..][j] == parents[j + 1];
      }
      InheritedRulesFrame(rules, rules', parents[1..]);
      var rs := InheritedRules(rules, parents);
      var rs' := InheritedRules(rules', parents);
      assert rs[1..] == InheritedRules(rules, parents[1..]);
      assert rs'[1..] == InheritedRules(rules', parents[1..]);
      assert rs == [rs[0]] + rs[1..];
      assert rs' == [rs'[0]] + rs'[1..];
    } else if |parents| > 0 {
      assert AgreeOn(rules, rules', parents[0]);
    }
  }

  lemma {:induction false} InterfaceCallsFrame(rules: RuleMap, rules': RuleMap, ifaces: seq<string>)
    requires forall i :: 0 <= i < |ifaces| ==> AgreeOn(rules, rules', ifaces[i])
    ensures InterfaceCalls(rules, ifaces) == InterfaceCalls(rules', ifaces)
  {
    if |ifaces| > 0 {
      assert AgreeOn(rules, rules', ifaces[0]);
      InterfaceCallsFrame(rules, rules', ifaces[1..]);
    }
  }

  /**
   * The ancestor that stops the walk, and every ancestor beyond it,
   * contribute nothing: rule maps that agree on the id, the wildcard, the
   * interfaces and the ancestors up to and including the stopping one give
   * the same effective rule, whatever they say about farther ancestors.
   */
  lemma AncestorsPastStopIgnored(cat: Catalog, rules: RuleMap, rules': RuleMap, nid: string, f: Field)
    requires AgreeOn(rules, rules', nid) && AgreeOn(rules, rules', "*")
    requires forall i :: 0 <= i < |InterfacesOf(cat, nid)| ==> AgreeOn(rules, rules', InterfacesOf(cat, nid)[i])
    requires var parents := ParentChain(cat, nid);
             forall j :: 0 <= j <= InheritingCount(rules, parents) && j < |parents| ==> AgreeOn(rules, rules', parents[j])
    ensures Get(MakeRule(cat, rules, nid), f) == Get(MakeRule(cat, rules', nid), f)
  {
    MakeRuleIsFirstWriterWins(cat, rules, nid, f);
    MakeRuleIsFirstWriterWins(cat, rules', nid, f);
    InheritedRulesFrame(rules, rules', ParentChain(cat, nid));
    InterfaceCallsFrame(rules, rules', InterfacesOf(cat, nid));
    assert Sources(cat, rules, nid) == Sources(cat, rules', nid);
  }
}
