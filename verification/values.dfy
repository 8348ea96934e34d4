/**
 * The PHP values the container moves around: literals, handles to objects
 * the container built, handles to (nested) containers, and the closed set of
 * "resolvable" reference objects (Reference, DefaultReference,
 * RequiredParameter). Also the two kinds of PHP array the engine uses:
 * argument arrays (ordered key/value lists with int and string keys) and
 * argument plans (ordered maps from lower-cased parameter name to value).
 */
module Values {
  import opened Wrappers
  import opened Names

  /** A PHP array key. Numeric strings are assumed already converted to int keys, as PHP does on insertion. */
  datatype Key = IntKey(i: int) | StrKey(s: string)

  /** A Reference's name: a single container id, or a chain of ids walked through nested containers. */
  datatype RefName = NameString(s: string) | NameList(names: seq<string>)

  datatype Value =
    | Null
    | Bool(b: bool)
    | Int(i: int)
    | Str(s: string)
    /** An object built by a container; `handle` indexes the world's heap. */
    | Object(handle: nat)
    /** A Container object; `cid` indexes the world's container arena. */
    | ContainerObj(cid: nat)
    | Ref(ref: Reference)
    | DefaultRef(dref: DefaultReference)
    | Required(req: RequiredParameter)

  /** A `Reference`: a container id (or id chain) plus constructor arguments. */
  datatype Reference = Reference(name: RefName, args: seq<(Key, Value)>)

  /** A `DefaultReference`: the id of the class to autowire. */
  datatype DefaultReference = DefaultReference(name: string)

  /**
   * A `RequiredParameter`. It extends DefaultReference, so it carries the
   * inherited `name` (a class string, possibly empty) besides the parameter
   * name and the owning function's description.
   */
  datatype RequiredParameter = RequiredParameter(name: string, parameter: string, functionName: string)

  /** A PHP argument array, in insertion order. */
  type Args = seq<(Key, Value)>

  /** A PHP array from lower-cased parameter name to value, in parameter order. */
  type Plan = seq<(string, Value)>

  /** Class names of the library's own value classes, as `is_a` sees them. */
  const ReferenceInterfaceClass := "Garden\\Container\\ReferenceInterface"
  const ReferenceClass := "Garden\\Container\\Reference"
  const DefaultReferenceClass := "Garden\\Container\\DefaultReference"
  const RequiredParameterClass := "Garden\\Container\\RequiredParameter"
  const ContainerClass := "Garden\\Container\\Container"
  const ContainerInterfaceClass := "Interop\\Container\\ContainerInterface"
  /** The PSR-11 interface that the container-interop interface extends. */
  const PsrContainerInterfaceClass := "Psr\\Container\\ContainerInterface"

  /** `$v instanceof ReferenceInterface`: the values resolveArgs resolves. */
  predicate IsReference(v: Value) {
    v.Ref? || v.DefaultRef? || v.Required?
  }

  /** `$v instanceof DefaultReference` (a RequiredParameter is one too). */
  predicate IsDefaultReference(v: Value) {
    v.DefaultRef? || v.Required?
  }

  /** `$v->getName()` for a DefaultReference or a RequiredParameter. */
  function DefaultRefName(v: Value): string
    requires IsDefaultReference(v)
  {
    if v.DefaultRef? then v.dref.name else v.req.name
  }

  /** PHP truthiness, i.e. `!empty($v)`. */
  predicate Truthy(v: Value) {
    match v
    case Null => false
    case Bool(b) => b
    case Int(i) => i != 0
    case Str(s) => !EmptyString(s)
    case _ => true
  }

  /** `isset($v)` on a present array slot: anything but null. */
  predicate IsSet(v: Value) {
    v != Null
  }

  /** Does the argument array contain key `k`? (`array_key_exists`) */
  predicate HasKey(args: Args, k: Key) {
    exists i :: 0 <= i < |args| && args[i].0 == k
  }

  /**
   * `$args[$k]` when the key exists. A PHP array literal that repeats a key
   * keeps the last value, so the LAST matching entry is the one found.
   */
  function Lookup(args: Args, k: Key): (r: Option<Value>)
    ensures r.Some? <==> HasKey(args, k)
    ensures r.Some? ==> exists i :: 0 <= i < |args| && args[i] == (k, r.value)
                                    && forall j :: i < j < |args| ==> args[j].0 != k
  {
    if |args| == 0 then None
    else if args[|args| - 1].0 == k then Some(args[|args| - 1].1)
    else
      var r := Lookup(args[..|args| - 1], k);
      assert HasKey(args, k) ==> HasKey(args[..|args| - 1], k) by {
        if HasKey(args, k) {
          var i :| 0 <= i < |args| && args[i].0 == k;
          assert i < |args| - 1 && args[..|args| - 1][i].0 == k;
        }
      }
      r
  }

  /** Lower-cases a string key; int keys are left alone. */
  function LowerKey(k: Key): Key {
    if k.StrKey? then StrKey(Lower(k.s)) else k
  }

  /** `array_change_key_case($args)`: every string key lower-cased, order and values kept. */
  function LowerKeys(args: Args): (r: Args)
    ensures |r| == |args|
    ensures forall i :: 0 <= i < |args| ==> r[i] == (LowerKey(args[i].0), args[i].1)
  {
    seq(|args|, i requires 0 <= i < |args| => (LowerKey(args[i].0), args[i].1))
  }

  /** Int keys survive lower-casing: the positional entries are the same. */
  lemma LowerKeysKeepsPositions(args: Args, n: int)
    ensures Lookup(LowerKeys(args), IntKey(n)) == Lookup(args, IntKey(n))
  {
    var lowered := LowerKeys(args);
    if |args| > 0 {
      assert LowerKeys(args[..|args| - 1]) == lowered[..|args| - 1];
      LowerKeysKeepsPositions(args[..|args| - 1], n);
    }
  }

  /** The keys of a plan, in order. */
  function PlanKeys(p: Plan): (ks: seq<string>)
    ensures |ks| == |p|
    ensures forall i :: 0 <= i < |p| ==> ks[i] == p[i].0
  {
    seq(|p|, i requires 0 <= i < |p| => p[i].0)
  }

  /**
   * `$plan[$k] = $v`: replaces the value in place when the key is present,
   * appends otherwise.
   */
  function Put(p: Plan, k: string, v: Value): (r: Plan)
    ensures k in PlanKeys(p) ==> PlanKeys(r) == PlanKeys(p)
    ensures k in PlanKeys(p) ==> exists i :: FirstAt(p, k, i) && r == p[i := (k, v)]
    ensures k !in PlanKeys(p) ==> r == p + [(k, v)]
    ensures (k, v) in r
  {
    if |p| == 0 then [(k, v)]
    else if p[0].0 == k then
      PutHead(p, k, v);
      [(k, v)] + p[1..]
    else
      var rest := Put(p[1..], k, v);
      PutTail(p, k, v, rest);
      [p[0]] + rest
  }

  /** `r` is what `$plan[$k] = $v` makes of `p`. */
  ghost predicate PutResult(p: Plan, k: string, v: Value, r: Plan) {
    && (k in PlanKeys(p) ==> PlanKeys(r) == PlanKeys(p))
    && (k in PlanKeys(p) ==> exists i :: FirstAt(p, k, i) && r == p[i := (k, v)])
    && (k !in PlanKeys(p) ==> r == p + [(k, v)])
    && (k, v) in r
  }

  /** `k` first occurs in `p` at index `i`. */
  predicate FirstAt(p: Plan, k: string, i: int) {
    0 <= i < |p| && p[i].0 == k && forall j :: 0 <= j < i ==> p[j].0 != k
  }

  /** A plan led by `k` is put into by replacing its head. */
  lemma PutHead(p: Plan, k: string, v: Value)
    requires |p| > 0 && p[0].0 == k
    ensures PutResult(p, k, v, [(k, v)] + p[1..])
  {
    assert PlanKeys([(k, v)] + p[1..]) == PlanKeys(p);
    assert FirstAt(p, k, 0) && [(k, v)] + p[1..] == p[0 := (k, v)];
  }

  /** Putting into the tail of a plan not led by `k` is putting into the whole plan. */
  lemma PutTail(p: Plan, k: string, v: Value, rest: Plan)
    requires |p| > 0 && p[0].0 != k && PutResult(p[1..], k, v, rest)
    ensures PutResult(p, k, v, [p[0]] + rest)
  {
    PlanKeysCons(p[0], p[1..]);
    PlanKeysCons(p[0], rest);
    assert p == [p[0]] + p[1..];
    if k in PlanKeys(p) {
      PutStep(p, k, v, rest);
    }
  }

  lemma PlanKeysCons(e: (string, Value), q: Plan)
    ensures PlanKeys([e] + q) == [e.0] + PlanKeys(q)
  {
  }

  /** Replacing the first `k` in the tail is replacing the first `k` in the whole plan, one index further on. */
  lemma PutStep(p: Plan, k: string, v: Value, rest: Plan)
    requires |p| > 0 && p[0].0 != k
    requires exists i :: FirstAt(p[1..], k, i) && rest == p[1..][i := (k, v)]
    ensures exists i :: FirstAt(p, k, i) && [p[0]] + rest == p[i := (k, v)]
  {
    var i :| FirstAt(p[1..], k, i) && rest == p[1..][i := (k, v)];
    assert FirstAt(p, k, i + 1);
    assert [p[0]] + rest == p[i + 1 := (k, v)];
  }
}
