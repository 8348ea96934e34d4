# Garden Container: a Dafny model of its rule and wiring engine

This project models the core of Garden Container, a small PHP
dependency-injection container. It covers four things:

- how a container entry's **effective rule** is merged from:
  - the entry's own rule;
  - the rules of its parent classes;
  - the `*` wildcard rule;
  - the `calls` of its interfaces' rules.
- how a **constructor or method argument plan** is built from parameter
  descriptors and the rule's arguments (`makeDefaultArgs`);
- how call-time arguments are **overlaid and resolved** (`resolveArgs`);
- the **instance cache**: shared instances and compiled factories
  (`getArgs`, `createInstance`, `makeFactory`, `createSharedInstance`).

It also models the three resolvable value classes and the message formatting
of `MissingArgumentException`:

- `Reference`;
- `DefaultReference`;
- `RequiredParameter`.

The model is functional:

- PHP values are a datatype.
- A rule is a record of optional fields; PHP's array `+=` is `Rules.Union`.
- PHP argument arrays are ordered key/value lists.
- Reflection is replaced by a `Catalog` of classes: parent chain, interfaces,
  constructor and method parameter descriptors.
- Objects the container builds live on a heap. An object records its class,
  its constructor arguments and the method calls made on it; constructor and
  method bodies are not modelled.
- Containers live in an arena (`World`), because a `Reference` with an array
  name walks through containers held as instances of other containers.
- Every operation returns its result together with the world it leaves. This
  holds on failure too: nothing is rolled back, as in the source.
- Failures are values (`Exceptions.Error`):
  - `NotFound`;
  - `MissingArgument`;
  - `NoSuchMethod` (`getMethod`'s reflection error);
  - `TypeError` (a rule without `constructorArgs` reaching a constructor with parameters);
  - `NotAContainer` (an array reference stepping through a value that is not a container of the arena);
  - `OutOfFuel`.

PHP places no bound on how deep references may recurse. Here every reference
resolved through `get` spends one unit of `fuel`, and `OutOfFuel` is what an
unbounded recursion looks like.

Modules, one per file:

- `Names`: id normalisation and lower-casing.
- `Values`: values, argument arrays and plans.
- `Exceptions`: error values.
- `Catalog`: the reflection stand-in.
- `References`: the reference classes.
- `Rules`: `makeRule` with a declarative first-writer-wins specification.
- `Planner`: `makeDefaultArgs` with a slot-by-slot specification.
- `Container`: configuration, `has` and the resolution engine.
- `Resolution`: what `resolveArgs` puts in each slot, stated without its cursor.
- `ContainerFacts`: properties across several calls.
- `Scenarios`: concrete configurations from the repository's tests.

Behaviours of the code that the model keeps as they are:

- `normalizeID` uses `ltrim`, so it removes every leading `\`, not just one.
- `has` checks `isset($this->rules[$id])`, so an empty rule made by `rule($id)` counts.
- `makeDefaultArgs` never produces a `RequiredParameter` and has no union-type step. A parameter with no named argument, no class, no positional argument and no default gets `null`.
- Interface rules contribute only `calls`. Their `constructorArgs` are not merged.
- `createSharedInstance` resolves the constructor arguments before it creates and publishes the object (src/Container.php:286-297). A shared class that references itself therefore recurses without end (`Scenarios.CyclicSharedDiverges`). The comment at src/Container.php:292 speaks of cyclic dependencies. Publishing before the constructor runs helps what the constructor body and the later calls do, but not the argument resolution that comes before it.
- A failed shared construction or call is not rolled back. Call arguments are planned when the factory is made, but resolved only when each call runs.

## Model

| member | source | states |
|---|---|---|
| Names.NormalizeId | src/Container.php:37-39 | the result is a suffix of the id, every removed character is `\`, and the result does not start with `\` |
| Names.NormalizeIgnoresSeparators | src/Container.php:37-39 | any number of leading `\` in front of an id normalise to the same id |
| Names.NormalizeIdempotent | src/Container.php:37-39 | normalising twice is normalising once |
| Names.Lower | src/Container.php:332 | `strtolower` keeps the length and lower-cases each ASCII letter in place |
| Values.Lookup | src/Container.php:334-339 | a key is found exactly when the array has it, and the value found belongs to that key's last entry |
| Values.LowerKeys | src/Container.php:327 | `array_change_key_case` keeps order, values and integer keys and lower-cases string keys |
| Values.Put | src/Container.php:347 | assigning into a plan appends the entry if the key is new; otherwise it replaces the value at the key's first position, so every other entry and the key order stay as they were |
| Exceptions.NewMissingArgument | src/MissingArgumentException.php:23-34 | stores arg and function unchanged, code 500, the short message for an empty function and the `for <function>` message otherwise |
| Exceptions.MessageIdentifiesArgument | src/MissingArgumentException.php:27-31 | two exceptions for the same function with equal messages name the same argument |
| Exceptions.ClassNotFound | src/Container.php:220-222 | the not-found error carries code 404 and names the class |
| References.NewReference | src/Reference.php:31-45 | after construction `getName` and `getArgs` return the constructor's name and arguments |
| References.SetName | src/Reference.php:52-55 | `setName` replaces the name and leaves the arguments |
| References.SetArgs | src/Reference.php:91-95 | `setArgs` replaces the arguments, leaves the name, and returns the reference itself |
| References.NewDefaultReference | src/DefaultReference.php:22-28 | `getName` returns the constructor's name |
| References.SetDefaultName | src/DefaultReference.php:33-35 | after `setName`, `getName` returns the new name |
| References.ClassString | src/RequiredParameter.php:26-42 | the inherited name is the declared type's name for a single non-builtin named type and `""` for none, builtin or union types |
| References.FunctionDescription | src/RequiredParameter.php:45-48 | `Class::fn()` with a declaring class and `fn()` without; it always ends in `()` and so is never PHP-empty |
| References.NewRequiredParameter | src/RequiredParameter.php:24-59 | `getParameter` is the parameter's name verbatim, `getFunction` the description, and the reference name the class string |
| References.RequiredFailure | src/RequiredParameter.php:76-79 | the exception carries the parameter and the function |
| References.RequiredParameterMessage | src/MissingArgumentException.php:27-33 | a RequiredParameter's failure always has the long message and code 500 |
| Rules.Union | src/Container.php:182 | every field of `a += b` is `a`'s when set and `b`'s otherwise |
| Rules.InheritingCount | src/Container.php:177-181 | the parents before the count all pass their rule on, and the one at the count (if any) stops the walk |
| Rules.MergeAncestorsSpec | src/Container.php:177-183 | each merged field is the first one set among the accumulated rule and the inheriting parents, nearest first |
| Rules.FirstSetPicksEarliest | src/Container.php:182-187 | the earliest source that sets a field decides it, so nearer writers beat farther ones |
| Rules.AddInterfaceCallsSpec | src/Container.php:190-201 | interfaces change only `calls`, appending the calls of each contributing interface in order |
| Rules.MakeRuleIsFirstWriterWins | src/Container.php:173-208 | the contract of `Rules.MakeRule`: every field of the effective rule is the first set among own, inheriting parents and the wildcard (when it inherits); `calls` additionally get the contributing interfaces' calls appended |
| Rules.InheritedRulesFrame | src/Container.php:177-183 | the parent walk depends only on the rules up to the first parent that stops it |
| Rules.InterfaceCallsFrame | src/Container.php:190-201 | interface calls depend only on the interfaces' own rules |
| Rules.AncestorsPastStopIgnored | src/Container.php:177-183 | rules of ancestors beyond the first stopping one cannot change the effective rule |
| Planner.ChooseIsExpected | src/Container.php:334-345 | each parameter's value follows the precedence named, class reference, positional, default, null |
| Planner.PlanFromSlots | src/Container.php:330-348 | for parameter names distinct once lower-cased, the loop keeps the plan equal to the expected slots so far and the cursor equal to the positionals consumed |
| Planner.PutKeys | src/Container.php:347 | after assigning a parameter's slot the plan has exactly the old keys plus that parameter's name |
| Planner.MakeDefaultArgsSlots | src/Container.php:326-351 | the contract of `Planner.MakeDefaultArgs`: one entry per parameter, in declaration order, keyed by the lower-cased name; the k-th positional parameter gets rule argument k only if arguments 0..k are all present |
| Planner.MakeDefaultArgsKeys | src/Container.php:326-351 | the plan's keys are exactly the lower-cased parameter names |
| Container.NewContainer | src/Container.php:24-29 | a new container has only the wildcard rule, which inherits and has empty constructor arguments, and it is current |
| Container.DefaultRule | src/Container.php:46-49 | selects the wildcard rule and changes no rule |
| Container.SelectRule | src/Container.php:57-65 | selects the normalised id's rule, creating an empty one only if absent, and keeps every existing rule |
| Container.SetClass | src/Container.php:73-76 | sets the current rule's class and changes nothing else |
| Container.SetShared | src/Container.php:84-87 | sets the current rule's shared flag and changes nothing else |
| Container.SetInherit | src/Container.php:95-98 | sets the current rule's inherit flag and changes nothing else |
| Container.SetConstructorArgs | src/Container.php:106-109 | sets the current rule's constructor arguments and changes nothing else |
| Container.AddCall | src/Container.php:133-137 | the current rule afterwards is the old one with `[method, args]` appended to its calls (an absent list counts as empty); nothing else changes |
| Container.SetInstance | src/Container.php:121-124 | stores the instance under the normalised name and leaves rules and factories alone |
| Container.PlanCalls | src/Container.php:239-247 | planning succeeds exactly when every configured method exists; then call i is method i with `makeDefaultArgs` of that method's parameters and call i's arguments; otherwise the error is `NoSuchMethod` for the first missing method |
| Container.MakeFactory | src/Container.php:218-265 | the class is the rule's class when non-empty, else the id; a missing class is the 404 error; for an existing class it fails with `TypeError` exactly when the constructor has parameters and the rule has no constructor arguments, succeeds exactly when that is not so and every call's method exists, plans the constructor with `makeDefaultArgs` only when it has parameters, and carries the planned calls |
| Container.SelectArg | src/Container.php:366-376 | a named call argument wins (null included) without consuming; a consumed positional argument is set and passes the DefaultReference gate; otherwise the planned value stays |
| Container.GetArgs | src/Container.php:150-165 | configuration is never changed, caches and heap only grow, set instances stay, only shared ids get published; a miss yields a new object, and a non-shared miss caches its factory |
| Container.Get | src/Container.php:460-462 | `get` keeps the same world guarantees as `getArgs` |
| Container.CreateInstance | src/Container.php:396-408 | yields a fresh object; a non-shared rule caches its factory on success |
| Container.RunFactory | src/Container.php:229-261 | a factory call yields a fresh object of the factory's class |
| Container.RunPlannedCalls | src/Container.php:250-261 | the factory's calls keep every world guarantee |
| Container.CreateShared | src/Container.php:278-316 | on success the fresh object is the published instance; once constructed it stays published even when a later call fails |
| Container.ConstructShared | src/Container.php:279-297 | constructor arguments are resolved first, then a fresh object of the class is built and published under the id; a missing class fails with nothing changed |
| Container.RunSharedCalls | src/Container.php:300-313 | the shared instance's calls keep every world guarantee |
| Container.ResolveArgs | src/Container.php:361-385 | the result has the plan's keys in the plan's order; a named non-reference call argument lands verbatim; without call arguments, non-reference slots are unchanged |
| Container.ResolveSlots | src/Container.php:364-382 | the loop yields one slot per remaining plan entry, same key in the same order; a named non-reference call argument lands verbatim, and without call arguments a non-reference slot is unchanged |
| Container.ResolvedEverywhere | src/Container.php:361-385 | the slot-by-slot guarantee of the loop holds at every position of the finished plan |
| Resolution.SlotsOverlay | src/Container.php:364-382 | when the loop succeeds from slot i, entered with the cursor at the positionals taken before i, every later slot holds its selected value resolved in the world the slot before it left |
| Resolution.ResolveArgsOverlay | src/Container.php:361-385 | on success slot j keeps its key and holds its selected value (the named argument, else the positional argument at the number of positionals taken before j when it is set and passes the DefaultReference gate, else the planned value), resolved in order: a reference becomes what its `resolve` returns in the world the earlier slots left, and any other value is kept |
| Resolution.LiteralSlotsSelect | src/Container.php:364-382 | when neither the plan nor the call's arguments hold references, the loop succeeds and leaves the world as it was |
| Resolution.LiteralOverlay | src/Container.php:361-385 | with no references in the plan or in the call's arguments, `resolveArgs` succeeds, changes nothing and returns exactly each slot's selected value under its key |
| Resolution.RequiredSelectedFails | src/Container.php:378-380 | a slot whose selected value is a RequiredParameter makes `resolveArgs` fail |
| Resolution.EmptyReferenceSelectedIsNull | src/Container.php:378-380 | a slot whose selected value is a Reference with a PHP-empty name receives null |
| Container.ResolveValue | src/Container.php:378-380 | resolving one value keeps every world guarantee, and a value that is not a reference comes back unchanged with the world unchanged |
| Container.ResolveChain | src/Reference.php:66-71 | each step of an array name keeps every world guarantee |
| ContainerFacts.LeadingSeparatorsAddressSameEntry | src/Container.php:444-447 | `has`, `rule` and `setInstance` treat `\X` (any number of `\`) exactly like `X` |
| ContainerFacts.LeadingSeparatorsGetSameResult | src/Container.php:150-151 | `getArgs` of `\X` is `getArgs` of `X` |
| ContainerFacts.CachedInstanceWins | src/Container.php:153-156 | a set instance is returned as it is, whatever the arguments, with the world unchanged |
| ContainerFacts.SharedIsSingleton | src/Container.php:286-297 | after a shared id's first success every later `getArgs` returns the same object and changes nothing |
| ContainerFacts.NonSharedGetsFresh | src/Container.php:396-408 | a non-shared id caches its factory and the next `getArgs` returns a different object |
| ContainerFacts.FirstGetCompilesFactory | src/Container.php:400-403 | the first `getArgs` of a non-shared id runs the compiled factory and caches it only after it succeeded |
| ContainerFacts.SharedArgumentFailureBuildsNothing | src/Container.php:286-293 | if a shared constructor's arguments fail to resolve, `getArgs` fails with that error before anything is built or published |
| ContainerFacts.NamedArgumentWins | src/Container.php:366-368 | a named call argument, even null, is the slot's value and consumes no position |
| ContainerFacts.NullPositionalSkipped | src/Container.php:369-375 | a null positional argument is never taken and does not move the cursor |
| ContainerFacts.PositionalTakenIff | src/Container.php:369-372 | without a named argument, a positional one is taken exactly when it is set and the slot is not a DefaultReference or it `is_a` the slot's class; a RequiredParameter slot is gated too |
| ContainerFacts.LiteralSlotsResolveToThemselves | src/Container.php:364-382 | slots holding no references, with no call arguments, resolve to themselves |
| ContainerFacts.LiteralPlanResolvesToItself | src/Container.php:361-385 | a plan with no references, with no call arguments, resolves to itself with the world unchanged |
| ContainerFacts.LiteralCallsRunInOrder | src/Container.php:250-261 | the factory makes its calls on the new object in rule order, once each, with the planned arguments |
| ContainerFacts.LiteralFactoryRuns | src/Container.php:229-261 | such a factory builds exactly one object with the planned constructor arguments and then logs the calls in order |
| ContainerFacts.FirstGetOfLiteralFactory | src/Container.php:396-408 | the first `get` of a non-shared id whose factory needs no resolution returns the one new object, built with the planned arguments and with the calls logged in order, and caches the factory |
| ContainerFacts.EmptyNameIsNull | src/Reference.php:62-63 | a PHP-empty name resolves to null without touching the container |
| ContainerFacts.StringNameIsGetArgs | src/Reference.php:64-65 | a string name resolves to exactly `getArgs(name, args)` |
| ContainerFacts.ChainIsLeftFold | src/Reference.php:66-71 | an array name is a left fold of `get`: one more name is one more step after the rest |
| ContainerFacts.SingletonChainIsGet | src/Reference.php:66-71 | a one-element array name is exactly `get(name)` on the resolving container |
| ContainerFacts.InstanceIgnored | src/Reference.php:60-73 | the instance argument never changes what a reference resolves to |
| ContainerFacts.DefaultReferenceIsGet | src/DefaultReference.php:37-39 | a DefaultReference resolves to exactly `get(name)`, with no extra arguments |
| ContainerFacts.RequiredParameterFails | src/RequiredParameter.php:76-79 | a RequiredParameter never resolves: it fails with its parameter, its function and code 500 |
| ContainerFacts.HasAfterRule | src/Container.php:444-448 | after `rule($id)` `has($id)` holds, even for an empty rule |
| ContainerFacts.HasAfterSetInstance | src/Container.php:444-448 | `has` sees a non-null instance, and a null one alone does not make an entry |
| ContainerFacts.MissingClassIsNotFound | src/Container.php:218-222 | an id with no instance and no cached factory whose rule names a class that does not exist makes `getArgs` throw the 404 error for that class, shared or not, with the world unchanged |
| ContainerFacts.UnknownIdIsNotFound | src/Container.php:444-448 | an id `has` denies, with no cached factory and no class from the wildcard rule, makes `getArgs` throw the 404 error naming the id, with the world unchanged |
| ContainerFacts.ConstructorArgsTakeEffect | src/Container.php:173-188 | an id's own constructor arguments are the effective rule's, over parents and the wildcard |
| Scenarios.DbRuleWorldConfigured | tests/ConstructorArgsTest.php:40-61 | `rule(Db)->setConstructorArgs(['foo'])`, with or without `setInherit(false)`, leaves exactly the wildcard rule and Db's rule, with nothing cached or built |
| Scenarios.InheritedClassArgs | tests/ConstructorArgsTest.php:39-49 | in that configuration a subclass is built with the positional constructor argument of its parent's rule |
| Scenarios.NonInheritedClassArgs | tests/ConstructorArgsTest.php:54-65 | with `setInherit(false)` on the parent's rule the subclass gets the declared default |
| Scenarios.CycleWorldConfigured | tests/ConstructorArgsTest.php:231-233 | the shared self-referencing rule leaves exactly the wildcard rule and DbDecorator's rule, with nothing cached |
| Scenarios.CyclicSharedDiverges | tests/ConstructorArgsTest.php:228-240 | in that configuration `get` of the shared class runs out of any fuel and leaves the world as it was, because arguments are resolved before publication |
| Scenarios.CallMergeWorldConfigured | tests/ContainerTest.php:151-155 | the interface's call and the wildcard's call are stored in their own rules, with nothing cached or built |
| Scenarios.InterfaceCallMerging | tests/ContainerTest.php:148-161 | in that configuration `get(Foo)` makes the wildcard's call first and then the interface's call, each with its positional argument |
| Scenarios.NestedWorldConfigured | tests/ContainerTest.php:117-126 | the parent holds Db's rule and the child container as `config`, and the child holds `foo` |
| Scenarios.NestedReference | tests/ContainerTest.php:117-130 | in that configuration an array reference walks from the parent container into the child and passes the child's value to the constructor |

## Left out

- `Container::call` and `src/Callback.php`: these use callable introspection and `call_user_func_array` on arbitrary closures. `Callback::resolve` also calls a method that does not exist.
- Reflection is replaced by the `Catalog`:
  - `class_exists`, `get_parent_class`, `class_implements`, `getMethod`, `is_a`;
  - parameter descriptors.
  Case-insensitivity of PHP class names and method names is not modelled: names match exactly. So `addCall('setfoo')` on a class that declares `setFoo` gives `NoSuchMethod` here, while PHP's `getMethod` finds the method.
- Constructor and method bodies are foreign code. Building or calling records the arguments on the object and does nothing else. Nothing models a body that calls back into the container.
- PHP arrays, floats and closures as argument values are not modelled. Values are null, booleans, integers, strings, built objects, containers and the three reference classes.
- Numeric-string array keys are assumed already converted to integer keys, as PHP does on insertion.
- A `ReflectionException` from `getClass()` on a missing hinted class is not modelled. A class hint always yields a DefaultReference.
- The pre-PHP-8 branch of the RequiredParameter constructor (`getClass()`) is not modelled, only the typed branch. The code never creates a RequiredParameter anyway.
- Container.ResolveChain: only containers of the arena (`ContainerObj`) are walked by an array name. A step through any other object fails with `NotAContainer`, where src/Reference.php:67-70 calls that object's `get()`. This includes a Garden Container that the container itself built as an ordinary object.
- Container.ResolveValue: recursion depth is bounded by `fuel`. A resolution that would not terminate in PHP ends in `OutOfFuel`, and nothing is said about runs that need more fuel than given.
- Named-argument binding of PHP 8 is not modelled. `newInstanceArgs`, `invokeArgs` and `call_user_func_array` bind string keys to parameters by exact name, and every plan key is lower-cased (src/Container.php:332). A parameter whose name has an upper-case letter (such as `$configValue`) therefore makes PHP throw "Unknown named parameter". The model binds by position and builds the object. This affects Container.RunFactory, Container.ConstructShared, Container.RunPlannedCalls, Container.RunSharedCalls and ContainerFacts.LiteralFactoryRuns.
- Planner.MakeDefaultArgsSlots: stated only for parameters whose names stay distinct once lower-cased. PHP accepts `function f($a, $A)`. There the second parameter overwrites the first one's slot in place (`Values.Put`), while the cursor still advances. `Planner.MakeDefaultArgsKeys` covers the keys for all parameter lists.
- Planner.PlanFromSlots: the loop invariant is stated under the same condition, names distinct once lower-cased, for the same reason.
- Container.GetArgs: the "set instances stay" guarantee covers instances set when the call starts. A shared id that is not yet set can be published twice when a dependency re-enters it, and the model keeps the last publication, as the source does.
- ContainerInterface conformance, the other exception classes and ContainerConfigurationInterface (aliases, factories, getters) are not modelled: the container code shown does not implement them.
