# fun-factory in Dafny

A model of the core of `dirtsimple/fun-factory`, a PHP library of lazy,
chainable callables.

- `fun\Factory` is an immutable list of ops. Its `__invoke` interpreter
  folds those ops over an input value. An op is one of:
  - a method call, a property read or a key read;
  - a conditional (COND), a side effect (TAP) or a constant (VAL);
  - an opaque callable with bound arguments.

  Key writes, unsets and existence tests are callable ops. Each calls a
  static helper of the class, which treats plain arrays and `ArrayAccess`
  objects differently.
- `dirtsimple\fn` supplies the builders:
  - `_` normalises heterogeneous arguments into one op list, with a cache
    for single strings;
  - `is_callable_name` decides whether a string names a function or holds
    an expression;
  - `bind`, `val`, `tap`, `when` and `unless` each build a one-op factory;
  - `transform` folds a reducer over a schema.

Files:

- `wrappers.dfy`: `Option` and `Result`.
- `php_array.dfy` (`PhpArray`): PHP arrays as ordered key/value lists.
  - Assigning a new key appends it, and overwriting keeps its position.
  - Unsetting a key drops its entry.
- `php.dfy` (`Php`):
  - PHP values, where objects are opaque handles;
  - the conversions to boolean and to array key;
  - the errors an invocation can raise.
- `factory.dfy` (`Factory`): the `Op` datatype, the interpreter (`Invoke`,
  `Run`, `Step`, `CallWith`), the key helpers, the builders and the laws of
  the interpreter.
  - Objects, their methods, properties and `ArrayAccess` members, and all
    foreign callables are supplied by a `World` record of functions.
  - No lemma assumes anything of the `World` beyond what its own
    `requires` clauses state.
- `callable_name.dfy` (`CallableName`): the regular expression of
  `is_callable_name`, and a scanner proved equivalent to it.
- `fn.dfy` (`Fn`):
  - `_` with its caches threaded as an explicit `State`;
  - a cache-free reference build, and the proof that the caches never
    change what is built;
  - the combinators and `transform`.

The model follows PHP 7.0, the version the repository's own tests pin
down (a factory invoked with no argument sees null). PHP 7.4 reserves the
class name `fn`, so the code cannot run there at all. The PHP 7.0
semantics that matter are:

- A missing argument is null. This is why a factory called with no
  argument sees null.
- Reading a missing array key gives null (with a notice).
- Reading a property of a non-object gives null.
- An array or object used as an array key does nothing.

A factory is a value here. So where the source returns "the same instance",
the model returns the entry stored in the cache and leaves the state as it
was.

## Model

| member | source | states |
|---|---|---|
| PhpArray.Lookup | src/fun/Factory.php:44 | `$a[$k]` finds a value exactly when some entry has key `k`, and the value found is that entry's |
| PhpArray.Assign | src/fun/Factory.php:81-83 | `$_[$key] = $val` maps the key to the value and keeps every other key's value |
| PhpArray.AssignPlacement | src/fun/Factory.php:82 | an assigned new key is appended at the end, and an existing key keeps its position, with every key where it was |
| PhpArray.AssignKeepsDistinct | src/fun/Factory.php:82 | assignment keeps an array's keys distinct |
| PhpArray.Remove | src/fun/Factory.php:91-93 | `unset($_[$key])` leaves the key absent and every other key's value as it was |
| PhpArray.RemoveCount | src/fun/Factory.php:92 | unsetting a missing key leaves the array unchanged, and unsetting a present key removes exactly one entry and keeps the keys distinct |
| PhpArray.RemoveKeepsOrder | src/fun/Factory.php:92 | unsetting a present key cuts its one entry out, and every other entry keeps its place in the order |
| Php.KeyValue | src/fn.php:67 | the key `transform` writes, as a value that converts back to the same key |
| Factory.ReadKey | src/fun/Factory.php:44 | the OP_KEY step on an array reads the stored entry, or null when the key is absent; on a scalar it is a member call on a non-object |
| Factory.KeyExistsIn | src/fun/Factory.php:69-73 | `OP_KEY_EXISTS` is key membership on arrays and `offsetExists` on objects |
| Factory.AssignKey | src/fun/Factory.php:79-83 | `OP_SET_KEY` on an array sets the key and keeps the other entries. On an object it returns that object exactly when `offsetSet` returns normally, and otherwise raises what `offsetSet` raised |
| Factory.UnsetKeyIn | src/fun/Factory.php:89-93 | `OP_UNSET_KEY` on an array removes the key and keeps the other entries. On an object it returns that object exactly when `offsetUnset` returns normally |
| Factory.Identity | src/fn.php:19 | the factory with no ops returns its input unchanged, in every world |
| Factory.Invoke | src/fun/Factory.php:39-57 | `__invoke` runs the factory's ops on its argument; what that means is stated by `Factory.RunAppend` and the per-op lemmas below |
| Factory.Run | src/fun/Factory.php:40-56 | the `foreach` over the ops, each result feeding the next op and an error stopping the run, as `Factory.RunAppend` states |
| Factory.Step | src/fun/Factory.php:41-54 | one op's effect, dispatched on its opcode; each branch's meaning is stated by `Factory.ValIgnoresInput`, `TapPassesValueOn`, `CondRunsOneBranch`, `ApplyPassesValueLast`, `MethodCallsWithRecordedArgs` and `UnknownOpcodeAborts` |
| Factory.CallWith | src/fun/Factory.php:50-52 | calling a callable op with its arguments, including the three key helpers; `Factory.ApplyPassesValueLast` states which arguments it receives |
| Factory.AndThen | src/fun/Factory.php:31-35 | a new factory with one more op, leaving the receiver as it is, as `Factory.AndThenRunsLast` states |
| Factory.CallMethod | src/fun/Factory.php:23-25 | `->name(...$args)` appends a method op; `Factory.MethodCallsWithRecordedArgs` and `ActionsInApparentOrder` state what it does |
| Factory.GetProperty | src/fun/Factory.php:27-29 | `->name` appends a property read; `Factory.ActionsInApparentOrder` states what it does |
| Factory.OffsetGet | src/fun/Factory.php:61-63 | `offsetGet` appends a key read; `Factory.KeyReadsOnArray` and `KeyOpsOnObject` state what it does |
| Factory.OffsetExists | src/fun/Factory.php:65-67 | `offsetExists` appends the key-exists helper; `Factory.KeyReadsOnArray` and `KeyOpsOnObject` state what it does |
| Factory.OffsetSet | src/fun/Factory.php:75-77 | `offsetSet` appends the set-key helper; `Factory.OffsetSetOnArray`, `SetThenRead` and `KeyOpsOnObject` state what it does |
| Factory.OffsetUnset | src/fun/Factory.php:85-87 | `offsetUnset` appends the unset-key helper; `Factory.OffsetUnsetOnArray`, `UnsetThenRead` and `KeyOpsOnObject` state what it does |
| Factory.RunAppend | src/fun/Factory.php:39-56 | running `p + q` runs `q` on the result of `p`, and an error in `p` stops the run: steps happen in their apparent order |
| Factory.AndThenRunsLast | src/fun/Factory.php:31-35 | `andThen` keeps the receiver's ops as a prefix and adds exactly one op. The new factory runs the receiver and then that op |
| Factory.ValIgnoresInput | src/fun/Factory.php:47 | after an OP_VAL step the rest of the chain sees the stored constant, whatever the input was |
| Factory.TapPassesValueOn | src/fun/Factory.php:46 | OP_TAP runs its sub-chain on the current value and passes that same value on; only an error from the sub-chain shows |
| Factory.CondRunsOneBranch | src/fun/Factory.php:45 | OP_COND runs the predicate on the current value, then exactly one branch on that same value: the first when the result is truthy, the second otherwise |
| Factory.ApplyPassesValueLast | src/fun/Factory.php:50-52 | a callable op receives its bound arguments followed by the current value, and the current value alone when nothing is bound |
| Factory.MethodCallsWithRecordedArgs | src/fun/Factory.php:23-25 | `->name(...$args)` calls the method on an object with exactly the recorded arguments (none when recorded as `false`). Calling it on a non-object is an error |
| Factory.UnknownOpcodeAborts | src/fun/Factory.php:41-48 | an integer opcode outside 0..5 raises DomainException, and no later op runs |
| Factory.FalsyOpcodeIsMethod | src/fun/Factory.php:41-54 | the one falsy opcode, 0, is exactly the method call, and the ops whose head is not an integer are exactly the callable ops |
| Factory.ActionsInApparentOrder | specs/Factory.spec.php:55-62 | `fn()->qq(3,4)->foo['bar']` calls `qq(3, 4)`, reads `foo` from the result and then reads `'bar'`, giving 23 |
| Factory.OffsetSetOnArray | src/fun/Factory.php:75-83 | the factory built by `offsetSet` maps the key to the value on an array and keeps every other entry |
| Factory.OffsetUnsetOnArray | src/fun/Factory.php:85-93 | the factory built by `offsetUnset` removes exactly that key from an array |
| Factory.KeyReadsOnArray | src/fun/Factory.php:61-73 | on an array, `offsetExists` is key membership and `offsetGet` reads the stored entry |
| Factory.SetThenRead | src/fun/Factory.php:61-83 | reading back a key just set gives the value set, and the key then exists |
| Factory.UnsetThenRead | src/fun/Factory.php:61-93 | after an unset the key does not exist, and reading it gives null |
| Factory.KeyOpsOnObject | src/fun/Factory.php:61-93 | on an `ArrayAccess` object, set and unset give back the same object, and get and exists answer what the object's `offsetGet`/`offsetExists` answer |
| Factory.InvokeRaisesOnlyInterpreterOrWorldErrors | src/fun/Factory.php:39-57 | invoking raises an error only when it is an unknown opcode, a member call on a non-object or a string-offset write, or when it was raised by an object or a foreign callable. In particular, invoking never raises "not callable" |
| CallableName.IsCallableName | src/fn.php:52-54 | `is_callable_name`: scan the longest path, then check what follows; `CallableName.ScannerMatchesPattern` proves it accepts exactly the strings the pattern matches |
| CallableName.PathLength | src/fn.php:53 | the length of the longest prefix of identifier characters and backslashes |
| CallableName.Separated | src/fn.php:53 | true exactly when every backslash is followed by an identifier start |
| CallableName.IdentTail | src/fn.php:53 | true exactly when every character is an identifier character, except possibly one final newline |
| CallableName.PathSound | src/fn.php:53 | every `(\\?IDENT)+` is a non-empty run of path characters whose backslashes each start an identifier |
| CallableName.PathComplete | src/fn.php:53 | every such run splits into `(\\?IDENT)+` |
| CallableName.TailMatches | src/fn.php:53 | the scanner's check of what follows the path is the pattern's `(::IDENT)?$` |
| CallableName.ScannerSound | src/fn.php:52-54 | every string the scanner accepts matches the pattern |
| CallableName.ScannerComplete | src/fn.php:52-54 | every string the pattern matches is accepted |
| CallableName.ScannerMatchesPattern | src/fn.php:52-54 | `is_callable_name` holds exactly when the anchored pattern matches |
| CallableName.IdentIsName | src/fn.php:53 | a plain identifier, with no namespace and no member, is a callable name |
| CallableName.AcceptsPlainName | specs/Factory.spec.php:137 | `foo_bar` is a callable name |
| CallableName.AcceptsStaticMethod | specs/Factory.spec.php:138 | `foo_bar::baz` is a callable name |
| CallableName.AcceptsNamespacedName | specs/Factory.spec.php:139 | `a\bc` is a callable name |
| CallableName.AcceptsQualifiedStaticMethod | specs/Factory.spec.php:140 | `\a\b::c_d0` is a callable name |
| CallableName.RejectsSpace | specs/Factory.spec.php:143 | `foo bar` is not a callable name |
| CallableName.RejectsCall | specs/Factory.spec.php:144 | `foo(bar)` is not a callable name |
| CallableName.RejectsVariable | specs/Factory.spec.php:145 | `$_` is not a callable name |
| CallableName.RejectsEmpty | src/fn.php:53 | the empty string is not a callable name |
| CallableName.RejectsDoubleBackslash | specs/Factory.spec.php:148 | a doubled backslash is rejected |
| CallableName.RejectsTwoMembers | specs/Factory.spec.php:149 | two `::` suffixes are rejected |
| CallableName.RejectsTripleColon | specs/Factory.spec.php:150 | `:::` is rejected |
| Fn.Compile | src/fn.php:62 | `'$_'` compiles to the identity; any other expression compiles to a single call of its compiled closure |
| Fn.Expr | src/fn.php:58-64 | `expr` stores what it returns under the string, answers a known string from the cache without changing anything, and never alters an existing entry |
| Fn.Contribution | src/fn.php:24-40 | an argument that cannot be called fails with "not callable", except an object without `__toString`, alone or as the one element of an array, whose message cannot be built |
| Fn.Flatten | src/fn.php:22-41 | building fails exactly when some argument is not callable, with "not callable" or the failed string conversion; one argument builds to its own contribution |
| Fn.FlattenStopsAtFirstFailure | src/fn.php:23-41 | the build raises the error of the first argument that cannot be called |
| Fn.Built | src/fn.php:42 | the reference build succeeds exactly when every argument can be built, and its ops are the flattened contributions |
| Fn.Contribute | src/fn.php:24-27 | one argument's step in the loop changes only the expression cache, and keeps its existing entries |
| Fn.Collect | src/fn.php:22-41 | the loop succeeds exactly when every argument can be built. It changes only the expression cache, and keeps its existing entries |
| Fn.Pipe | src/fn.php:10-45 | `_($factory)` returns the factory and changes nothing. `_()` returns the stored identity. A lone string is answered from the cache when present, and otherwise stored after the build. Failures are "not callable" or the failed string conversion of the offending object. Entries of both caches, once stored, never change |
| Fn.ExprCoherent | src/fn.php:58-64 | under coherent caches `expr` returns the compilation of the string and keeps the caches coherent |
| Fn.CollectCoherent | src/fn.php:22-41 | under coherent caches the loop yields exactly the reference op list and keeps the caches coherent |
| Fn.PipeMatchesReference | src/fn.php:10-45 | under coherent caches `_` returns exactly the reference build of its arguments and keeps the caches coherent: caching changes which instance comes back, never what it does |
| Fn.InitialCoherent | src/fn.php:11 | the empty caches are coherent |
| Fn.IdentityIsStored | src/fn.php:18-19 | `_()` returns the identity factory, and calling it again returns the same one and changes nothing |
| Fn.FactoryPassesThrough | src/fn.php:15 | `_($factory)` returns `$factory` and changes nothing |
| Fn.StringlessObjectIsRefused | src/fn.php:38-49 | `_` and `bind` of an object without `__toString` fail converting it to a string, while `_(42)` and `bind(42)` raise "not callable" |
| Fn.RepeatStringHitsCache | src/fn.php:16-43 | a single string always builds, and a repeat call returns the stored entry and leaves the state as it is |
| Fn.ContributionMeaning | src/fn.php:24-40 | each argument's ops do what the argument stands for. A name is called, an expression's closure is called (`'$_'` is the identity), a factory runs, an op tuple steps, an unwrapped element is called, and a callable is called |
| Fn.BuiltPipesLeftToRight | src/fn.php:22-42 | the built factory applies each argument to the previous argument's result, first argument first |
| Fn.FlattenAppend | src/fn.php:22-41 | building `p + q` splices the op lists of `p` and of `q` |
| Fn.PipeOfTwoNames | src/fn.php:22-42 | `_` of two function names calls the first on the input and the second on its result |
| Fn.PipesReverseThenFlip | specs/Factory.spec.php:113-118 | `_('array_reverse', 'array_flip')` maps `['foo','bar']` to `['bar'=>0,'foo'=>1]` |
| Fn.Reverse | src/functions.php:15 | the arguments in reverse order |
| Fn.Composed | src/functions.php:5-16 | `fn(...)` builds exactly when every argument can be built; with at most one argument it is `_` |
| Fn.SingleArgMeaning | src/functions.php:8-11 | `fn($x)` does what `$x` stands for |
| Fn.ComposedRunsLastFirst | specs/Factory.spec.php:63-66 | `fn($f, $g)` runs `$g` first and `$f` on its result |
| Fn.Resolve | src/fn.php:48 | a callable that `is_callable` accepts stands for the callable `_` would use for it |
| Fn.Bind | src/fn.php:47-50 | `bind` fails exactly when the callable does not resolve, with "not callable", or with the failed string conversion exactly when it is an object without `__toString`. Otherwise the factory calls it with the bound arguments followed by the input |
| Fn.Constant | src/fn.php:76-78 | `val($x)` returns `$x` whatever it is given |
| Fn.TapWith | src/fn.php:80-82 | `tap` builds when every callable can, and its factory runs their composition for effect and returns the input; only an error shows |
| Fn.When | src/fn.php:84-86 | `when` builds exactly when all three arguments can be built, and otherwise raises the error of the first of condition, true branch, false branch that cannot |
| Fn.Unless | src/fn.php:88-90 | `unless` builds exactly when all three arguments can be built, and otherwise raises the error of the first of condition, true branch, false branch that cannot |
| Fn.WhenChoosesBranch | src/fn.php:84-86 | a `when` factory runs the condition on its input, then `$ifTrue` when the result is truthy and `$ifFalse` otherwise, on that same input |
| Fn.UnlessIsWhenSwapped | src/fn.php:84-90 | `unless($c, $f, $t)` is `when($c, $t, $f)` |
| Fn.SameIsIdentity | src/fn.php:62 | the default branch `'$_'` returns its input |
| Fn.OmittedBranchKeepsInput | src/fn.php:84-90 | with its last argument defaulted, `when` returns its input when the condition is falsy, and `unless` when it is truthy |
| Fn.WhenAndUnlessExamples | specs/Factory.spec.php:185-205 | `when('$_==1', '$_*2', '$_+4')` maps 1 to 2 and 2 to 6; `unless` with the same arguments maps 1 to 5 and 2 to 4 |
| Fn.TapRunsForEffect | specs/Factory.spec.php:169-176 | `tap([$mock,'method'], '$_*2')` on 42 returns 42, and the chain it runs for effect ends with the method's answer to 84 |
| Fn.Reduce | src/fn.php:68 | the fold of a reducer over the schema entries in order; `Fn.ReduceAppend` states how it splits |
| Fn.Store | src/fn.php:67 | the default reducer's step: call the schema function on the input and store its result under the key; `Fn.ReducerAssigns` states it |
| Fn.DefaultReducer | src/fn.php:67 | the reducer `transform` uses when none is given; `Fn.ReducerAssigns` states what it does |
| Fn.Transform | src/fn.php:66-70 | `transform` with the default reducer; `Fn.TransformSetsEachKey` and `Fn.TransformFailsIffACallFails` state its result |
| Fn.ReducerAssigns | src/fn.php:67 | on an array, the default reducer stores what the callable returns under the key, or raises what the callable raised |
| Fn.TransformStep | src/fn.php:68 | the default transform's first step assigns the first schema entry's result |
| Fn.ReduceAppend | src/fn.php:66-70 | the reducer sees the schema entries in order: reducing `p + q` reduces `q` from where `p` left off, and an error stops the fold |
| Fn.TransformSetsEachKey | src/fn.php:66-70 | with the default reducer on an array, every schema key holds what its callable returns for the input, and every other entry of `$out` is kept; an empty schema returns `$out` |
| Fn.TransformFailsIffACallFails | src/fn.php:66-70 | on an array, the default transform fails exactly when one of the schema's callables fails, and otherwise returns an array |
| Fn.TransformOverwritesThenAppends | specs/Factory.spec.php:218-224 | transforming `['x'=>99,'z'=>21]` gives `['x'=>84,'z'=>21,'y'=>42]`: an existing key is overwritten in place and a new key is appended |

## Left out

- `eval` in `expr` is not modelled. A compiled expression is an opaque
  callable `Compiled(src)` whose behaviour the `World` supplies. A parse
  error raised at build time is therefore not modelled.
- `fn::compose` is not part of this model. `fn()` in src/functions.php
  delegates to it. The combinators build through `fn()`, and `Fn.Composed`
  takes it to be `_` of the reversed arguments. This is the right-to-left
  order shown by specs/Factory.spec.php:63-66 and 169-176. Its separate
  caches are not modelled, because they only decide which instance is
  returned.
- `fn::schema` is not modelled: it is only a closure that forwards to
  `transform`. The `fn` constructor, which only throws, is not modelled
  either.
- Fn.Transform: `$reducer ?: default` is modelled as two entry points.
  `Fn.Reduce` takes an explicit reducer, and `Fn.Transform` uses the
  default one.
- PHP's magic methods `__call`, `__get` and `offsetGet` are not modelled as
  interception. They appear as explicit builders (`CallMethod`,
  `GetProperty`, `OffsetGet`, `OffsetExists`, `OffsetSet`, `OffsetUnset`)
  that append the op the magic method appends.
- The behaviour of objects is supplied by the `World` and carries no state:
  - their methods, properties and `ArrayAccess` members;
  - foreign callables.

  Side effects on objects, and how often a mock was called, are therefore
  not modelled.
- An op tuple passed to `_` verbatim is a well-formed `Op`. Ill-typed
  tuples, such as an opcode with a payload of the wrong kind, are not
  modelled.
- Factory.ReadKey reads a missing key as null, as the PHP 7 code does
  (with a notice). It does not raise a "key not found" error. Reading a
  property of a non-object likewise gives null rather than an error.
- Factory.AssignKey: writing a key into a non-empty string raises an error
  here. PHP 7 instead overwrites one character of the string. Unsetting a
  string offset is an error, as in PHP.
- PHP 7.1 to 7.3 are not modelled. They differ from 7.0 in two places
  the model follows. Invoking a factory with no argument throws
  `ArgumentCountError` there instead of seeing null. Assigning a key into
  the empty string no longer turns it into an array.
- Php.ToKey does not canonicalise numeric strings (`"1"` to `1`). Floats
  and resources are not modelled.
- Php.Truthy has no float or resource cases.
- `is_callable_name` works on bytes in PHP and on characters here. Every
  character from U+007F up counts as an identifier character, just as
  every byte of its UTF-8 encoding does.
- Fn.Bind: whether a name or callable value resolves is a parameter
  (`defined`), because it depends on which functions and methods exist at
  run time.
