/**
  `dirtsimple\fn`: the static helpers that build factories.

  `_` turns a list of heterogeneous arguments into one factory, caching
  single-string builds; `bind`, `val`, `tap`, `when` and `unless` each build
  a one-op factory; `transform` folds a reducer over a schema.

  The two caches of the source (the `static` variables of `_` and the static
  property `fn::$exprs`) are threaded explicitly as a `State`. Factories are
  values here, so "returns the cached instance" becomes "returns the entry
  stored in the cache, and the state stays as it is".
 */
module Fn {
  import opened Wrappers
  import opened PhpArray
  import opened Php
  import opened F = Factory
  import opened CallableName

  /** The arguments `_` tells apart. */
  datatype Arg =
    | FactoryArg(factory: Factory)   // a fun\Factory instance
    | StrArg(s: string)              // a string: a callable name or an expression
    | TripleArg(op: Op)              // a 3-element array: an op tuple, pushed verbatim
    | SingletonArg(item: Arg)        // a 1-element array: its element is used instead
    | CallableArg(target: Foreign)   // any other callable: a closure, an invokable object, an [object, 'method'] pair
    | Uncallable                     // anything else a string can be made of: a number, null, an array of another size, ...
    | Unprintable                    // an object that is neither callable nor has `__toString`

  /** The static state `_` and `expr` keep between calls. */
  datatype State = State(
    identity: Option<Factory>,        // `static $factory` of `_`
    cache: map<string, Factory>,      // `static $cache` of `_`
    exprs: map<string, Factory>)      // `fn::$exprs`

  /** A result together with the state after the call. */
  datatype Out<T> = Out(state: State, result: T)

  /** The state before any call. */
  function Initial(): State {
    State(None, map[], map[])
  }

  // --- Expressions --- //

  /**
    What `expr` builds for an expression string: the identity for `$_`, and
    otherwise a factory calling the closure compiled from the string. What
    the compiled closure does is up to the world (`Compiled(src)`).
   */
  function Compile(src: string): (f: Factory)
    ensures src == "$_" ==> f == Identity()
    ensures src != "$_" ==> f.ops == [Apply(External(Compiled(src)), [])]
  {
    if src == "$_" then Identity() else AndThen(Identity(), Apply(External(Compiled(src)), []))
  }

  /** `fn::expr($expr)`: compile once per string, then answer from `fn::$exprs`. */
  function Expr(st: State, src: string): (o: Out<Factory>)
    ensures src in o.state.exprs && o.state.exprs[src] == o.result
    ensures src in st.exprs ==> o == Out(st, st.exprs[src])
    ensures o.state.identity == st.identity && o.state.cache == st.cache
    ensures forall s :: s in st.exprs ==> s in o.state.exprs && o.state.exprs[s] == st.exprs[s]
  {
    if src in st.exprs then Out(st, st.exprs[src])
    else
      var f := Compile(src);
      Out(st.(exprs := st.exprs[src := f]), f)
  }

  // --- What each argument contributes --- //

  /** The callable an argument stands for when used as a callable value. */
  function AsCallable(a: Arg): Option<Callable> {
    match a
    case FactoryArg(f) => Some(Invokable(f))
    case StrArg(s) => Some(External(Named(s)))
    case CallableArg(t) => Some(External(t))
    case _ => None
  }

  /**
    The ops one argument of `_` contributes, without the caches: a callable
    name is called, any other string is compiled, a factory's ops are
    spliced in, an op tuple is pushed as it is, a one-element array is
    unwrapped, and any other callable is called. Nothing else is callable.
   */
  function Contribution(a: Arg): (r: Result<seq<Op>, Error>)
    ensures r.Err? ==> Refused(r.error)
    ensures r.Err? ==> (r.error == NoStringConversion <==> a == Unprintable || a == SingletonArg(Unprintable))
  {
    match a
    case StrArg(s) =>
      if IsCallableName(s) then Ok([Apply(External(Named(s)), [])]) else Ok(Compile(s).ops)
    case FactoryArg(f) => Ok(f.ops)
    case TripleArg(op) => Ok([op])
    case SingletonArg(item) =>
      (match AsCallable(item)
       case Some(c) => Ok([Apply(c, [])])
       case None => Err(Refusal(item)))
    case CallableArg(t) => Ok([Apply(External(t), [])])
    case Uncallable => Err(Refusal(a))
    case Unprintable => Err(Refusal(a))
  }

  /**
    The error for a value that cannot be called. The source puts the value
    into the message "... is not callable" before it throws
    BadFunctionCallException, and for an object without `__toString` that
    string conversion is itself an error, raised first.
   */
  function Refusal(a: Arg): Error {
    if a.Unprintable? then NoStringConversion else NotCallable
  }

  /** The errors building from an uncallable argument can end with. */
  predicate Refused(e: Error) {
    e == NotCallable || e == NoStringConversion
  }

  /** Every argument can be built. */
  predicate Buildable(args: seq<Arg>) {
    forall i :: 0 <= i < |args| ==> Contribution(args[i]).Ok?
  }

  /**
    The op list of all the arguments, left to right; the first argument that
    is not callable stops the build with BadFunctionCallException.
   */
  function Flatten(args: seq<Arg>): (r: Result<seq<Op>, Error>)
    ensures r.Ok? <==> Buildable(args)
    ensures r.Err? ==> Refused(r.error)
    ensures |args| == 1 ==> r == Contribution(args[0])
    decreases |args|
  {
    if args == [] then Ok([])
    else
      match Contribution(args[0])
      case Err(e) => Err(e)
      case Ok(ops) =>
        assert forall i :: 1 <= i < |args| ==> args[1..][i - 1] == args[i];
        match Flatten(args[1..])
        case Err(e) => Err(e)
        case Ok(more) =>
          assert |args| == 1 ==> args[1..] == [] && more == [] && ops + more == ops;
          Ok(ops + more)
  }

  /**
    The build stops at the first argument that cannot be called, and raises
    that argument's error.
   */
  lemma {:induction false} FlattenStopsAtFirstFailure(args: seq<Arg>, i: nat)
    requires i < |args| && Contribution(args[i]).Err?
    requires forall j :: 0 <= j < i ==> Contribution(args[j]).Ok?
    ensures Flatten(args) == Err(Contribution(args[i]).error)
    decreases |args|
  {
    if i > 0 {
      assert forall j :: 0 <= j < |args| - 1 ==> args[1..][j] == args[j + 1];
      FlattenStopsAtFirstFailure(args[1..], i - 1);
    }
  }

  /** The factory `_` returns for `args`, as a function of the arguments alone. */
  function Built(args: seq<Arg>): (r: Result<Factory, Error>)
    ensures r.Ok? <==> Buildable(args)
    ensures r.Ok? ==> r.value.ops == Flatten(args).value
  {
    match Flatten(args)
    case Ok(ops) => Ok(Factory(ops))
    case Err(e) => Err(e)
  }

  // --- `_` itself --- //

  /** One argument's ops inside `_`'s loop: expressions go through `expr` and its cache. */
  function Contribute(st: State, a: Arg): (o: Out<Result<seq<Op>, Error>>)
    ensures o.state.identity == st.identity && o.state.cache == st.cache
    ensures forall s :: s in st.exprs ==> s in o.state.exprs && o.state.exprs[s] == st.exprs[s]
  {
    if a.StrArg? && !IsCallableName(a.s) then
      var e := Expr(st, a.s);
      Out(e.state, Ok(e.result.ops))
    else Out(st, Contribution(a))
  }

  /** The `foreach` of `_`: the arguments' ops in order, threading the state. */
  function Collect(st: State, args: seq<Arg>): (o: Out<Result<seq<Op>, Error>>)
    ensures o.state.identity == st.identity && o.state.cache == st.cache
    ensures forall s :: s in st.exprs ==> s in o.state.exprs && o.state.exprs[s] == st.exprs[s]
    ensures o.result.Ok? <==> Buildable(args)
    ensures o.result.Err? ==> Refused(o.result.error)
    decreases |args|
  {
    if args == [] then Out(st, Ok([]))
    else
      var c := Contribute(st, args[0]);
      assert c.result.Ok? <==> Contribution(args[0]).Ok?;
      assert forall i :: 1 <= i < |args| ==> args[1..][i - 1] == args[i];
      match c.result
      case Err(e) => Out(c.state, Err(e))
      case Ok(ops) =>
        var rest := Collect(c.state, args[1..]);
        match rest.result
        case Err(e) => Out(rest.state, Err(e))
        case Ok(more) => Out(rest.state, Ok(ops + more))
  }

  /**
    `fn::_(...$args)`. A lone factory is returned as it is, a lone string is
    answered from the cache when it can be, and no arguments at all give the
    one stored identity factory. Otherwise the arguments are built left to
    right, and a lone string's build is stored in the cache. Cache entries,
    once stored, never change.
   */
  function Pipe(st: State, args: seq<Arg>): (o: Out<Result<Factory, Error>>)
    ensures |args| == 1 && args[0].FactoryArg? ==> o == Out(st, Ok(args[0].factory))
    ensures |args| == 0 ==> o.result.Ok? && o.state.identity == Some(o.result.value)
    ensures |args| == 0 && st.identity.Some? ==> o == Out(st, Ok(st.identity.value))
    ensures |args| == 1 && args[0].StrArg? ==>
      o.result.Ok? && args[0].s in o.state.cache && o.state.cache[args[0].s] == o.result.value
    ensures |args| == 1 && args[0].StrArg? && args[0].s in st.cache ==> o == Out(st, Ok(st.cache[args[0].s]))
    ensures o.result.Err? ==> Refused(o.result.error)
    ensures forall s :: s in st.cache ==> s in o.state.cache && o.state.cache[s] == st.cache[s]
    ensures forall s :: s in st.exprs ==> s in o.state.exprs && o.state.exprs[s] == st.exprs[s]
    ensures st.identity.Some? ==> o.state.identity == st.identity
  {
    if |args| == 1 && args[0].FactoryArg? then Out(st, Ok(args[0].factory))
    else if |args| == 1 && args[0].StrArg? && args[0].s in st.cache then Out(st, Ok(st.cache[args[0].s]))
    else if |args| == 0 then
      var id := if st.identity.Some? then st.identity.value else Identity();
      Out(st.(identity := Some(id)), Ok(id))
    else if |args| == 1 && args[0].StrArg? && !IsCallableName(args[0].s) then
      var e := Expr(st, args[0].s);
      Out(e.state.(cache := e.state.cache[args[0].s := e.result]), Ok(e.result))
    else
      var c := Collect(st, args);
      match c.result
      case Err(e) => Out(c.state, Err(e))
      case Ok(ops) =>
        var f := Factory(ops);
        if |args| == 1 && args[0].StrArg? then
          Out(c.state.(cache := c.state.cache[args[0].s := f]), Ok(f))
        else Out(c.state, Ok(f))
  }

  /**
    `_(new \stdClass)` and `bind(new \stdClass)` fail while converting the
    object to a string for their message, not with BadFunctionCallException;
    `_(42)` and `_([1, 2])` raise BadFunctionCallException.
   */
  lemma StringlessObjectIsRefused(st: State, defined: Foreign -> bool)
    ensures Pipe(st, [Unprintable]).result == Err(NoStringConversion)
    ensures Pipe(st, [SingletonArg(Unprintable)]).result == Err(NoStringConversion)
    ensures Bind(Unprintable, [], defined) == Err(NoStringConversion)
    ensures Pipe(st, [Uncallable]).result == Err(NotCallable)
    ensures Bind(Uncallable, [], defined) == Err(NotCallable)
  {
  }

  // --- The caches never change what `_` builds --- //

  /**
    The caches hold only what the arguments alone determine: the identity
    factory, the compilation of each expression, and the build of each
    single string.
   */
  ghost predicate Coherent(st: State) {
    && (st.identity.Some? ==> st.identity.value == Identity())
    && (forall s :: s in st.exprs ==> st.exprs[s] == Compile(s))
    && (forall s :: s in st.cache ==> Built([StrArg(s)]) == Ok(st.cache[s]))
  }

  lemma InitialCoherent()
    ensures Coherent(Initial())
  {
  }

  lemma ExprCoherent(st: State, src: string)
    requires Coherent(st)
    ensures Expr(st, src).result == Compile(src)
    ensures Coherent(Expr(st, src).state)
  {
  }

  lemma {:induction false} CollectCoherent(st: State, args: seq<Arg>)
    requires Coherent(st)
    ensures Collect(st, args).result == Flatten(args)
    ensures Coherent(Collect(st, args).state)
    decreases |args|
  {
    if args != [] {
      var c := Contribute(st, args[0]);
      if args[0].StrArg? && !IsCallableName(args[0].s) {
        ExprCoherent(st, args[0].s);
      }
      assert c.result == Contribution(args[0]);
      assert Coherent(c.state);
      if c.result.Ok? {
        CollectCoherent(c.state, args[1..]);
      }
    }
  }

  /**
    Under coherent caches, `_` returns exactly the factory its arguments
    determine, and the caches stay coherent: caching changes which instance
    is returned, never what it does.
   */
  lemma PipeMatchesReference(st: State, args: seq<Arg>)
    requires Coherent(st)
    ensures Pipe(st, args).result == Built(args)
    ensures Coherent(Pipe(st, args).state)
  {
    var o := Pipe(st, args);
    if |args| == 1 && args[0].FactoryArg? {
    } else if |args| == 1 && args[0].StrArg? && args[0].s in st.cache {
    } else if |args| == 0 {
    } else if |args| == 1 && args[0].StrArg? && !IsCallableName(args[0].s) {
      ExprCoherent(st, args[0].s);
    } else {
      CollectCoherent(st, args);
    }
  }

  /** `_()` returns the same identity factory on every call, and the second call changes nothing. */
  lemma IdentityIsStored(st: State)
    requires Coherent(st)
    ensures var o := Pipe(st, []);
      && o.result == Ok(Identity())
      && Pipe(o.state, []) == o
  {
  }

  /** `_($f)` for a factory `$f` returns `$f` and changes nothing. */
  lemma FactoryPassesThrough(st: State, f: Factory)
    ensures Pipe(st, [FactoryArg(f)]) == Out(st, Ok(f))
  {
  }

  /**
    A single string is built once: the call stores its factory under the
    string, and a repeat call returns that stored entry and leaves the state
    as it is.
   */
  lemma RepeatStringHitsCache(st: State, s: string)
    ensures var o := Pipe(st, [StrArg(s)]);
      && o.result.Ok?
      && Pipe(o.state, [StrArg(s)]) == Out(o.state, o.result)
  {
  }

  // --- What a built factory does --- //

  /** What invoking one argument does, stated without ops. */
  function ArgStep(w: World, a: Arg, v: Value): Result<Value, Error>
    requires Contribution(a).Ok?
  {
    match a
    case FactoryArg(f) => Invoke(w, f, v)
    case StrArg(s) =>
      if IsCallableName(s) then w.call(Named(s), [v])
      else if s == "$_" then Ok(v)
      else w.call(Compiled(s), [v])
    case TripleArg(op) => Step(w, op, v)
    case SingletonArg(item) => CallWith(w, AsCallable(item).value, [v])
    case CallableArg(t) => w.call(t, [v])
    case Uncallable => Err(NotCallable)
    case Unprintable => Err(NoStringConversion)
  }

  /** The arguments' steps, left to right, each on the previous one's result. */
  function Chain(w: World, args: seq<Arg>, v: Value): Result<Value, Error>
    requires Buildable(args)
    decreases |args|
  {
    if args == [] then Ok(v)
    else
      assert forall i :: 1 <= i < |args| ==> args[1..][i - 1] == args[i];
      match ArgStep(w, args[0], v)
      case Ok(x) => Chain(w, args[1..], x)
      case Err(e) => Err(e)
  }

  /** The ops of one argument do what that argument stands for. */
  lemma ContributionMeaning(w: World, a: Arg, v: Value)
    requires Contribution(a).Ok?
    ensures Run(w, Contribution(a).value, v) == ArgStep(w, a, v)
  {
    match a
    case FactoryArg(f) =>
    case StrArg(s) =>
      if IsCallableName(s) {
        InvokeOne(w, Apply(External(Named(s)), []), v);
      } else if s != "$_" {
        InvokeOne(w, Apply(External(Compiled(s)), []), v);
      }
    case TripleArg(op) => InvokeOne(w, op, v);
    case SingletonArg(item) => InvokeOne(w, Apply(AsCallable(item).value, []), v);
    case CallableArg(t) => InvokeOne(w, Apply(External(t), []), v);
  }

  /**
    The factory `_` builds pipes: each argument is applied to the result of
    the one before it, first argument first.
   */
  lemma {:induction false} BuiltPipesLeftToRight(w: World, args: seq<Arg>, v: Value)
    requires Buildable(args)
    ensures Built(args).Ok?
    ensures Invoke(w, Built(args).value, v) == Chain(w, args, v)
    decreases |args|
  {
    if args != [] {
      var ops := Contribution(args[0]).value;
      assert forall i :: 1 <= i < |args| ==> args[1..][i - 1] == args[i];
      var more := Flatten(args[1..]).value;
      assert Flatten(args).value == ops + more;
      RunAppend(w, ops, more, v);
      ContributionMeaning(w, args[0], v);
      match ArgStep(w, args[0], v)
      case Ok(x) => BuiltPipesLeftToRight(w, args[1..], x);
      case Err(_) =>
    }
  }

  /** Building `p + q` is building `p`, then `q`, and splicing the op lists. */
  lemma {:induction false} FlattenAppend(p: seq<Arg>, q: seq<Arg>)
    requires Buildable(p) && Buildable(q)
    ensures Flatten(p + q) == Ok(Flatten(p).value + Flatten(q).value)
    decreases |p|
  {
    if p == [] {
      assert p + q == q;
      assert Flatten(p).value + Flatten(q).value == Flatten(q).value;
    } else {
      assert (p + q)[0] == p[0];
      assert (p + q)[1..] == p[1..] + q;
      assert forall i :: 1 <= i < |p| ==> p[1..][i - 1] == p[i];
      FlattenAppend(p[1..], q);
      var ops := Contribution(p[0]).value;
      assert Flatten(p) == Ok(ops + Flatten(p[1..]).value);
      assert Flatten(p + q) == Ok(ops + Flatten(p[1..] + q).value);
      assert ops + (Flatten(p[1..]).value + Flatten(q).value) == (ops + Flatten(p[1..]).value) + Flatten(q).value;
    }
  }

  /** The names of the two PHP functions the example below pipes. */
  lemma ArrayReverseIsName()
    ensures IsCallableName("array_reverse")
  {
    IdentIsName("array_reverse");
  }

  lemma ArrayFlipIsName()
    ensures IsCallableName("array_flip")
  {
    IdentIsName("array_flip");
  }

  /** Piping two function names calls the first, then the second on its result. */
  lemma PipeOfTwoNames(w: World, f: string, g: string, x: Value, y: Value, z: Value)
    requires IsCallableName(f) && IsCallableName(g)
    requires w.call(Named(f), [x]) == Ok(y)
    requires w.call(Named(g), [y]) == Ok(z)
    ensures Built([StrArg(f), StrArg(g)]).Ok?
    ensures Invoke(w, Built([StrArg(f), StrArg(g)]).value, x) == Ok(z)
  {
    var args := [StrArg(f), StrArg(g)];
    assert Buildable(args);
    BuiltPipesLeftToRight(w, args, x);
    assert ArgStep(w, args[0], x) == Ok(y);
    assert args[1..] == [StrArg(g)];
    assert ArgStep(w, args[1], y) == Ok(z);
    assert Chain(w, args[1..], y) == Chain(w, [], z);
  }

  /**
    `fn::_('array_reverse', 'array_flip')` on `['foo', 'bar']` gives
    `['bar' => 0, 'foo' => 1]`, given what the two PHP functions return.
   */
  lemma PipesReverseThenFlip(w: World, st: State)
    requires Coherent(st)
    requires w.call(Named("array_reverse"), [Arr([(IntKey(0), Str("foo")), (IntKey(1), Str("bar"))])])
      == Ok(Arr([(IntKey(0), Str("bar")), (IntKey(1), Str("foo"))]))
    requires w.call(Named("array_flip"), [Arr([(IntKey(0), Str("bar")), (IntKey(1), Str("foo"))])])
      == Ok(Arr([(StrKey("bar"), Int(0)), (StrKey("foo"), Int(1))]))
    ensures var o := Pipe(st, [StrArg("array_reverse"), StrArg("array_flip")]);
      && o.result.Ok?
      && Invoke(w, o.result.value, Arr([(IntKey(0), Str("foo")), (IntKey(1), Str("bar"))]))
        == Ok(Arr([(StrKey("bar"), Int(0)), (StrKey("foo"), Int(1))]))
  {
    ArrayReverseIsName();
    ArrayFlipIsName();
    PipeMatchesReference(st, [StrArg("array_reverse"), StrArg("array_flip")]);
    PipeOfTwoNames(w, "array_reverse", "array_flip",
      Arr([(IntKey(0), Str("foo")), (IntKey(1), Str("bar"))]),
      Arr([(IntKey(0), Str("bar")), (IntKey(1), Str("foo"))]),
      Arr([(StrKey("bar"), Int(0)), (StrKey("foo"), Int(1))]));
  }

  // --- `fn()` as the combinators call it --- //

  /** The elements of `s`, last first. */
  function Reverse<T>(s: seq<T>): (r: seq<T>)
    ensures |r| == |s|
    ensures forall i :: 0 <= i < |s| ==> r[i] == s[|s| - 1 - i]
  {
    if s == [] then [] else Reverse(s[1..]) + [s[0]]
  }

  /**
    `fn(...$args)` of src/functions.php, which the combinators call. It
    hands its arguments to `fn::compose`, which is not part of this model;
    what it builds is taken to be `_` of the arguments in reverse order, so
    that the last argument runs first. With one argument or none that is `_`
    itself; the caches of `fn()` only decide which instance comes back.
   */
  function Composed(args: seq<Arg>): (r: Result<Factory, Error>)
    ensures r.Ok? <==> Buildable(args)
    ensures |args| <= 1 ==> r == Built(args)
  {
    var rev := Reverse(args);
    assert |args| <= 1 ==> rev == args;
    assert Buildable(rev) <==> Buildable(args) by {
      assert forall i :: 0 <= i < |args| ==> args[i] == rev[|args| - 1 - i];
    }
    Built(rev)
  }

  /** A single built argument does what the argument stands for. */
  lemma SingleArgMeaning(w: World, a: Arg, v: Value)
    requires Contribution(a).Ok?
    ensures Composed([a]).Ok?
    ensures Invoke(w, Composed([a]).value, v) == ArgStep(w, a, v)
  {
    BuiltPipesLeftToRight(w, [a], v);
    match ArgStep(w, a, v)
    case Ok(x) => assert Chain(w, [a][1..], x) == Ok(x);
    case Err(_) =>
  }

  /** Composing two arguments runs the second one first. */
  lemma ComposedRunsLastFirst(w: World, f: Arg, g: Arg, v: Value)
    requires Contribution(f).Ok? && Contribution(g).Ok?
    ensures Composed([f, g]).Ok?
    ensures Invoke(w, Composed([f, g]).value, v) ==
      match ArgStep(w, g, v)
      case Ok(x) => ArgStep(w, f, x)
      case Err(e) => Err(e)
  {
    assert Reverse([f, g]) == [g, f];
    BuiltPipesLeftToRight(w, [g, f], v);
    assert [g, f][1..] == [f];
    match ArgStep(w, g, v)
    case Ok(x) =>
      {
        match ArgStep(w, f, x)
        case Ok(y) => assert Chain(w, [f][1..], y) == Ok(y);
        case Err(_) =>
      }
    case Err(_) =>
  }

  // --- bind, val, tap, when, unless --- //

  /**
    `is_callable($callable)`: a factory always is; a name or any other
    callable value is when `defined` says its target exists. Arrays that are
    not a callable pair, and everything else, are not.
   */
  function Resolve(c: Arg, defined: Foreign -> bool): (r: Option<Callable>)
    ensures r.Some? ==> AsCallable(c) == r
  {
    match c
    case FactoryArg(f) => Some(Invokable(f))
    case StrArg(s) => if defined(Named(s)) then Some(External(Named(s))) else None
    case CallableArg(t) => if defined(t) then Some(External(t)) else None
    case _ => None
  }

  /**
    `fn::bind($callable, ...$args)`: a factory calling `$callable` with the
    bound arguments first and the input last. A callable that does not
    resolve fails at build time.
   */
  function Bind(c: Arg, args: seq<Value>, defined: Foreign -> bool): (r: Result<Factory, Error>)
    ensures r.Ok? <==> Resolve(c, defined).Some?
    ensures r.Err? ==> Refused(r.error)
    ensures r.Err? ==> (r.error == NoStringConversion <==> c.Unprintable?)
    ensures r.Ok? ==> forall w, v :: Invoke(w, r.value, v) == CallWith(w, Resolve(c, defined).value, args + [v])
  {
    match Resolve(c, defined)
    case Some(g) =>
      var f := AndThen(Identity(), Apply(g, args));
      assert f == Factory([Apply(g, args)]);
      assert forall w, v :: Invoke(w, f, v) == CallWith(w, g, args + [v]) by {
        forall w, v
          ensures Invoke(w, f, v) == CallWith(w, g, args + [v])
        {
          InvokeOne(w, Apply(g, args), v);
          if args == [] {
            assert args + [v] == [v];
          }
        }
      }
      Ok(f)
    case None => Err(Refusal(c))
  }

  /** `fn::val($value)`: a factory that returns `$value` whatever it is given. */
  function Constant(x: Value): (f: Factory)
    ensures forall w, v :: Invoke(w, f, v) == Ok(x)
  {
    var f := AndThen(Identity(), Val(x));
    assert f == Factory([Val(x)]);
    assert forall w, v :: Invoke(w, f, v) == Ok(x) by {
      forall w, v
        ensures Invoke(w, f, v) == Ok(x)
      {
        InvokeOne(w, Val(x), v);
      }
    }
    f
  }

  /**
    `fn::tap(...$callables)`: a factory that runs the composed callables on
    its input for their effect and returns the input itself.
   */
  function TapWith(callables: seq<Arg>): (r: Result<Factory, Error>)
    ensures r.Ok? <==> Buildable(callables)
    ensures r.Err? ==> Refused(r.error)
    ensures r.Ok? ==>
      forall w, v :: Invoke(w, r.value, v) ==
        (match Invoke(w, Composed(callables).value, v)
         case Ok(_) => Ok(v)
         case Err(e) => Err(e))
  {
    match Composed(callables)
    case Err(e) =>
      assert !Buildable(Reverse(callables));
      Err(e)
    case Ok(g) =>
      var f := AndThen(Identity(), Tap(g));
      assert f == Factory([Tap(g)]);
      assert forall w, v :: Invoke(w, f, v) == (match Invoke(w, g, v) case Ok(_) => Ok(v) case Err(e) => Err(e)) by {
        forall w, v
          ensures Invoke(w, f, v) == (match Invoke(w, g, v) case Ok(_) => Ok(v) case Err(e) => Err(e))
        {
          InvokeOne(w, Tap(g), v);
        }
      }
      Ok(f)
  }

  /** `$cond($_) ? $ifTrue($_) : $ifFalse($_)`, stated on the arguments. */
  function Choice(w: World, cond: Arg, ifTrue: Arg, ifFalse: Arg, v: Value): Result<Value, Error>
    requires Contribution(cond).Ok? && Contribution(ifTrue).Ok? && Contribution(ifFalse).Ok?
  {
    match ArgStep(w, cond, v)
    case Ok(c) => if Truthy(c) then ArgStep(w, ifTrue, v) else ArgStep(w, ifFalse, v)
    case Err(e) => Err(e)
  }

  /**
    `fn::when($cond, $ifTrue, $ifFalse)`: one COND op with the three built
    arguments. They are built in that order, and the first one that cannot
    be built raises its error.
   */
  function When(cond: Arg, ifTrue: Arg, ifFalse: Arg): (r: Result<Factory, Error>)
    ensures r.Ok? <==> Contribution(cond).Ok? && Contribution(ifTrue).Ok? && Contribution(ifFalse).Ok?
    ensures Contribution(cond).Err? ==> r == Err(Contribution(cond).error)
    ensures Contribution(cond).Ok? && Contribution(ifTrue).Err? ==> r == Err(Contribution(ifTrue).error)
    ensures Contribution(cond).Ok? && Contribution(ifTrue).Ok? && Contribution(ifFalse).Err? ==>
      r == Err(Contribution(ifFalse).error)
  {
    match (Composed([cond]), Composed([ifTrue]), Composed([ifFalse]))
    case (Ok(test), Ok(yes), Ok(no)) => Ok(AndThen(Identity(), Cond(test, yes, no)))
    case (Err(e), _, _) => Err(e)
    case (Ok(_), Err(e), _) => Err(e)
    case (Ok(_), Ok(_), Err(e)) => Err(e)
  }

  /**
    `fn::unless($cond, $ifFalse, $ifTrue)`: the same COND op, with the
    branches given in the other order. The arguments are still built
    condition first, then `$ifTrue`, then `$ifFalse`.
   */
  function Unless(cond: Arg, ifFalse: Arg, ifTrue: Arg): (r: Result<Factory, Error>)
    ensures r.Ok? <==> Contribution(cond).Ok? && Contribution(ifTrue).Ok? && Contribution(ifFalse).Ok?
    ensures Contribution(cond).Err? ==> r == Err(Contribution(cond).error)
    ensures Contribution(cond).Ok? && Contribution(ifTrue).Err? ==> r == Err(Contribution(ifTrue).error)
    ensures Contribution(cond).Ok? && Contribution(ifTrue).Ok? && Contribution(ifFalse).Err? ==>
      r == Err(Contribution(ifFalse).error)
  {
    match (Composed([cond]), Composed([ifTrue]), Composed([ifFalse]))
    case (Ok(test), Ok(yes), Ok(no)) => Ok(AndThen(Identity(), Cond(test, yes, no)))
    case (Err(e), _, _) => Err(e)
    case (Ok(_), Err(e), _) => Err(e)
    case (Ok(_), Ok(_), Err(e)) => Err(e)
  }

  /** The default of the omitted branch: `'$_'`, the identity. */
  const Same: Arg := StrArg("$_")

  /**
    A `when` factory runs the condition on its input, then exactly one
    branch on that same input: `$ifTrue` when the condition's result is
    truthy, `$ifFalse` otherwise.
   */
  lemma WhenChoosesBranch(w: World, cond: Arg, ifTrue: Arg, ifFalse: Arg, v: Value)
    requires Contribution(cond).Ok? && Contribution(ifTrue).Ok? && Contribution(ifFalse).Ok?
    ensures When(cond, ifTrue, ifFalse).Ok?
    ensures Invoke(w, When(cond, ifTrue, ifFalse).value, v) == Choice(w, cond, ifTrue, ifFalse, v)
  {
    var test, yes, no := Composed([cond]).value, Composed([ifTrue]).value, Composed([ifFalse]).value;
    SingleArgMeaning(w, cond, v);
    SingleArgMeaning(w, ifTrue, v);
    SingleArgMeaning(w, ifFalse, v);
    assert AndThen(Identity(), Cond(test, yes, no)) == Factory([Cond(test, yes, no)]);
    assert When(cond, ifTrue, ifFalse) == Ok(Factory([Cond(test, yes, no)]));
    InvokeOne(w, Cond(test, yes, no), v);
  }

  /** `unless` is `when` with its two branch arguments swapped. */
  lemma UnlessIsWhenSwapped(cond: Arg, ifFalse: Arg, ifTrue: Arg)
    ensures Unless(cond, ifFalse, ifTrue) == When(cond, ifTrue, ifFalse)
  {
  }

  /** `'$_'` is an expression, and the factory built from it returns its input. */
  lemma SameIsIdentity(w: World, v: Value)
    ensures Contribution(Same).Ok?
    ensures ArgStep(w, Same, v) == Ok(v)
  {
    RejectsVariable();
  }

  /**
    The omitted branch keeps the input: `when($cond, $ifTrue)` returns its
    input when the condition is falsy, and `unless($cond, $ifFalse)` when it
    is truthy.
   */
  lemma OmittedBranchKeepsInput(w: World, cond: Arg, branch: Arg, v: Value)
    requires Contribution(cond).Ok? && Contribution(branch).Ok?
    requires ArgStep(w, cond, v).Ok?
    ensures When(cond, branch, Same).Ok? && Unless(cond, branch, Same).Ok?
    ensures !Truthy(ArgStep(w, cond, v).value) ==> Invoke(w, When(cond, branch, Same).value, v) == Ok(v)
    ensures Truthy(ArgStep(w, cond, v).value) ==> Invoke(w, Unless(cond, branch, Same).value, v) == Ok(v)
  {
    SameIsIdentity(w, v);
    WhenChoosesBranch(w, cond, branch, Same, v);
    WhenChoosesBranch(w, cond, Same, branch, v);
  }

  /** The expression strings of the `when` and `unless` examples are not callable names. */
  lemma ExamplesAreExpressions()
    ensures !IsCallableName("$_==1") && !IsCallableName("$_*2") && !IsCallableName("$_+4")
  {
    assert PathLength("$_==1") == 0;
    assert PathLength("$_*2") == 0;
    assert PathLength("$_+4") == 0;
  }

  /**
    `fn::when('$_==1', '$_*2', '$_+4')` maps 1 to 2 and 2 to 6, and
    `fn::unless` with the same arguments maps 1 to 5 and 2 to 4.
   */
  lemma WhenAndUnlessExamples(w: World)
    requires w.call(Compiled("$_==1"), [Int(1)]) == Ok(Bool(true))
    requires w.call(Compiled("$_==1"), [Int(2)]) == Ok(Bool(false))
    requires w.call(Compiled("$_*2"), [Int(1)]) == Ok(Int(2))
    requires w.call(Compiled("$_*2"), [Int(2)]) == Ok(Int(4))
    requires w.call(Compiled("$_+4"), [Int(1)]) == Ok(Int(5))
    requires w.call(Compiled("$_+4"), [Int(2)]) == Ok(Int(6))
    ensures When(StrArg("$_==1"), StrArg("$_*2"), StrArg("$_+4")).Ok?
    ensures Invoke(w, When(StrArg("$_==1"), StrArg("$_*2"), StrArg("$_+4")).value, Int(1)) == Ok(Int(2))
    ensures Invoke(w, When(StrArg("$_==1"), StrArg("$_*2"), StrArg("$_+4")).value, Int(2)) == Ok(Int(6))
    ensures Unless(StrArg("$_==1"), StrArg("$_*2"), StrArg("$_+4")).Ok?
    ensures Invoke(w, Unless(StrArg("$_==1"), StrArg("$_*2"), StrArg("$_+4")).value, Int(1)) == Ok(Int(5))
    ensures Invoke(w, Unless(StrArg("$_==1"), StrArg("$_*2"), StrArg("$_+4")).value, Int(2)) == Ok(Int(4))
  {
    ExamplesAreExpressions();
    var c, t, f := StrArg("$_==1"), StrArg("$_*2"), StrArg("$_+4");
    WhenChoosesBranch(w, c, t, f, Int(1));
    WhenChoosesBranch(w, c, t, f, Int(2));
    UnlessIsWhenSwapped(c, t, f);
    WhenChoosesBranch(w, c, f, t, Int(1));
    WhenChoosesBranch(w, c, f, t, Int(2));
  }

  /**
    `fn::tap([$mock, 'method'], '$_*2')` on 42: the expression runs first,
    the method receives 84, and the factory still returns 42.
   */
  lemma TapRunsForEffect(w: World, mocked: Foreign)
    requires w.call(Compiled("$_*2"), [Int(42)]) == Ok(Int(84))
    requires w.call(mocked, [Int(84)]) == Ok(Int(43))
    ensures TapWith([CallableArg(mocked), StrArg("$_*2")]).Ok?
    ensures Invoke(w, TapWith([CallableArg(mocked), StrArg("$_*2")]).value, Int(42)) == Ok(Int(42))
    ensures Invoke(w, Composed([CallableArg(mocked), StrArg("$_*2")]).value, Int(42)) == w.call(mocked, [Int(84)])
  {
    assert PathLength("$_*2") == 0;
    ComposedRunsLastFirst(w, CallableArg(mocked), StrArg("$_*2"), Int(42));
  }

  // --- transform --- //

  /**
    The loop of `transform`: each schema entry, in order, hands the output so
    far, its key, its function and the input to the reducer, whose result is
    the next output.
   */
  function Reduce<S, O>(schema: seq<(Key, S)>, input: Value, out: O, reducer: (O, Key, S, Value) -> Result<O, Error>): Result<O, Error>
    decreases |schema|
  {
    if schema == [] then Ok(out)
    else
      match reducer(out, schema[0].0, schema[0].1, input)
      case Ok(next) => Reduce(schema[1..], input, next, reducer)
      case Err(e) => Err(e)
  }

  /** The default reducer: call the schema function on the input and store its result under the key. */
  function Store(w: World, out: Value, key: Key, g: Callable, input: Value): Result<Value, Error> {
    match CallWith(w, g, [input])
    case Ok(x) => AssignKey(w, KeyValue(key), x, out)
    case Err(e) => Err(e)
  }

  /** The default reducer. */
  function DefaultReducer(w: World): (Value, Key, Callable, Value) -> Result<Value, Error> {
    (out: Value, key: Key, g: Callable, input: Value) => Store(w, out, key, g, input)
  }

  /** On an array, the default reducer stores what the callable returns under the key. */
  lemma ReducerAssigns(w: World, a: Entries<Value>, k: Key, g: Callable, input: Value)
    ensures CallWith(w, g, [input]).Ok? ==>
      DefaultReducer(w)(Arr(a), k, g, input) == Ok(Arr(Assign(a, k, CallWith(w, g, [input]).value)))
    ensures CallWith(w, g, [input]).Err? ==> DefaultReducer(w)(Arr(a), k, g, input) == CallWith(w, g, [input])
  {
    assert DefaultReducer(w)(Arr(a), k, g, input) == Store(w, Arr(a), k, g, input);
    assert ToKey(KeyValue(k)) == Some(k);
    if CallWith(w, g, [input]).Ok? {
      assert AssignKey(w, KeyValue(k), CallWith(w, g, [input]).value, Arr(a))
        == Ok(Arr(Assign(a, k, CallWith(w, g, [input]).value)));
    }
  }

  /** `fn::transform($schema, $input, $out)` with the default reducer. */
  function Transform(w: World, schema: Entries<Callable>, input: Value, out: Value): Result<Value, Error> {
    Reduce(schema, input, out, DefaultReducer(w))
  }

  /** The default transform's first step on an array. */
  lemma TransformStep(w: World, schema: Entries<Callable>, input: Value, a: Entries<Value>)
    requires schema != [] && CallWith(w, schema[0].1, [input]).Ok?
    ensures Transform(w, schema, input, Arr(a)) ==
      Transform(w, schema[1..], input, Arr(Assign(a, schema[0].0, CallWith(w, schema[0].1, [input]).value)))
  {
    ReducerAssigns(w, a, schema[0].0, schema[0].1, input);
  }

  /**
    The reducer sees the schema entries in order: reducing `p + q` is
    reducing `q` from where `p` left off, and an error stops the fold.
   */
  lemma {:induction false} ReduceAppend<S, O>(p: seq<(Key, S)>, q: seq<(Key, S)>, input: Value, out: O, reducer: (O, Key, S, Value) -> Result<O, Error>)
    ensures Reduce(p + q, input, out, reducer) ==
      match Reduce(p, input, out, reducer)
      case Ok(o) => Reduce(q, input, o, reducer)
      case Err(e) => Err(e)
    decreases |p|
  {
    if p == [] {
      assert p + q == q;
    } else {
      assert (p + q)[0] == p[0];
      assert (p + q)[1..] == p[1..] + q;
      match reducer(out, p[0].0, p[0].1, input)
      case Ok(next) => ReduceAppend(p[1..], q, input, next, reducer);
      case Err(_) =>
    }
  }

  /**
    With the default reducer on an array, every schema key ends up holding
    what its callable returns for the input, and every other entry of `out`
    is kept; an empty schema returns `out` as it is.
   */
  lemma {:induction false} TransformSetsEachKey(w: World, schema: Entries<Callable>, input: Value, a: Entries<Value>)
    requires DistinctKeys(schema)
    requires forall i :: 0 <= i < |schema| ==> CallWith(w, schema[i].1, [input]).Ok?
    ensures Transform(w, schema, input, Arr(a)).Ok?
    ensures Transform(w, schema, input, Arr(a)).value.Arr?
    ensures forall i :: 0 <= i < |schema| ==>
      Lookup(Transform(w, schema, input, Arr(a)).value.entries, schema[i].0) == Some(CallWith(w, schema[i].1, [input]).value)
    ensures forall j :: !Occurs(schema, j) ==> Lookup(Transform(w, schema, input, Arr(a)).value.entries, j) == Lookup(a, j)
    ensures schema == [] ==> Transform(w, schema, input, Arr(a)) == Ok(Arr(a))
    decreases |schema|
  {
    if schema != [] {
      var k, g := schema[0].0, schema[0].1;
      var x := CallWith(w, g, [input]).value;
      var a' := Assign(a, k, x);
      ReducerAssigns(w, a, k, g, input);
      HeadNotInTail(schema);
      assert forall i :: 1 <= i < |schema| ==> schema[1..][i - 1] == schema[i];
      TransformSetsEachKey(w, schema[1..], input, a');
      var b := Transform(w, schema, input, Arr(a)).value.entries;
      assert Transform(w, schema, input, Arr(a)) == Transform(w, schema[1..], input, Arr(a'));
      forall i | 0 <= i < |schema|
        ensures Lookup(b, schema[i].0) == Some(CallWith(w, schema[i].1, [input]).value)
      {
        if i == 0 {
          assert !Occurs(schema[1..], k);
        } else {
          assert schema[i] == schema[1..][i - 1];
        }
      }
      forall j | !Occurs(schema, j)
        ensures Lookup(b, j) == Lookup(a, j)
      {
        assert j != k;
        forall i | 0 <= i < |schema[1..]|
          ensures schema[1..][i].0 != j
        {
          assert schema[1..][i] == schema[i + 1];
        }
      }
    }
  }

  /** On an array, the default transform fails exactly when one of the schema's callables fails. */
  lemma {:induction false} TransformFailsIffACallFails(w: World, schema: Entries<Callable>, input: Value, a: Entries<Value>)
    ensures Transform(w, schema, input, Arr(a)).Err? <==>
      exists i :: 0 <= i < |schema| && CallWith(w, schema[i].1, [input]).Err?
    ensures Transform(w, schema, input, Arr(a)).Ok? ==> Transform(w, schema, input, Arr(a)).value.Arr?
    decreases |schema|
  {
    if schema != [] {
      var k, g := schema[0].0, schema[0].1;
      assert forall i :: 1 <= i < |schema| ==> schema[1..][i - 1] == schema[i];
      match CallWith(w, g, [input])
      case Ok(x) =>
        ReducerAssigns(w, a, k, g, input);
        TransformFailsIffACallFails(w, schema[1..], input, Assign(a, k, x));
        if exists i :: 0 <= i < |schema| && CallWith(w, schema[i].1, [input]).Err? {
          var i :| 0 <= i < |schema| && CallWith(w, schema[i].1, [input]).Err?;
          assert i > 0;
          assert schema[1..][i - 1] == schema[i];
        }
      case Err(_) =>
        assert CallWith(w, schema[0].1, [input]).Err?;
    }
  }

  /**
    `transform(['x' => ..., 'y' => ...], 42, ['x' => 99, 'z' => 21])` gives
    `['x' => 84, 'z' => 21, 'y' => 42]`: an existing key is overwritten in
    place and a new key is appended.
   */
  lemma TransformOverwritesThenAppends(w: World, double: Callable, same: Callable)
    requires CallWith(w, double, [Int(42)]) == Ok(Int(84))
    requires CallWith(w, same, [Int(42)]) == Ok(Int(42))
    ensures Transform(w, [(StrKey("x"), double), (StrKey("y"), same)], Int(42), Arr([(StrKey("x"), Int(99)), (StrKey("z"), Int(21))]))
      == Ok(Arr([(StrKey("x"), Int(84)), (StrKey("z"), Int(21)), (StrKey("y"), Int(42))]))
  {
    var schema := [(StrKey("x"), double), (StrKey("y"), same)];
    var a := [(StrKey("x"), Int(99)), (StrKey("z"), Int(21))];
    var a1 := [(StrKey("x"), Int(84)), (StrKey("z"), Int(21))];
    var a2 := [(StrKey("x"), Int(84)), (StrKey("z"), Int(21)), (StrKey("y"), Int(42))];
    OverwriteX();
    AppendY();
    TransformStep(w, schema, Int(42), a);
    assert schema[1..] == [(StrKey("y"), same)];
    TransformStep(w, schema[1..], Int(42), a1);
    assert schema[1..][1..] == [];
    assert Transform(w, [], Int(42), Arr(a2)) == Ok(Arr(a2));
  }

  lemma OverwriteX()
    ensures Assign([(StrKey("x"), Int(99)), (StrKey("z"), Int(21))], StrKey("x"), Int(84))
      == [(StrKey("x"), Int(84)), (StrKey("z"), Int(21))]
  {
    var a := [(StrKey("x"), Int(99)), (StrKey("z"), Int(21))];
    assert a[1..] == [(StrKey("z"), Int(21))];
  }

  lemma AppendY()
    ensures Assign([(StrKey("x"), Int(84)), (StrKey("z"), Int(21))], StrKey("y"), Int(42))
      == [(StrKey("x"), Int(84)), (StrKey("z"), Int(21)), (StrKey("y"), Int(42))]
  {
    var a1 := [(StrKey("x"), Int(84)), (StrKey("z"), Int(21))];
    assert !Occurs(a1, StrKey("y"));
    AssignPlacement(a1, StrKey("y"), Int(42));
  }
}
