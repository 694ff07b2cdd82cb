/**
  `fun\Factory`: an immutable list of ops and the interpreter that folds them
  over an input value.

  In the source every op is a PHP tuple `[op, arg, extra]`: an integer opcode
  (0..5) or a callable in the first slot, and untyped payload slots. Here each
  shape the interpreter distinguishes is a constructor of `Op` carrying only
  the payload it reads. The key write, unset and exists ops are what the
  source makes them: a call of one of the class's static helpers with the key
  (and value) bound in front of the current value.
 */
module Factory {
  import opened Wrappers
  import opened PhpArray
  import opened Php

  /** The integer opcodes of the first tuple slot. */
  const OP_METHOD: int := 0
  const OP_PROPERTY: int := 1
  const OP_KEY: int := 2
  const OP_COND: int := 3
  const OP_TAP: int := 4
  const OP_VAL: int := 5

  /** An integer in the opcode slot that names no opcode. */
  type BadCode = n: int | n < 0 || 5 < n witness 6

  datatype Op =
    | Method(name: string, args: seq<Value>)              // [OP_METHOD, name, args ?: false]
    | Property(name: string)                              // [OP_PROPERTY, name, null]
    | Key(offset: Value)                                  // [OP_KEY, offset, null]
    | Cond(test: Factory, ifTrue: Factory, ifFalse: Factory)  // [OP_COND, test, [ifTrue, ifFalse]]
    | Tap(effect: Factory)                                // [OP_TAP, effect, null]
    | Val(value: Value)                                   // [OP_VAL, value, null]
    | Invalid(code: BadCode)                              // [code, ..., ...]
    | Apply(fn: Callable, bound: seq<Value>)              // [fn, bound args or null, ...]

  /** A factory object: nothing but its op list. */
  datatype Factory = Factory(ops: seq<Op>)

  /** The class's static helpers behind `OP_KEY_EXISTS`, `OP_SET_KEY` and `OP_UNSET_KEY`. */
  datatype Helper = KeyExists | SetKey | UnsetKey

  /** Callables the model does not see into. */
  datatype Foreign =
    | Named(name: string)       // a function or `Class::method` name
    | Closure(id: nat)          // a closure, an invokable object or an `[object, 'method']` pair
    | Compiled(source: string)  // the closure `fn::expr` compiles from an expression string

  /** Anything an op may call. */
  datatype Callable =
    | Static(helper: Helper)
    | Invokable(factory: Factory)
    | External(target: Foreign)

  /**
    Everything the interpreter delegates to code it cannot see: methods,
    properties and `ArrayAccess` members of objects, and foreign callables.
    `offsetSet` and `offsetUnset` report only whether they threw, since the
    source discards what they return.
   */
  datatype World = World(
    callMethod: (Value, string, seq<Value>) -> Result<Value, Error>,
    property: (Value, string) -> Result<Value, Error>,
    offsetGet: (Value, Value) -> Result<Value, Error>,
    offsetExists: (Value, Value) -> Result<Value, Error>,
    offsetSet: (Value, Value, Value) -> Option<Error>,
    offsetUnset: (Value, Value) -> Option<Error>,
    call: (Foreign, seq<Value>) -> Result<Value, Error>)

  /** The integer in an op's first slot, or None when that slot holds a callable. */
  function Opcode(op: Op): Option<int> {
    match op
    case Method(_, _) => Some(OP_METHOD)
    case Property(_) => Some(OP_PROPERTY)
    case Key(_) => Some(OP_KEY)
    case Cond(_, _, _) => Some(OP_COND)
    case Tap(_) => Some(OP_TAP)
    case Val(_) => Some(OP_VAL)
    case Invalid(code) => Some(code)
    case Apply(_, _) => None
  }

  // --- The key helpers --- //

  /** `$args[$i]`, where a PHP function sees a missing argument as null. */
  function ArgAt(args: seq<Value>, i: nat): Value {
    if i < |args| then args[i] else Null
  }

  /** The OP_KEY step: an array is subscripted directly, anything else goes through `offsetGet`. */
  function ReadKey(w: World, offset: Value, x: Value): (r: Result<Value, Error>)
    ensures x.Arr? && ToKey(offset).Some? ==>
      r == Ok(if HasKey(x.entries, ToKey(offset).value) then Lookup(x.entries, ToKey(offset).value).value else Null)
    ensures !x.Arr? && !x.Obj? ==> r == Err(NonObject)
  {
    match x
    case Arr(a) =>
      (match ToKey(offset)
       case Some(k) => Ok(match Lookup(a, k) case Some(y) => y case None => Null)
       case None => Ok(Null))
    case Obj(_) => w.offsetGet(x, offset)
    case _ => Err(NonObject)
  }

  /**
    `OP_KEY_EXISTS($key, $_)`: `array_key_exists` on arrays, `offsetExists`
    on anything else. `array_key_exists` takes integer, string and null keys
    only and answers false for the rest.
   */
  function KeyExistsIn(w: World, offset: Value, x: Value): (r: Result<Value, Error>)
    ensures x.Arr? && (offset.Int? || offset.Str?) ==>
      r == Ok(Bool(HasKey(x.entries, ToKey(offset).value)))
    ensures x.Obj? ==> r == w.offsetExists(x, offset)
    ensures !x.Arr? && !x.Obj? ==> r == Err(NonObject)
  {
    match x
    case Arr(a) =>
      if offset.Int? || offset.Str? || offset.Null? then Ok(Bool(HasKey(a, ToKey(offset).value)))
      else Ok(Bool(false))
    case Obj(_) => w.offsetExists(x, offset)
    case _ => Err(NonObject)
  }

  /**
    The OP_SET_KEY helper: store the value under the key and return the
    updated container. Null, false
    and the empty string turn into a new array; other scalars are left as they
    are (PHP only warns); objects have `offsetSet` called and stay themselves.
   */
  function AssignKey(w: World, offset: Value, val: Value, x: Value): (r: Result<Value, Error>)
    ensures x.Arr? && ToKey(offset).Some? ==>
      && r.Ok? && r.value.Arr?
      && Lookup(r.value.entries, ToKey(offset).value) == Some(val)
      && forall j :: j != ToKey(offset).value ==> Lookup(r.value.entries, j) == Lookup(x.entries, j)
    ensures x.Obj? ==> (r == Ok(x) <==> w.offsetSet(x, offset, val).None?)
    ensures x.Obj? && r.Err? ==> w.offsetSet(x, offset, val) == Some(r.error)
  {
    match x
    case Arr(a) =>
      (match ToKey(offset)
       case Some(k) => Ok(Arr(Assign(a, k, val)))
       case None => Ok(x))
    case Obj(_) =>
      (match w.offsetSet(x, offset, val)
       case None => Ok(x)
       case Some(e) => Err(e))
    case Null => Ok(Arr(NewArray(offset, val)))
    case Bool(b) => if b then Ok(x) else Ok(Arr(NewArray(offset, val)))
    case Str(s) => if s == "" then Ok(Arr(NewArray(offset, val))) else Err(StringOffset)
    case Int(_) => Ok(x)
  }

  /** The array an assignment creates from null: one entry, or none for an illegal offset. */
  function NewArray(offset: Value, val: Value): Entries<Value> {
    match ToKey(offset)
    case Some(k) => [(k, val)]
    case None => []
  }

  /**
    The OP_UNSET_KEY helper: drop the key and return the updated container.
    Unsetting a string offset is an error; other scalars are left as they are.
   */
  function UnsetKeyIn(w: World, offset: Value, x: Value): (r: Result<Value, Error>)
    ensures x.Arr? && ToKey(offset).Some? ==>
      && r.Ok? && r.value.Arr?
      && !HasKey(r.value.entries, ToKey(offset).value)
      && forall j :: j != ToKey(offset).value ==> Lookup(r.value.entries, j) == Lookup(x.entries, j)
    ensures x.Obj? ==> (r == Ok(x) <==> w.offsetUnset(x, offset).None?)
    ensures x.Obj? && r.Err? ==> w.offsetUnset(x, offset) == Some(r.error)
  {
    match x
    case Arr(a) =>
      (match ToKey(offset)
       case Some(k) => Ok(Arr(Remove(a, k)))
       case None => Ok(x))
    case Obj(_) =>
      (match w.offsetUnset(x, offset)
       case None => Ok(x)
       case Some(e) => Err(e))
    case Str(_) => Err(StringOffset)
    case _ => Ok(x)
  }

  // --- Interpreter --- //

  /** `__invoke($_)`: run the factory's ops on `v`. */
  function Invoke(w: World, f: Factory, v: Value): Result<Value, Error>
    decreases f, 1
  {
    Run(w, f.ops, v)
  }

  /** The `foreach` of `__invoke`: each op's result is the next op's input. */
  function Run(w: World, ops: seq<Op>, v: Value): Result<Value, Error>
    decreases ops
  {
    if ops == [] then Ok(v)
    else
      match Step(w, ops[0], v)
      case Ok(next) => Run(w, ops[1..], next)
      case Err(e) => Err(e)
  }

  /** One iteration of the `foreach`: the op's effect on the current value. */
  function Step(w: World, op: Op, v: Value): Result<Value, Error>
    decreases op
  {
    match op
    case Method(name, args) =>
      if v.Obj? then w.callMethod(v, name, args) else Err(NonObject)
    case Property(name) =>
      // Reading a property of a non-object is a notice and yields null.
      if v.Obj? then w.property(v, name) else Ok(Null)
    case Key(offset) => ReadKey(w, offset, v)
    case Cond(test, ifTrue, ifFalse) =>
      (match Invoke(w, test, v)
       case Ok(c) => if Truthy(c) then Invoke(w, ifTrue, v) else Invoke(w, ifFalse, v)
       case Err(e) => Err(e))
    case Tap(effect) =>
      (match Invoke(w, effect, v)
       case Ok(_) => Ok(v)
       case Err(e) => Err(e))
    case Val(x) => Ok(x)
    case Invalid(code) => Err(UnknownOpcode(code))
    case Apply(fn, bound) => CallWith(w, fn, if |bound| > 0 then bound + [v] else [v])
  }

  /** `$fn(...$args)`. */
  function CallWith(w: World, fn: Callable, args: seq<Value>): Result<Value, Error>
    decreases fn
  {
    match fn
    case Static(KeyExists) => KeyExistsIn(w, ArgAt(args, 0), ArgAt(args, 1))
    case Static(SetKey) => AssignKey(w, ArgAt(args, 0), ArgAt(args, 1), ArgAt(args, 2))
    case Static(UnsetKey) => UnsetKeyIn(w, ArgAt(args, 0), ArgAt(args, 1))
    case Invokable(f) => Invoke(w, f, ArgAt(args, 0))
    case External(target) => w.call(target, args)
  }

  /** Continue a run with `ops` unless it has already raised. */
  function Continue(w: World, r: Result<Value, Error>, ops: seq<Op>): Result<Value, Error> {
    match r
    case Ok(x) => Run(w, ops, x)
    case Err(e) => Err(e)
  }

  // --- Builders --- //

  /** `new Factory(array())`: the factory that returns its input. */
  function Identity(): (f: Factory)
    ensures forall w, v :: Invoke(w, f, v) == Ok(v)
  {
    Factory([])
  }

  /** `andThen($op, $arg, $extra)`: a new factory with one more op; the receiver is a value and stays as it is. */
  function AndThen(f: Factory, op: Op): Factory {
    Factory(f.ops + [op])
  }

  /** `$f->name(...$args)` through `__call`. */
  function CallMethod(f: Factory, name: string, args: seq<Value>): Factory {
    AndThen(f, Method(name, args))
  }

  /** `$f->name` through `__get`. */
  function GetProperty(f: Factory, name: string): Factory {
    AndThen(f, Property(name))
  }

  /** `$f[$offset]` through `offsetGet`. */
  function OffsetGet(f: Factory, offset: Value): Factory {
    AndThen(f, Key(offset))
  }

  /** `$f->offsetExists($offset)`: a new factory that then tests whether the key exists. */
  function OffsetExists(f: Factory, offset: Value): Factory {
    AndThen(f, Apply(Static(KeyExists), [offset]))
  }

  /** `$f->offsetSet($offset, $value)`: a new factory that then stores the value under the key. */
  function OffsetSet(f: Factory, offset: Value, value: Value): Factory {
    AndThen(f, Apply(Static(SetKey), [offset, value]))
  }

  /** `$f->offsetUnset($offset)`: a new factory that then drops the key. */
  function OffsetUnset(f: Factory, offset: Value): Factory {
    AndThen(f, Apply(Static(UnsetKey), [offset]))
  }

  // --- Laws of the interpreter --- //

  /**
    Invocation is a left-to-right fold: running `p + q` is running `q` on
    whatever `p` produced, and an error in `p` stops the run before `q`.
   */
  lemma {:induction false} RunAppend(w: World, p: seq<Op>, q: seq<Op>, v: Value)
    ensures Run(w, p + q, v) == Continue(w, Run(w, p, v), q)
    decreases p
  {
    if p == [] {
      assert p + q == q;
    } else {
      assert (p + q)[0] == p[0];
      assert (p + q)[1..] == p[1..] + q;
      match Step(w, p[0], v)
      case Ok(next) => RunAppend(w, p[1..], q, next);
      case Err(_) =>
    }
  }

  /** A one-op factory does exactly that op's step. */
  lemma InvokeOne(w: World, op: Op, v: Value)
    ensures Invoke(w, Factory([op]), v) == Step(w, op, v)
  {
    assert [op][1..] == [];
    match Step(w, op, v)
    case Ok(next) => assert Run(w, [], next) == Ok(next);
    case Err(_) =>
  }

  /**
    `andThen` keeps the receiver's ops as a prefix, and the new factory
    behaves as the receiver followed by one more step.
   */
  lemma AndThenRunsLast(w: World, f: Factory, op: Op, v: Value)
    ensures AndThen(f, op).ops[..|f.ops|] == f.ops
    ensures |AndThen(f, op).ops| == |f.ops| + 1
    ensures Invoke(w, AndThen(f, op), v) ==
      match Invoke(w, f, v)
      case Ok(x) => Step(w, op, x)
      case Err(e) => Err(e)
  {
    assert AndThen(f, op).ops[..|f.ops|] == f.ops;
    RunAppend(w, f.ops, [op], v);
    match Invoke(w, f, v)
    case Ok(x) =>
      assert Run(w, [op], x) == Step(w, op, x) by {
        assert [op][1..] == [];
      }
    case Err(_) =>
  }

  /** A VAL step makes the rest of the chain independent of the input. */
  lemma ValIgnoresInput(w: World, x: Value, rest: seq<Op>, v: Value)
    ensures Run(w, [Val(x)] + rest, v) == Run(w, rest, x)
  {
    assert ([Val(x)] + rest)[1..] == rest;
  }

  /**
    A TAP step runs its sub-chain on the current value and passes that same
    value on; only an error raised by the sub-chain is observable.
   */
  lemma TapPassesValueOn(w: World, effect: Factory, rest: seq<Op>, v: Value)
    ensures Invoke(w, effect, v).Ok? ==> Run(w, [Tap(effect)] + rest, v) == Run(w, rest, v)
    ensures Invoke(w, effect, v).Err? ==> Run(w, [Tap(effect)] + rest, v) == Err(Invoke(w, effect, v).error)
  {
    assert ([Tap(effect)] + rest)[1..] == rest;
  }

  /**
    A COND step runs its predicate on the current value, then exactly one
    branch on that same value: the first when the predicate's result is
    truthy, the second otherwise.
   */
  lemma CondRunsOneBranch(w: World, test: Factory, ifTrue: Factory, ifFalse: Factory, rest: seq<Op>, v: Value)
    ensures Invoke(w, test, v).Ok? && Truthy(Invoke(w, test, v).value) ==>
      Run(w, [Cond(test, ifTrue, ifFalse)] + rest, v) == Continue(w, Invoke(w, ifTrue, v), rest)
    ensures Invoke(w, test, v).Ok? && !Truthy(Invoke(w, test, v).value) ==>
      Run(w, [Cond(test, ifTrue, ifFalse)] + rest, v) == Continue(w, Invoke(w, ifFalse, v), rest)
    ensures Invoke(w, test, v).Err? ==>
      Run(w, [Cond(test, ifTrue, ifFalse)] + rest, v) == Err(Invoke(w, test, v).error)
  {
    assert ([Cond(test, ifTrue, ifFalse)] + rest)[1..] == rest;
  }

  /**
    A foreign callable op receives its bound arguments followed by the
    current value; with no bound arguments it receives the current value
    alone.
   */
  lemma ApplyPassesValueLast(w: World, target: Foreign, bound: seq<Value>, v: Value)
    ensures Invoke(w, Factory([Apply(External(target), bound)]), v) == w.call(target, bound + [v])
    ensures bound == [] ==> Invoke(w, Factory([Apply(External(target), bound)]), v) == w.call(target, [v])
  {
    InvokeOne(w, Apply(External(target), bound), v);
    if bound == [] {
      assert bound + [v] == [v];
    }
  }

  /**
    A method op calls the method of an object with exactly the recorded
    arguments (none when recorded without arguments); on anything else it is
    an error.
   */
  lemma MethodCallsWithRecordedArgs(w: World, name: string, args: seq<Value>, v: Value)
    ensures v.Obj? ==> Invoke(w, CallMethod(Identity(), name, args), v) == w.callMethod(v, name, args)
    ensures !v.Obj? ==> Invoke(w, CallMethod(Identity(), name, args), v) == Err(NonObject)
  {
    assert CallMethod(Identity(), name, args) == Factory([Method(name, args)]);
    InvokeOne(w, Method(name, args), v);
  }

  /**
    An integer opcode outside 0..5 raises DomainException and nothing after
    it runs.
   */
  lemma UnknownOpcodeAborts(w: World, op: Op, rest: seq<Op>, v: Value)
    requires Opcode(op).Some? && !(OP_METHOD <= Opcode(op).value <= OP_VAL)
    ensures Run(w, [op] + rest, v) == Err(UnknownOpcode(Opcode(op).value))
  {
  }

  /**
    The interpreter tests the opcode slot for truthiness first: the one falsy
    opcode, 0, is exactly the method call.
   */
  lemma FalsyOpcodeIsMethod(op: Op)
    ensures Opcode(op).Some? ==> (op.Method? <==> !Truthy(Int(Opcode(op).value)))
    ensures Opcode(op).None? <==> op.Apply?
  {
  }

  /**
    Actions run in their apparent order: `fn()->qq(3,4)->foo['bar']` calls
    `qq`, then reads `foo` from the result, then reads its `'bar'` key.
   */
  lemma ActionsInApparentOrder(w: World, mock: Value, record: Value)
    requires mock.Obj? && record.Obj?
    requires w.callMethod(mock, "qq", [Int(3), Int(4)]) == Ok(record)
    requires w.property(record, "foo") == Ok(Arr([(StrKey("bar"), Int(23))]))
    ensures Invoke(w, OffsetGet(GetProperty(CallMethod(Identity(), "qq", [Int(3), Int(4)]), "foo"), Str("bar")), mock)
      == Ok(Int(23))
  {
    var f := OffsetGet(GetProperty(CallMethod(Identity(), "qq", [Int(3), Int(4)]), "foo"), Str("bar"));
    assert f.ops == [Method("qq", [Int(3), Int(4)]), Property("foo"), Key(Str("bar"))];
    RunAppend(w, [Method("qq", [Int(3), Int(4)])], [Property("foo"), Key(Str("bar"))], mock);
    RunAppend(w, [Property("foo")], [Key(Str("bar"))], record);
  }

  // --- Key ops --- //

  /**
    On a plain array, the set op yields the array with the key mapped to the
    value and every other entry kept.
   */
  lemma OffsetSetOnArray(w: World, offset: Value, x: Value, a: Entries<Value>)
    requires ToKey(offset).Some?
    ensures var r := Invoke(w, OffsetSet(Identity(), offset, x), Arr(a));
      && r.Ok? && r.value.Arr?
      && Lookup(r.value.entries, ToKey(offset).value) == Some(x)
      && forall j :: j != ToKey(offset).value ==> Lookup(r.value.entries, j) == Lookup(a, j)
  {
    assert OffsetSet(Identity(), offset, x) == Factory([Apply(Static(SetKey), [offset, x])]);
    InvokeOne(w, Apply(Static(SetKey), [offset, x]), Arr(a));
  }

  /** On a plain array, the unset op removes exactly that key. */
  lemma OffsetUnsetOnArray(w: World, offset: Value, a: Entries<Value>)
    requires ToKey(offset).Some?
    ensures var r := Invoke(w, OffsetUnset(Identity(), offset), Arr(a));
      && r.Ok? && r.value.Arr?
      && !HasKey(r.value.entries, ToKey(offset).value)
      && forall j :: j != ToKey(offset).value ==> Lookup(r.value.entries, j) == Lookup(a, j)
  {
    assert OffsetUnset(Identity(), offset) == Factory([Apply(Static(UnsetKey), [offset])]);
    InvokeOne(w, Apply(Static(UnsetKey), [offset]), Arr(a));
  }

  /** On a plain array, the exists op is key membership and the get op reads the stored entry. */
  lemma KeyReadsOnArray(w: World, offset: Value, a: Entries<Value>)
    requires offset.Int? || offset.Str?
    ensures Invoke(w, OffsetExists(Identity(), offset), Arr(a)) == Ok(Bool(HasKey(a, ToKey(offset).value)))
    ensures HasKey(a, ToKey(offset).value) ==>
      Invoke(w, OffsetGet(Identity(), offset), Arr(a)) == Ok(Lookup(a, ToKey(offset).value).value)
  {
    assert OffsetExists(Identity(), offset) == Factory([Apply(Static(KeyExists), [offset])]);
    assert OffsetGet(Identity(), offset) == Factory([Key(offset)]);
    InvokeOne(w, Apply(Static(KeyExists), [offset]), Arr(a));
    InvokeOne(w, Key(offset), Arr(a));
  }

  /** Reading back a key just set yields the stored value, and the key then exists. */
  lemma SetThenRead(w: World, offset: Value, x: Value, a: Entries<Value>)
    requires offset.Int? || offset.Str?
    ensures Invoke(w, OffsetGet(OffsetSet(Identity(), offset, x), offset), Arr(a)) == Ok(x)
    ensures Invoke(w, OffsetExists(OffsetSet(Identity(), offset, x), offset), Arr(a)) == Ok(Bool(true))
  {
    var setter := OffsetSet(Identity(), offset, x);
    OffsetSetOnArray(w, offset, x, a);
    var b := Invoke(w, setter, Arr(a)).value;
    AndThenRunsLast(w, setter, Key(offset), Arr(a));
    AndThenRunsLast(w, setter, Apply(Static(KeyExists), [offset]), Arr(a));
    assert Step(w, Apply(Static(KeyExists), [offset]), b) == KeyExistsIn(w, offset, b);
  }

  /** After unsetting a key it no longer exists, and reading it yields null. */
  lemma UnsetThenRead(w: World, offset: Value, a: Entries<Value>)
    requires offset.Int? || offset.Str?
    ensures Invoke(w, OffsetGet(OffsetUnset(Identity(), offset), offset), Arr(a)) == Ok(Null)
    ensures Invoke(w, OffsetExists(OffsetUnset(Identity(), offset), offset), Arr(a)) == Ok(Bool(false))
  {
    var unset := OffsetUnset(Identity(), offset);
    OffsetUnsetOnArray(w, offset, a);
    var b := Invoke(w, unset, Arr(a)).value;
    AndThenRunsLast(w, unset, Key(offset), Arr(a));
    AndThenRunsLast(w, unset, Apply(Static(KeyExists), [offset]), Arr(a));
    assert Step(w, Apply(Static(KeyExists), [offset]), b) == KeyExistsIn(w, offset, b);
  }

  /**
    On an `ArrayAccess` object the set and unset ops evaluate to that same
    object once its `offsetSet`/`offsetUnset` returns, and the get and exists
    ops answer whatever `offsetGet`/`offsetExists` answers.
   */
  lemma KeyOpsOnObject(w: World, o: Value, offset: Value, x: Value)
    requires o.Obj?
    ensures w.offsetSet(o, offset, x).None? ==> Invoke(w, OffsetSet(Identity(), offset, x), o) == Ok(o)
    ensures w.offsetUnset(o, offset).None? ==> Invoke(w, OffsetUnset(Identity(), offset), o) == Ok(o)
    ensures Invoke(w, OffsetGet(Identity(), offset), o) == w.offsetGet(o, offset)
    ensures Invoke(w, OffsetExists(Identity(), offset), o) == w.offsetExists(o, offset)
  {
    assert OffsetSet(Identity(), offset, x) == Factory([Apply(Static(SetKey), [offset, x])]);
    assert OffsetUnset(Identity(), offset) == Factory([Apply(Static(UnsetKey), [offset])]);
    assert OffsetExists(Identity(), offset) == Factory([Apply(Static(KeyExists), [offset])]);
    assert OffsetGet(Identity(), offset) == Factory([Key(offset)]);
    InvokeOne(w, Apply(Static(SetKey), [offset, x]), o);
    InvokeOne(w, Apply(Static(UnsetKey), [offset]), o);
    InvokeOne(w, Apply(Static(KeyExists), [offset]), o);
    InvokeOne(w, Key(offset), o);
  }

  // --- Where errors come from --- //

  /** The errors the interpreter raises by itself. */
  predicate InterpreterError(e: Error) {
    e.UnknownOpcode? || e == NonObject || e == StringOffset
  }

  /** Nothing the world does raises `e`. */
  ghost predicate WorldNeverRaises(w: World, e: Error) {
    && (forall x, n, a :: w.callMethod(x, n, a) != Err(e))
    && (forall x, n :: w.property(x, n) != Err(e))
    && (forall x, o :: w.offsetGet(x, o) != Err(e))
    && (forall x, o :: w.offsetExists(x, o) != Err(e))
    && (forall x, o, y :: w.offsetSet(x, o, y) != Some(e))
    && (forall x, o :: w.offsetUnset(x, o) != Some(e))
    && (forall t, a :: w.call(t, a) != Err(e))
  }

  /**
    Apart from an unknown opcode, a member call on a non-object and a string
    offset write, every error an invocation raises was raised by the world.
    In particular a factory never raises BadFunctionCallException when
    invoked: that error belongs to building.
   */
  lemma {:induction false} InvokeRaisesOnlyInterpreterOrWorldErrors(w: World, f: Factory, v: Value, e: Error)
    requires !InterpreterError(e) && WorldNeverRaises(w, e)
    ensures Invoke(w, f, v) != Err(e)
    decreases f, 1
  {
    RunAvoids(w, f.ops, v, e);
  }

  lemma {:induction false} RunAvoids(w: World, ops: seq<Op>, v: Value, e: Error)
    requires !InterpreterError(e) && WorldNeverRaises(w, e)
    ensures Run(w, ops, v) != Err(e)
    decreases ops
  {
    if ops != [] {
      StepAvoids(w, ops[0], v, e);
      match Step(w, ops[0], v)
      case Ok(next) => RunAvoids(w, ops[1..], next, e);
      case Err(_) =>
    }
  }

  lemma {:induction false} StepAvoids(w: World, op: Op, v: Value, e: Error)
    requires !InterpreterError(e) && WorldNeverRaises(w, e)
    ensures Step(w, op, v) != Err(e)
    decreases op
  {
    match op
    case Cond(test, ifTrue, ifFalse) =>
      InvokeRaisesOnlyInterpreterOrWorldErrors(w, test, v, e);
      InvokeRaisesOnlyInterpreterOrWorldErrors(w, ifTrue, v, e);
      InvokeRaisesOnlyInterpreterOrWorldErrors(w, ifFalse, v, e);
    case Tap(effect) =>
      InvokeRaisesOnlyInterpreterOrWorldErrors(w, effect, v, e);
    case Apply(fn, bound) =>
      CallAvoids(w, fn, if |bound| > 0 then bound + [v] else [v], e);
    case _ =>
  }

  lemma {:induction false} CallAvoids(w: World, fn: Callable, args: seq<Value>, e: Error)
    requires !InterpreterError(e) && WorldNeverRaises(w, e)
    ensures CallWith(w, fn, args) != Err(e)
    decreases fn
  {
    match fn
    case Invokable(f) => InvokeRaisesOnlyInterpreterOrWorldErrors(w, f, ArgAt(args, 0), e);
    case _ =>
  }
}
