/**
  The PHP values a factory is invoked on, PHP's conversions from values to
  booleans and to array keys, and the errors an invocation or a build can
  raise. Floats and resources are not modelled.
 */
module Php {
  import opened Wrappers
  import opened PhpArray

  /** A PHP value. Objects are opaque handles: what they do is supplied by a `World`. */
  datatype Value =
    | Null
    | Bool(b: bool)
    | Int(i: int)
    | Str(s: string)
    | Arr(entries: Entries<Value>)
    | Obj(handle: nat)

  /** The exceptions and engine errors the model distinguishes. */
  datatype Error =
    | UnknownOpcode(code: int)   // DomainException "... is not a valid fun\Factory opcode"
    | NotCallable                // BadFunctionCallException "... is not callable"
    | NonObject                  // Error: a member function called on a non-object
    | StringOffset               // Error: writing or unsetting a string offset
    | NoStringConversion         // Error: an object without `__toString` used as a string
    | Raised(tag: nat)           // whatever a foreign callable or an object method throws

  /** PHP's conversion of a value to boolean (`if ($x)`, `?:`). */
  predicate Truthy(v: Value) {
    match v
    case Null => false
    case Bool(b) => b
    case Int(i) => i != 0
    case Str(s) => s != "" && s != "0"
    case Arr(a) => |a| > 0
    case Obj(_) => true
  }

  /**
    The key a value names when used as an array subscript: booleans become 0
    or 1, null becomes the empty string; arrays and objects are illegal
    offsets (PHP warns and the access does nothing).
   */
  function ToKey(v: Value): Option<Key> {
    match v
    case Int(i) => Some(IntKey(i))
    case Str(s) => Some(StrKey(s))
    case Bool(b) => Some(IntKey(if b then 1 else 0))
    case Null => Some(StrKey(""))
    case _ => None
  }

  /** An array key as a value, for instance the key `transform` writes. */
  function KeyValue(k: Key): (v: Value)
    ensures ToKey(v) == Some(k)
    ensures v.Int? || v.Str?
  {
    match k
    case IntKey(i) => Int(i)
    case StrKey(s) => Str(s)
  }
}
