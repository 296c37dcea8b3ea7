/**
 * The runtime values of Sources/object/Object.swift: six kinds of object, each with its
 * type tag (`objectType()`) and its printed form (`inspect()`). The environment a function
 * value captures is kept as an opaque reference; nothing reads it.
 */
module Objects {
  import opened Wrappers
  import Ast
  import opened Numerals

  const IntegerTag: string := "INTEGER"
  const BooleanTag: string := "BOOLEAN"
  const NullTag: string := "NULL"
  const ReturnValueTag: string := "RETURN_VALUE"
  const ErrorTag: string := "ERROR"
  const FunctionTag: string := "FUNCTION"

  datatype Object =
    | Integer(intValue: int)
    | Boolean(boolValue: bool)
    | Null
    | ReturnValue(value: Object)
    | Error(message: string)
    | Function(params: seq<Ast.Identifier>, body: Ast.BlockStatement, env: object)

  /** `objectType()`. */
  function ObjectType(o: Object): string {
    match o
    case Integer(_) => IntegerTag
    case Boolean(_) => BooleanTag
    case Null => NullTag
    case ReturnValue(_) => ReturnValueTag
    case Error(_) => ErrorTag
    case Function(_, _, _) => FunctionTag
  }

  /** `inspect()`. */
  function Inspect(o: Object): string {
    match o
    case Integer(v) => IntToString(v)
    case Boolean(b) => if b then "true" else "false"
    case Null => "null"
    case ReturnValue(v) => Inspect(v)
    case Error(message) => "ERROR: " + message
    case Function(params, body, _) =>
      "fn(" + Ast.JoinIdentifiers(params) + ") {\n" + Ast.BlockString(body) + "\n}"
  }

  /** The constructor an object was built with. */
  predicate SameKind(a: Object, b: Object) {
    || (a.Integer? && b.Integer?)
    || (a.Boolean? && b.Boolean?)
    || (a.Null? && b.Null?)
    || (a.ReturnValue? && b.ReturnValue?)
    || (a.Error? && b.Error?)
    || (a.Function? && b.Function?)
  }

  /** The six tags are pairwise distinct: comparing tags compares kinds. */
  lemma ObjectTypeIdentifiesKind(a: Object, b: Object)
    ensures ObjectType(a) == ObjectType(b) <==> SameKind(a, b)
  {
    var ta, tb := ObjectType(a), ObjectType(b);
    if !SameKind(a, b) {
      assert |ta| != |tb| || ta[0] != tb[0];
    }
  }

  /** In particular the error tag belongs to errors alone. */
  lemma ErrorTagOnlyForErrors(o: Object)
    ensures ObjectType(o) == ErrorTag <==> o.Error?
  {
    ObjectTypeIdentifiesKind(o, Error(""));
  }

  /** An integer prints as decimal text that reads back as the same `Int`, signed when negative. */
  lemma InspectInteger(v: int)
    requires InInt(v)
    ensures ObjectType(Integer(v)) == "INTEGER"
    ensures ParseInt(Inspect(Integer(v))) == Some(v)
    ensures Inspect(Integer(v))[0] == '-' <==> v < 0
  {
    ParseIntOfIntToString(v);
  }

  /** A boolean prints as `true` or `false`, and the two print differently. */
  lemma InspectBoolean(a: bool, b: bool)
    ensures ObjectType(Boolean(a)) == "BOOLEAN"
    ensures Inspect(Boolean(a)) == (if a then "true" else "false")
    ensures Inspect(Boolean(a)) == Inspect(Boolean(b)) <==> a == b
  {
    if a != b {
      assert Inspect(Boolean(a))[0] != Inspect(Boolean(b))[0];
    }
  }

  lemma InspectNull()
    ensures ObjectType(Null) == "NULL" && Inspect(Null) == "null"
  {
  }

  /** Wrapping `o` in `n` return values. */
  function Wrapped(o: Object, n: nat): (r: Object)
    ensures n > 0 ==> r.ReturnValue?
  {
    if n == 0 then o else ReturnValue(Wrapped(o, n - 1))
  }

  /** A return value prints exactly as what it wraps, however deeply wrapped. */
  lemma {:induction false} InspectReturnValue(o: Object, n: nat)
    ensures Inspect(Wrapped(o, n)) == Inspect(o)
  {
    if n > 0 {
      InspectReturnValue(o, n - 1);
    }
  }

  /** An error prints as `ERROR: ` followed by its message, which can be read back off. */
  lemma InspectError(message: string)
    ensures ObjectType(Error(message)) == "ERROR"
    ensures var s := Inspect(Error(message)); s[..7] == "ERROR: " && s[7..] == message
  {
  }

  /** A function prints its parameters joined by `, ` and its body between braces on their own lines. */
  lemma InspectFunction(params: seq<Ast.Identifier>, body: Ast.BlockStatement, env: object)
    ensures ObjectType(Function(params, body, env)) == "FUNCTION"
    ensures var s := Inspect(Function(params, body, env));
            var p := Ast.JoinIdentifiers(params);
            s[..3] == "fn(" && s[3..3 + |p|] == p
            && s[3 + |p|..6 + |p|] == ") {" && s[6 + |p|..|s| - 2] == "\n" + Ast.BlockString(body)
            && s[|s| - 2..] == "\n}"
  {
  }
}
