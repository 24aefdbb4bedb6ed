/**
  The vocabulary of the config package: the shape of the target struct, the values its
  fields hold, and the errors a load reports.
*/
module ConfigTypes {
  import opened Options

  datatype Type =
    | Str | Bool | Int(bits: nat) | Uint(bits: nat) | Float(bits: nat) | Duration | StrList(named: bool)
    | Time | Struct(fields: seq<Field>) | Other

  // The elements of a list may be of a named string type (`named`). One struct field with its `env` and `default` tags.
  datatype Field = Field(
    name: string, exported: bool, anonymous: bool, env: Option<string>, def: Option<string>, typ: Type)

  // What a field holds. A float is its bit pattern, so that -0 is told apart from 0.
  datatype Value =
    | VStr(s: string) | VBool(b: bool) | VInt(n: int) | VUint(u: int) | VFloat(pattern: nat)
    | VDuration(ns: int) | VList(items: seq<string>) | VNilList

  function Zero(t: Type): Value {
    match t
    case Bool => VBool(false)
    case Int(_) => VInt(0)
    case Uint(_) => VUint(0)
    case Float(_) => VFloat(0)
    case Duration => VDuration(0)
    case StrList(_) => VNilList
    case _ => VStr("")
  }

  datatype Kind =
    | MissingRequired | ParseFailed | UnsupportedType | FileRead | FileDecode | UnknownExtension
    | UnknownField | Validation

  datatype FieldError = FieldError(field: string, key: string, kind: Kind, cause: Option<Error>)

  // An error as errors.Is and errors.As see it: a tree of wraps and joins.
  datatype Error =
    | Fail(err: FieldError)
    | Wrapped(inner: Option<Error>)
    | Joined(parts: seq<Error>)
    | Foreign(code: string)
}
