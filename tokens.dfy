/** The format-neutral token vocabulary exchanged between adapters and a
    document backend (`TokenType`, and what `ObjectWriter` emits). */
module Tokens {
  import opened Types

  /** A floating-point number, kept opaque except when its value is a whole
      number that fits a `long` (the case `getAsDouble() == getAsLong()`). */
  datatype Num = Whole(i: Int64) | NonWhole(id: nat)

  /** The payload of one `item(...)` call. */
  datatype ScalarVal =
    | SStr(s: string)
    | SInt(i: Int32)
    | SLong(l: Int64)
    | SFloat(f: Num)
    | SDouble(d: Num)
    | SBool(b: bool)

  /** One token of the stream. `Comment` is what `comment(s)` emits; readers
      never see it (format backends drop comments when parsing). */
  datatype Token =
    | EnterObject | ExitObject
    | EnterList | ExitList
    | Key(name: string)
    | Scalar(v: ScalarVal)
    | Comment(text: string)

  /** `TokenType`: the classification `peek()` returns. */
  datatype TokenType =
    | ENTER_OBJECT | EXIT_OBJECT
    | ENTER_LIST | EXIT_LIST
    | KEY
    | STRING | INT | LONG | FLOAT | DOUBLE | BOOLEAN

  function ScalarKind(v: ScalarVal): (k: TokenType)
    ensures k in {STRING, INT, LONG, FLOAT, DOUBLE, BOOLEAN}
  {
    match v
    case SStr(_) => STRING
    case SInt(_) => INT
    case SLong(_) => LONG
    case SFloat(_) => FLOAT
    case SDouble(_) => DOUBLE
    case SBool(_) => BOOLEAN
  }

  /** The kind of a readable (non-comment) token. */
  function KindOf(t: Token): (k: TokenType)
    requires !t.Comment?
    ensures (k == ENTER_OBJECT) == (t == EnterObject)
    ensures (k == EXIT_OBJECT) == (t == ExitObject)
    ensures (k == ENTER_LIST) == (t == EnterList)
    ensures (k == EXIT_LIST) == (t == ExitList)
    ensures (k == KEY) == t.Key?
    ensures t.Scalar? ==> k == ScalarKind(t.v)
  {
    match t
    case EnterObject => ENTER_OBJECT
    case ExitObject => EXIT_OBJECT
    case EnterList => ENTER_LIST
    case ExitList => EXIT_LIST
    case Key(_) => KEY
    case Scalar(v) => ScalarKind(v)
  }
}
