/** JSON values as the library sees them: immutable trees behind copy-on-write handles. */
module JsonValue {

  datatype Option<+T> = None | Some(value: T) {
    function GetOr(default: T): T {
      if Some? then value else default
    }
  }

  datatype Result<+T, +E> = Ok(value: T) | Err(error: E)

  /** One UTF-16 code unit (Qt's QChar), surrogates included. */
  type CodeUnit = u: nat | u < 0x1_0000

  type Text = seq<CodeUnit>

  /** The code units of an ASCII text. */
  function Ascii(s: string): Text
    requires forall i :: 0 <= i < |s| ==> s[i] as int < 0x80
  {
    seq(|s|, i requires 0 <= i < |s| => s[i] as int)
  }

  /** The two storages a QJsonValue has for a number. */
  datatype Number = Integer(i: int) | Double(d: real) {
    function ToDouble(): real {
      match this
      case Integer(i) => i as real
      case Double(d) => d
    }
  }

  /**
   * A defined QJsonValue. `Undefined`, which is never stored in a document, is
   * `None` in the `Option<Json>` parameters and results that may carry it.
   */
  datatype Json =
    | Null
    | Bool(b: bool)
    | Num(n: Number)
    | Str(s: Text)
    | Arr(items: seq<Json>)
    | Obj(members: map<Text, Json>)
  {
    predicate IsContainer() {
      Arr? || Obj?
    }
  }
}
