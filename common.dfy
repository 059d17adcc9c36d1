/** Values, errors and the failure-compatible wrappers shared by the model of
    trod's model core (trod/model_/core.py). */
module Common {

  datatype Option<+T> = None | Some(value: T)

  datatype Result<+T, +E> = Ok(value: T) | Err(error: E)

  /** A runtime value stored in a record or returned by the driver.
      `Null` is Python's `None`. */
  datatype Value = Null | Bool(b: bool) | Int(i: int) | Str(s: string)

  /** Python truthiness of a value: `None`, `False`, `0` and `""` are falsy. */
  predicate Truthy(v: Value)
  {
    match v
    case Null => false
    case Bool(b) => b
    case Int(i) => i != 0
    case Str(s) => s != ""
  }

  /** The exceptions the core raises, one constructor per exception class
      (`InvalidFieldType("")` is the one raised without a message). */
  datatype Error =
    | DuplicateFieldNameError(name: string)
    | DuplicatePKError(name: string)
    | InvalidFieldType(name: string)
    | NoPKError(table: string)
    | TypeError
    | ModelSetAttrError(cls: string)
    | AttributeError(key: string)
    | ModifyAutoPkError
    | ValueError
    | RuntimeError
    | RecursionError
}
