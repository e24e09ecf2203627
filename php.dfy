/**
 * The slice of PHP's value model that the services rely on: dynamically typed values,
 * `empty()` / truthiness, `is_string()`, the coercion PHP applies to a value returned
 * from a function declared to return `string`, and the exceptions the services throw.
 */
module Php {
  import opened Wrappers

  /** A PHP value. Floats and objects are not part of this model. */
  datatype Value = Null | Bool(b: bool) | Int(i: int) | Str(s: string) | Arr(items: seq<Value>)

  /** A string is falsy in PHP exactly when it is "" or "0". */
  predicate StringTruthy(s: string) {
    s != "" && s != "0"
  }

  /** PHP's `empty($v)`, which for these types is the negation of `(bool)$v`. */
  predicate IsEmpty(v: Value)
    ensures IsEmpty(v) <==>
      v == Null || v == Bool(false) || v == Int(0) || v == Str("") || v == Str("0") || v == Arr([])
  {
    match v
    case Null => true
    case Bool(b) => !b
    case Int(i) => i == 0
    case Str(s) => !StringTruthy(s)
    case Arr(items) => items == []
  }

  predicate Truthy(v: Value) {
    !IsEmpty(v)
  }

  /** PHP's `is_string($v)`. */
  predicate IsString(v: Value) {
    v.Str?
  }

  function DigitChar(d: nat): char
    requires d < 10
  {
    "0123456789"[d]
  }

  function NatToString(n: nat): (s: string)
    ensures |s| > 0
    decreases n
  {
    if n < 10 then [DigitChar(n)] else NatToString(n / 10) + [DigitChar(n % 10)]
  }

  /** The decimal text PHP gives an integer. */
  function IntToString(i: int): string {
    if i < 0 then "-" + NatToString(-i) else NatToString(i)
  }

  /**
   * The coercion PHP (without strict types) applies when a function declared to return
   * `string` returns `v`: scalars become their string form; `null` and arrays raise a
   * `TypeError` (None here).
   */
  function CoerceToString(v: Value): (r: Option<string>)
    ensures r.None? <==> v.Null? || v.Arr?
    ensures v.Str? ==> r == Some(v.s)
    ensures v == Bool(false) ==> r == Some("")
  {
    match v
    case Null => None
    case Bool(b) => Some(if b then "1" else "")
    case Int(i) => Some(IntToString(i))
    case Str(s) => Some(s)
    case Arr(_) => None
  }

  /** The exceptions (and the one PHP `Error`) that cross the services' boundaries. */
  datatype Error =
    | InvalidArgument(message: string)            // \InvalidArgumentException
    | Generic(message: string)                    // \Exception
    | NotFound(message: string)                   // App\Exception\NotFoundException
    | BlobStorage(message: string, cause: Option<Error>)  // App\Exception\AzureBlobStorageException
    | BlobStorageNotFound(message: string)        // App\Exception\AzureBlobStorageNotFoundException
    | Transport                                   // a Guzzle or Predis transport exception
    | Service                                     // a blob-storage SDK ServiceException
    | ServerReply                                 // a Redis error reply, raised by Predis as ServerException
    | TypeError                                   // \TypeError: an \Error, not an \Exception
  {
    /** True of everything a `catch (Exception $e)` clause catches. */
    predicate IsException() {
      !TypeError?
    }
  }
}
