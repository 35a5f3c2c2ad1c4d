/**
  Status-code interpretation of the CBF wrapper.

  Every libcbf call returns an integer status. The wrapper reduces each
  status to exactly one outcome: success, an expected Python exception
  (StopIteration, KeyError, IndexError, ValueError) or a RuntimeError
  carrying the status. Which status is "expected" depends on the call.
*/
module Status {

  // Error bits of libcbf, as the wrapper's Errors class lists them.
  const CBF_ARGUMENT: int := 0x0000_0004
  const CBF_ASCII: int := 0x0000_0008
  const CBF_BINARY: int := 0x0000_0010
  const CBF_NOTFOUND: int := 0x0000_4000

  /**
    The Python exceptions the wrapper raises, including the two that ctypes
    raises when handed an argument it cannot convert.
  */
  datatype Error =
    | RuntimeError(code: int)
    | StopIteration
    | KeyError
    | IndexError(index: int)
    | ValueError(message: string)
    | TypeError
    | ArgumentError

  datatype Option<+T> = None | Some(value: T)

  /** A wrapper call either returns a value or raises. */
  datatype Result<+T> = Success(value: T) | Failure(error: Error)

  /** A RuntimeError raised for a status, the wrapper's catch-all fault. */
  predicate IsFault(e: Error, ret: int) {
    e == RuntimeError(ret)
  }

  /** `_check`: any non-zero status is a fault. */
  function Check(ret: int): (r: Result<()>)
    ensures r.Success? <==> ret == 0
    ensures r.Failure? ==> IsFault(r.error, ret)
  {
    if ret != 0 then Failure(RuntimeError(ret)) else Success(())
  }

  /** `_get_str`: a null C string read with status 0 is the empty string. */
  function GetStr(ret: int, val: Option<string>): (r: Result<string>)
    ensures ret != 0 <==> r.Failure?
    ensures r.Failure? ==> IsFault(r.error, ret)
    ensures ret == 0 && val.None? ==> r == Success("")
    ensures ret == 0 && val.Some? ==> r == Success(val.value)
  {
    if ret != 0 then Failure(RuntimeError(ret))
    else if val.None? then Success("")
    else Success(val.value)
  }

  /** `_get_int`: the integer is returned only with status 0. */
  function GetInt(ret: int, val: int): (r: Result<int>)
    ensures r.Success? <==> ret == 0
    ensures r.Success? ==> r.value == val
    ensures r.Failure? ==> IsFault(r.error, ret)
  {
    if ret != 0 then Failure(RuntimeError(ret)) else Success(val)
  }

  /** `_next`: CBF_NOTFOUND ends an iteration. */
  function Next(ret: int): (r: Result<()>)
    ensures r.Success? <==> ret == 0
    ensures r == Failure(StopIteration) <==> ret == CBF_NOTFOUND
    ensures r.Failure? && r.error != StopIteration ==> IsFault(r.error, ret)
  {
    if ret == CBF_NOTFOUND then Failure(StopIteration)
    else if ret != 0 then Failure(RuntimeError(ret))
    else Success(())
  }

  /** `_find`: CBF_NOTFOUND is a missing key. */
  function Find(ret: int): (r: Result<()>)
    ensures r.Success? <==> ret == 0
    ensures r == Failure(KeyError) <==> ret == CBF_NOTFOUND
    ensures r.Failure? && r.error != KeyError ==> IsFault(r.error, ret)
  {
    if ret == CBF_NOTFOUND then Failure(KeyError)
    else if ret != 0 then Failure(RuntimeError(ret))
    else Success(())
  }

  /** `_select`: CBF_NOTFOUND is a bad index; the error carries the index as given. */
  function Select(ret: int, index: int): (r: Result<()>)
    ensures r.Success? <==> ret == 0
    ensures r == Failure(IndexError(index)) <==> ret == CBF_NOTFOUND
    ensures r.Failure? && r.error != IndexError(index) ==> IsFault(r.error, ret)
  {
    if ret == CBF_NOTFOUND then Failure(IndexError(index))
    else if ret != 0 then Failure(RuntimeError(ret))
    else Success(())
  }

  /** `get_value`: CBF_BINARY means the cell holds an array, not text. */
  function GetValue(ret: int, val: Option<string>): (r: Result<Option<string>>)
    ensures r.Success? <==> ret == 0
    ensures r.Success? ==> r.value == val
    ensures r.Failure? && r.error.ValueError? <==> ret == CBF_BINARY
    ensures r.Failure? && !r.error.ValueError? ==> IsFault(r.error, ret)
  {
    if ret == CBF_BINARY then Failure(ValueError("Expecting a non-binary value"))
    else if ret != 0 then Failure(RuntimeError(ret))
    else Success(val)
  }

  /**
    The three cursor helpers differ only in the exception they raise for
    CBF_NOTFOUND: on every other status they agree with `_check`.
  */
  lemma CursorHelpersAgreeOffNotFound(ret: int, index: int)
    requires ret != CBF_NOTFOUND
    ensures Next(ret) == Find(ret) == Select(ret, index) == Check(ret)
  {
  }

  /**
    Each cursor helper classifies every status into exactly one of
    success, its expected signal, or a fault.
  */
  lemma CursorHelpersTotal(ret: int, index: int)
    ensures Next(ret) in {Success(()), Failure(StopIteration), Failure(RuntimeError(ret))}
    ensures Find(ret) in {Success(()), Failure(KeyError), Failure(RuntimeError(ret))}
    ensures Select(ret, index) in {Success(()), Failure(IndexError(index)), Failure(RuntimeError(ret))}
  {
  }

  /** CBF_BINARY is an ordinary fault for the cursor helpers, unlike for `get_value`. */
  lemma CursorHelpersTreatBinaryAsFault(index: int)
    ensures Next(CBF_BINARY) == Failure(RuntimeError(CBF_BINARY))
    ensures Find(CBF_BINARY) == Failure(RuntimeError(CBF_BINARY))
    ensures Select(CBF_BINARY, index) == Failure(RuntimeError(CBF_BINARY))
  {
  }

  /** `get_value` makes a ValueError of CBF_BINARY only: CBF_NOTFOUND is a fault there. */
  lemma GetValueStatusesAreCallSpecific(val: Option<string>)
    ensures GetValue(CBF_BINARY, val) == Failure(ValueError("Expecting a non-binary value"))
    ensures GetValue(CBF_NOTFOUND, val) == Failure(RuntimeError(CBF_NOTFOUND))
  {
  }

  /** `_check`, used by the rewinds, has no expected status: CBF_NOTFOUND is a fault. */
  lemma CheckTreatsNotFoundAsFault()
    ensures Check(CBF_NOTFOUND) == Failure(RuntimeError(CBF_NOTFOUND))
  {
  }
}
