/**
  Value and array dispatch of the CBF wrapper: which reader `get` calls
  for a type tag, which element type `get_binary` materialises, and when
  the array readers accept what the codec returned.
*/
module Dispatch {
  import opened Status
  import Shape

  /** The three readers `get` can hand a cell to. */
  datatype Reader = NoValue | BinaryReader | TextReader

  /** `get`: an empty tag is a missing value, 'bnry' an array, anything else text. */
  function ReaderFor(tag: string): (rd: Reader)
    ensures rd == NoValue <==> tag == ""
    ensures rd == BinaryReader <==> tag == "bnry"
    ensures rd == TextReader <==> tag != "" && tag != "bnry"
  {
    if tag == "" then NoValue
    else if tag == "bnry" then BinaryReader
    else TextReader
  }

  /** Element types the wrapper allocates: 4-byte integers or 8-byte reals. */
  datatype ElemKind = UInt32 | Int32 | Float64

  /**
    `get_binary`: the branch is chosen by the C int flags, whose truth is taken as
    Python does (non-zero is true), unsigned first, then signed, then real.
  */
  function ElementKind(elunsigned: int, elsigned: int): (kind: ElemKind)
    ensures kind == UInt32 <==> elunsigned != 0
    ensures kind == Int32 <==> elunsigned == 0 && elsigned != 0
    ensures kind == Float64 <==> elunsigned == 0 && elsigned == 0
  {
    if elunsigned != 0 then UInt32
    else if elsigned != 0 then Int32
    else Float64
  }

  /** A decoded array: the element values are the codec's and are not modelled. */
  datatype NdArray = NdArray(kind: ElemKind, shape: seq<nat>)

  /**
    `get_integerarray` / `get_realarray`: the pre-allocated array of the
    requested shape is returned only if the codec reports status 0 AND
    read exactly `prod(shape)` elements; otherwise RuntimeError(status),
    whose status may be 0 on a short read.
  */
  function AcceptRead(kind: ElemKind, shape: seq<nat>, ret: int, elread: nat): (r: Result<NdArray>)
    ensures r.Success? <==> ret == 0 && elread == Shape.Product(shape)
    ensures r.Success? ==> r.value == NdArray(kind, shape)
    ensures r.Failure? ==> IsFault(r.error, ret)
  {
    if ret != 0 || elread != Shape.Product(shape) then Failure(RuntimeError(ret))
    else Success(NdArray(kind, shape))
  }

  /** A short read is rejected even though the codec reported success. */
  lemma ShortReadRejected(kind: ElemKind, shape: seq<nat>, elread: nat)
    requires elread < Shape.Product(shape)
    ensures AcceptRead(kind, shape, 0, elread) == Failure(RuntimeError(0))
  {
  }

  /** Exactly one branch of `get_binary` runs, and it depends on the two flags only through their truth. */
  lemma ElementKindByTruth(u1: int, s1: int, u2: int, s2: int)
    requires (u1 != 0 <==> u2 != 0) && (s1 != 0 <==> s2 != 0)
    ensures ElementKind(u1, s1) == ElementKind(u2, s2)
  {
  }

  /** The unsigned flag wins over the signed one. */
  lemma UnsignedHasPriority(elunsigned: int, elsigned: int)
    requires elunsigned != 0
    ensures ElementKind(elunsigned, elsigned) == UInt32
  {
  }
}
