/**
 Types shared by every part of the model: optional values, the status codes the
 modelled functions return, and 32-bit unsigned arithmetic.
 */
module Basics {

  datatype Option<+T> = None | Some(value: T)

  /** The OpcUa_StatusCode values that the modelled functions return. */
  datatype Status =
    | Good
    | GoodNonCriticalTimeout
    | BadInvalidArgument
    | BadNotFound
    | BadEndOfStream
    | BadInvalidState
    | BadSecureChannelIdInvalid
    | BadSecureChannelTokenUnknown
    | BadSequenceNumberInvalid
    | BadTimeout
    | BadOperationAbandoned
    | BadDisconnect

  const TWO_TO_THE_32: int := 0x1_0000_0000
  const UINT32_MAX: int := 0xFFFF_FFFF

  type UInt32 = x: int | 0 <= x < TWO_TO_THE_32

  type Byte = bv8

  /** Unsigned 32-bit increment, wrapping at the top. */
  function Succ32(x: UInt32): UInt32 {
    (x + 1) % TWO_TO_THE_32
  }

  /** Unsigned 32-bit subtraction, wrapping below zero. */
  function Sub32(x: UInt32, y: UInt32): UInt32 {
    (x - y) % TWO_TO_THE_32
  }

  lemma ConcatAssoc<X>(a: seq<X>, b: seq<X>, c: seq<X>)
    ensures (a + b) + c == a + (b + c)
  {
  }
}
