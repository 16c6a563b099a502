/** The values an OSC message carries once the transport has decoded it from
    the wire, and the two failure-compatible wrappers the rest of the model
    returns instead of Go's `(value, err)` pairs. */
module OscTypes {

  datatype Option<+T> = None | Some(value: T)

  datatype Result<+R, +E> = Ok(value: R) | Err(error: E)

  const Int32Min: int := -0x8000_0000
  const Int32Max: int := 0x7FFF_FFFF
  const Int64Min: int := -0x8000_0000_0000_0000
  const Int64Max: int := 0x7FFF_FFFF_FFFF_FFFF

  /** Go's `int32` and `int64`. Go's `int` is taken to be 64 bits wide. */
  type Int32 = x: int | Int32Min <= x <= Int32Max
  type Int64 = x: int | Int64Min <= x <= Int64Max

  /** The bit pattern of a 32-bit float; its numeric meaning is not modelled. */
  type Float32Bits = bv32

  /** One typed OSC argument. `Other` stands for every type the handler
      never accepts (blob, boolean, nil, time tag, ...). */
  datatype Arg =
    | Int32Arg(i32: Int32)
    | Int64Arg(i64: Int64)
    | Float32Arg(bits: Float32Bits)
    | StrArg(s: string)
    | Other

  /** An OSC message: an address and its positional arguments. */
  datatype Message = Message(address: string, args: seq<Arg>)
}
