/** Types shared by several models. */
module Basics {

  datatype Option<T> = None | Some(value: T)

  function Max(a: nat, b: nat): nat { if a < b then b else a }
  function Min(a: nat, b: nat): nat { if a < b then a else b }
  function SaturatingSub(a: nat, b: nat): nat { if a < b then 0 else a - b }

  type Byte = x: int | 0 <= x < 256
  type Bytes = seq<Byte>
}
