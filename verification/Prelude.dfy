/** Result and option types shared by every module, and the machine-integer bounds the source relies on. */
module Prelude {
  datatype Option<+T> = None | Some(value: T)

  datatype Result<+T, +E> = Ok(value: T) | Err(error: E)

  /** The first value an unsigned 64-bit integer cannot hold. */
  const U64_LIMIT: nat := 0x1_0000_0000_0000_0000

  /** The largest value an SQLite integer column can hold. */
  const SQL_MAX: nat := 0x7fff_ffff_ffff_ffff

  function Min(a: int, b: int): int {
    if a <= b then a else b
  }

  /** The entry of a table, or nothing. */
  function Lookup<K, V>(table: map<K, V>, key: K): Option<V> {
    if key in table then Some(table[key]) else None
  }
}
