/** Fixed-width integers, bytes and the optional value shared by the other modules. */
module Common {

  /** The exclusive upper bound of C++ `uint64_t`. */
  const UINT64_LIMIT: int := 0x1_0000_0000_0000_0000

  /** The largest `uint64_t`, `UINT64_MAX`. */
  const UINT64_MAX: int := UINT64_LIMIT - 1

  type uint64 = x: int | 0 <= x < 0x1_0000_0000_0000_0000

  newtype byte = x: int | 0 <= x < 256

  /** `crypto::secret_key`: an opaque 32-byte scalar. */
  type SecretKey = s: seq<byte> | |s| == 32 witness seq(32, _ => 0 as byte)

  /** A value or nothing; `None` stands for `nullptr`, which `getKey` returns for an absent handle (`keyjar.cpp:33`). */
  datatype Option<T> = None | Some(value: T)
}
