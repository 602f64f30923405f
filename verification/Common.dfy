/** Types and limits shared by every module (src/direct_transfer/utils/config.py). */
module Common {
  datatype Option<+T> = None | Some(value: T)

  datatype Result<+T, +E> = Ok(value: T) | Err(error: E)

  newtype Byte = x: int | 0 <= x < 256
  type Bytes = seq<Byte>

  const CHUNK_SIZE: nat := 65536
  const HEADER_MAX_SIZE: nat := 4096
  const MAX_FILES_PER_SESSION: nat := 1024
  const MAX_FILE_SIZE: nat := 100 * 1024 * 1024 * 1024
  const MAX_SESSION_SIZE: nat := 1024 * 1024 * 1024 * 1024
  const MAX_RETRIES: nat := 3
  const PROTOCOL_VERSION: nat := 3
  const NONCE_SIZE: nat := 12
  const TAG_SIZE: nat := 16

  function Min(a: int, b: int): int { if a <= b then a else b }

  function Max(a: int, b: int): int { if a >= b then a else b }

  lemma SubsetSize<T>(small: set<T>, big: set<T>)
    requires small <= big
    ensures |small| <= |big|
  {
    assert big == small + (big - small);
  }

  lemma SubsetOfSameSize<T>(small: set<T>, big: set<T>)
    requires small <= big && |big| <= |small|
    ensures small == big
  {
    assert big == small + (big - small);
    assert |big - small| == 0;
  }
}
