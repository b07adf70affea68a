/** What a seek means (gio/gseekable.c), for the buffered streams on both sides. */
module Seekable {
  datatype SeekType = SeekSet | SeekCur | SeekEnd

  function Min(a: nat, b: nat): nat { if a < b then a else b }

  function Max(a: int, b: int): int { if a < b then b else a }

  /** Where a seek leads to, which is nowhere before the start. */
  function SeekTarget(size: nat, off: nat, offset: int, whence: SeekType): int
  {
    match whence
    case SeekSet => offset
    case SeekCur => off + offset
    case SeekEnd => size + offset
  }
}
