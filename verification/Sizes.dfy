// Sizes in a 64-bit build.
module Sizes {
  const BYTES_PER_WORD := 8
  // A heap block, which is also a page of the dirty-bit checker.
  const HBLKSIZE := 4096
  const WORDS_PER_BLOCK := HBLKSIZE / BYTES_PER_WORD
}
