/** The contents of the files that the installer reads and writes. */
module FileBytes {
  newtype Byte = x: int | 0 <= x < 256
  type Bytes = seq<Byte>
}
