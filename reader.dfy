/**
 * The database reader the service is built on, seen only through the three
 * operations it uses: the enumeration of every network with the offset of its
 * data record, decoding the record at an offset, and resolving an address to
 * an offset. The trie walk and the data-section decoder are not modelled; the
 * reader is a value that fixes what each of these operations answers.
 */
module MaxMindReader {
  import opened Wrappers

  /** A data-section offset: a Go `uintptr`, 64 bits wide. */
  newtype Offset = x: int | 0 <= x < 0x1_0000_0000_0000_0000

  /** The sentinel `LookupOffset` returns for an address no network covers (`^uintptr(0)`). */
  const NotFound: Offset := 0xFFFF_FFFF_FFFF_FFFF

  /** A parsed address (`net.IP`, a byte slice of length 4 or 16). */
  type IP = seq<bv8>

  /** An error reported by the reader (an opened file that cannot be read, a corrupt record, ...). */
  datatype DbError = DbError(message: string)

  /**
   * An opened database.
   * - `networks`: what `NetworkOffset` answers at each step of the `Networks()` iterator, in
   *   trie-walk order (the network itself is discarded by the service, so only the offset is kept);
   * - `networksErr`: what the iterator's `Err()` reports once `Next()` returns false;
   * - `decode`: `Decode(offset, &record)`, deterministic for one opened file;
   * - `lookupOffset`: `LookupOffset(ip)`, which answers `NotFound` for an uncovered address.
   */
  datatype Reader<R> = Reader(
    networks: seq<Result<Offset, DbError>>,
    networksErr: Option<DbError>,
    decode: Offset -> Result<R, DbError>,
    lookupOffset: IP -> Result<Offset, DbError>)
}
