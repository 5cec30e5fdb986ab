/** The framework collaborators of the unpackers, as values: the lookup
    table `(board, channel) -> (mod, sipm)` and the SiPMRaw category, a
    collection of records addressed by `(mod, sipm)`. */
module Category {
  import opened Bytes

  type Address = (nat, nat)

  /** The lookup table, from `(board, channel)` to `(mod, sipm)`. */
  type Lookup = map<(nat, nat), Address>

  /** The table has an entry for every channel of board 0, the only board
      the unpackers ask about. */
  predicate CoversBoardZero(lookup: Lookup) {
    forall ch: byte :: (0, ch) in lookup
  }

  /** A SiPMRaw record. ToA and ToT are kept as exact reals. */
  datatype SiPMRaw = SiPMRaw(board: int, channel: int, sipm: int, toa: real, tot: real, lgpha: int, hgpha: int)

  /** The category's contents: the record at each address created so far. */
  type Records = map<Address, SiPMRaw>
}
