/** The text form of artifact hashes. */
module Hashing {
  const PREFIX := "sha256:"

  predicate Prefixed(hash: string) {
    PREFIX <= hash
  }

  /** A missing hash stays missing. */
  function EnsurePrefix(hash: string): string {
    if hash == "" || Prefixed(hash) then hash else PREFIX + hash
  }
}
