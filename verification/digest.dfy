/**
 * The digest used by both the Merkle reducer and the ledger: SHA-256 of the
 * bytes of a string, rendered as lower-case hexadecimal. The hash function
 * itself is not modelled; every operation takes it as a parameter of type
 * HashFn, so each property holds for any such function.
 */
module Digest {

  /** Any string-to-fingerprint function: the stand-in for SHA-256 plus hex encoding. */
  type HashFn = string -> string

  /** encodeSHA256: the fingerprint of a string. */
  function EncodeSHA256(hash: HashFn, text: string): string
  {
    hash(text)
  }
}
