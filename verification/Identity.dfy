/** Identifiers as they are printed and derived (crates/server/src/identity.rs). */
module Identity {
  /** Sixteen bytes in hexadecimal. */
  type PrintedId = s: string | |s| == 32 witness seq(32, _ => '0')

  /** An id derived by hashing a text; hashing is taken to be free of collisions, so the text is the id. */
  datatype DerivedId = DerivedId(text: string)
}
