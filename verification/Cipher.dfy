/** An ideal authenticated cipher: only the key that sealed a text opens it. */
module Cipher {
  import opened Json

  type Key = nat

  /** Two encryptions of one text differ by their nonce. Anything else is a text no key opens. */
  datatype Ciphertext = Sealed(key: Key, nonce: nat, plaintext: string) | Corrupt(text: string)

  function Encrypt(key: Key, nonce: nat, plaintext: string): Ciphertext {
    Sealed(key, nonce, plaintext)
  }

  /** `None` is the library's `InvalidToken`. */
  function Decrypt(key: Key, c: Ciphertext): Option<string> {
    if c.Sealed? && c.key == key then Some(c.plaintext) else None
  }

  /** The sealing key gives the text back and every other key is refused; sealing a text again under
      another nonce gives another ciphertext. */
  lemma IdealCipher(key: Key, other: Key, nonce: nat, again: nat, plaintext: string)
    ensures Decrypt(other, Encrypt(key, nonce, plaintext)) == if other == key then Some(plaintext) else None
    ensures Encrypt(key, nonce, plaintext) == Encrypt(key, again, plaintext) <==> nonce == again
  {
  }
}
