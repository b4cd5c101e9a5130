/** The constants the contracts bake in: SEC 2 section 2.4.1 and the checker's offset point. */
module Secp256k1 {
  import opened Modular
  import opened Curve
  import opened ScriptBytes
  import opened EcMulCheck

  const FIELD: int := 0xfffffffffffffffffffffffffffffffffffffffffffffffffffffffefffffc2f
  const ORDER: int := 0xfffffffffffffffffffffffffffffffebaaedce6af48a03bbfd25e8cd0364141
  const OFFSET_Y: int := 0x66fbe727b2ba09e09f5a98d70a5efce8424c5fa425bbda1c511f860657b8535e

  function Contract(): Setting {
    Setting(Params(FIELD, ORDER), Affine(2, OFFSET_Y))
  }

  /** With the standard's assumptions, the contract's constants meet everything the proofs ask:
      the offset point is on the curve and 256 steps read every scalar to its end. The deployed
      checker therefore accepts nothing but true products. */
  lemma ContractIsSound()
    requires GroupLaw(Contract().curve)
    ensures Sound(Contract())
  {
    Pow2At256(STEPS);
    assert (OFFSET_Y * OFFSET_Y) % FIELD == 15;
  }
}
