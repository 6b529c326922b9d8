/** Messages signed with an application key. Signature scheme and serializer are parameters. */
module SignedMessages {
  import opened Basics

  datatype Signed<M> = Signed(message: M, signature: Signature)

  /** How one message type is serialized and which key it claims. */
  datatype Kind<!M> = Kind(serialize: M -> Option<seq<Byte>>, publicKey: M -> PublicKey)

  type Verifier = (PublicKey, seq<Byte>, Signature) -> bool

  type Signer = seq<Byte> -> Option<Signature>

  /** `SignedMessage::new`: fails when serializing or signing fails. */
  function Sign<M>(kind: Kind<M>, signer: Signer, message: M): Option<Signed<M>> {
    var bytes := kind.serialize(message);
    if bytes.None? then None
    else
      var signature := signer(bytes.value);
      if signature.None? then None else Some(Signed(message, signature.value))
  }

  /** `SignedMessage::verify`: None when the message does not serialize. */
  function Verify<M>(kind: Kind<M>, verifier: Verifier, signed: Signed<M>): Option<bool> {
    var bytes := kind.serialize(signed.message);
    if bytes.None? then None
    else Some(verifier(kind.publicKey(signed.message), bytes.value, signed.signature))
  }

  /** `verify().unwrap_or(false)`, and also what the `match` forms let through. */
  predicate Authentic<M>(kind: Kind<M>, verifier: Verifier, signed: Signed<M>) {
    Verify(kind, verifier, signed).GetOr(false)
  }

  /** The signer holds the private key of `key`. */
  ghost predicate SignsFor(signer: Signer, verifier: Verifier, key: PublicKey) {
    forall bytes :: signer(bytes).Some? ==> verifier(key, bytes, signer(bytes).value)
  }

  /** The bytes exist, and the signature over exactly them is one of `key`. */
  ghost predicate Covers(verifier: Verifier, key: PublicKey, bytes: Option<seq<Byte>>, signature: Signature) {
    bytes.Some? && verifier(key, bytes.value, signature)
  }

  /** Verification succeeds exactly when the claimed key's signature covers the serialized message. */
  lemma AuthenticIff<M>(kind: Kind<M>, verifier: Verifier, signed: Signed<M>)
    ensures Authentic(kind, verifier, signed)
            <==> Covers(verifier, kind.publicKey(signed.message), kind.serialize(signed.message), signed.signature)
  {
  }

  /**
    An honest signer can sign whatever serializes and its key signs; what it signs for
    its own key verifies, and is unchanged.
  */
  lemma SignedVerifies<M>(kind: Kind<M>, signer: Signer, verifier: Verifier, message: M)
    requires SignsFor(signer, verifier, kind.publicKey(message))
    ensures var signed, bytes := Sign(kind, signer, message), kind.serialize(message);
            && (signed.Some? <==> bytes.Some? && signer(bytes.value).Some?)
            && (signed.Some? ==> signed.value.message == message && Authentic(kind, verifier, signed.value))
  {
  }
}
