/** The X3DH key agreement: `web_sdk/src/crypto/x3dh-engine.ts`, after sections 3.3 and 3.4 of
    Signal's "The X3DH Key Agreement Protocol". */
module X3dh {
  import opened Encoding
  import opened Terms
  import opened Ratchet
  import opened Epochs
  import opened Delivery
  import opened Theorems

  datatype Signature = Signed(signer: KeyId, content: Pub) | Forged(bytes: Bytes)

  datatype Otpk = Otpk(id: nat, key: KeyId)

  datatype PublicOtpk = PublicOtpk(id: nat, pub: Pub)

  /** The private keys of a device. */
  datatype PrivateBundle = PrivateBundle(identityDh: KeyId, identityEd: KeyId, signedPrekeyId: nat, signedPrekey: KeyId,
                                         otpks: seq<Otpk>)

  /** What the key server hands out. */
  datatype PublicBundle = PublicBundle(identityKey: Pub, identityKeyEd: KeyId, signedPrekeyId: nat, signedPrekey: Pub,
                                       signature: Signature, oneTimePrekey: Option<PublicOtpk>)

  datatype InitHeader = InitHeader(ek: Pub, spkId: nat, otpkId: Option<nat>)

  datatype Agreement = Agreement(secret: Key, header: InitHeader) | InvalidSignature

  predicate Verifies(edKey: KeyId, signature: Signature, pub: Pub) {
    signature == Signed(edKey, pub)
  }

  /** `newId` is the ephemeral key pair generated by the call. */
  function PerformX3dh(recipient: PublicBundle, sender: PrivateBundle, newId: KeyId): Agreement {
    if !Verifies(recipient.identityKeyEd, recipient.signature, recipient.signedPrekey) then InvalidSignature
    else
      var dh1 := Dh(sender.identityDh, recipient.signedPrekey);
      var dh2 := Dh(newId, recipient.identityKey);
      var dh3 := Dh(newId, recipient.signedPrekey);
      match recipient.oneTimePrekey
      case Some(otpk) =>
        Agreement(X3dhSecret([dh1, dh2, dh3, Dh(newId, otpk.pub)]),
                  InitHeader(PubOf(newId), recipient.signedPrekeyId, Some(otpk.id)))
      case None =>
        Agreement(X3dhSecret([dh1, dh2, dh3]), InitHeader(PubOf(newId), recipient.signedPrekeyId, None))
  }

  /** `Array.find` by id: the first match. */
  function Find(otpks: seq<Otpk>, id: nat): (r: Option<Otpk>)
    ensures r.None? <==> forall i | 0 <= i < |otpks| :: otpks[i].id != id
    ensures r.Some? ==> exists i :: 0 <= i < |otpks| && otpks[i] == r.value && otpks[i].id == id
                                    && forall j | 0 <= j < i :: otpks[j].id != id
  {
    if otpks == [] then None
    else if otpks[0].id == id then Some(otpks[0])
    else Find(otpks[1..], id)
  }

  /** The responder's side.  The signed-prekey id of the header is not looked at. */
  function DeriveSharedSecret(header: InitHeader, recipient: PrivateBundle, senderIdentity: Pub): Option<Key> {
    var dh1 := Dh(recipient.signedPrekey, senderIdentity);
    var dh2 := Dh(recipient.identityDh, header.ek);
    var dh3 := Dh(recipient.signedPrekey, header.ek);
    match header.otpkId
    case None => Some(X3dhSecret([dh1, dh2, dh3]))
    case Some(id) =>
      match Find(recipient.otpks, id)
      case None => None
      case Some(otpk) => Some(X3dhSecret([dh1, dh2, dh3, Dh(otpk.key, header.ek)]))
  }

  /** The bundle describes the responder's current keys. */
  ghost predicate Current(recipient: PublicBundle, owner: PrivateBundle) {
    && recipient.identityKey == PubOf(owner.identityDh)
    && recipient.signedPrekey == PubOf(owner.signedPrekey)
    && (recipient.oneTimePrekey.Some? ==>
          var otpk := recipient.oneTimePrekey.value;
          Find(owner.otpks, otpk.id).Some? && PubOf(Find(owner.otpks, otpk.id).value.key) == otpk.pub)
  }

  /** A bundle with a bad signature is refused.  Otherwise the header names the keys used, and a
      responder that takes `claimed` for the sender's identity derives the same secret exactly
      when the bundle describes the keys it has now and `claimed` is the sender's identity. */
  lemma {:induction false} AgreementExact(recipient: PublicBundle, sender: PrivateBundle, newId: KeyId,
                                          owner: PrivateBundle, claimed: Pub)
    ensures var a := PerformX3dh(recipient, sender, newId);
            if !Verifies(recipient.identityKeyEd, recipient.signature, recipient.signedPrekey)
            then a == InvalidSignature
            else
              && a.Agreement?
              && a.header.ek == PubOf(newId) && a.header.spkId == recipient.signedPrekeyId
              && (DeriveSharedSecret(a.header, owner, claimed) == Some(a.secret)
                  <==> Current(recipient, owner) && claimed == PubOf(sender.identityDh))
  {
  }

  /** Two agreements of one sender, with the same or different recipients, share a secret only if
      they share the ephemeral key, as long as that is a new key pair. */
  lemma {:induction false} SecretsFresh(r1: PublicBundle, newId1: KeyId, r2: PublicBundle, newId2: KeyId,
                                        sender: PrivateBundle)
    requires PerformX3dh(r1, sender, newId1).Agreement? && PerformX3dh(r2, sender, newId2).Agreement?
    requires newId1 != newId2 && r1.identityKey != PubOf(newId2)
    ensures PerformX3dh(r1, sender, newId1).secret != PerformX3dh(r2, sender, newId2).secret
  {
    var a, b := PerformX3dh(r1, sender, newId1).secret, PerformX3dh(r2, sender, newId2).secret;
    assert a.inputs[1] == Dh(newId1, r1.identityKey) && b.inputs[1] == Dh(newId2, r2.identityKey);
  }

  /** From the handshake on, the two ratchets started from it deliver like the mailboxes:
      the initiator ratchets against the identity key of the bundle, the responder starts
      from its identity key pair. */
  lemma {:induction false} HandshakeDelivers<K>(slot: (Pub, nat) -> K, recipient: PublicBundle, sender: PrivateBundle,
                                                newId: KeyId, owner: PrivateBundle, aliceKey: KeyId, nextId: KeyId,
                                                steps: seq<Step>)
    requires Injective(slot)
    requires Verifies(recipient.identityKeyEd, recipient.signature, recipient.signedPrekey) && Current(recipient, owner)
    requires owner.identityDh != aliceKey && owner.identityDh < nextId && aliceKey < nextId
    requires var a := PerformX3dh(recipient, sender, newId);
             && a.Agreement?
             && var start: World<K> := Start(a.secret, owner.identityDh, aliceKey, nextId);
             AllAllowed(slot, a.secret, owner.identityDh, start, EMPTY_NET, steps)
    ensures var a := PerformX3dh(recipient, sender, newId);
            && a.Agreement?
            && var derived := DeriveSharedSecret(a.header, owner, PubOf(sender.identityDh));
            && derived.Some?
            && var w: World<K> := World(InitSender(a.secret, recipient.identityKey, aliceKey),
                                        InitReceiver(derived.value, owner.identityDh), [], [], nextId);
            Run(slot, w, steps).1 == NetRun(EMPTY_NET, steps).1
  {
    AgreementExact(recipient, sender, newId, owner, PubOf(sender.identityDh));
    MailboxRefinement(slot,
                      Scenario(PerformX3dh(recipient, sender, newId).secret, owner.identityDh, aliceKey, nextId,
                               steps));
  }
}
