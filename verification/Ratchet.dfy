/** The Double Ratchet engine: `web_sdk/src/crypto/ratchet-engine.ts`.

    Every operation builds a new session from the old one.  The store of skipped message
    keys is a map whose key is computed by `slot` from a public key and a message number:
    the code uses the string `base64url(dh):n` there, and nothing below depends on more
    than that `slot` is a function of the two. */
module Ratchet {
  import opened Encoding
  import opened Terms

  const MAX_SKIP: nat := 2000

  /** A JavaScript `Map` from names to keys, with its `size` property. */
  datatype KeyStore<K> = KeyStore(entries: map<K, Key>, size: int)

  function EmptyStore<K>(): KeyStore<K> {
    KeyStore(map[], 0)
  }

  function Put<K(==)>(store: KeyStore<K>, name: K, key: Key): KeyStore<K> {
    KeyStore(store.entries[name := key], if name in store.entries then store.size else store.size + 1)
  }

  function Remove<K(==)>(store: KeyStore<K>, name: K): KeyStore<K> {
    KeyStore(store.entries - {name}, if name in store.entries then store.size - 1 else store.size)
  }

  datatype Session<K> = Session(
    rootKey: Key,
    chainKeySend: Key,
    chainKeyRecv: Key,
    dhSendPub: Pub,
    dhSendPriv: KeyId,
    dhRecvPub: Pub,
    nSend: nat,
    nRecv: nat,
    pn: nat,
    skipped: KeyStore<K>)

  datatype Header = Header(dh: Pub, n: nat, pn: nat)

  datatype Envelope = Envelope(header: Header, ct: Ciphertext)

  datatype Decryption<K> = Accepted(plaintext: Bytes, next: Session<K>) | Rejected

  /** `newId` is the key pair generated by the call. */
  function InitSender<K>(sharedSecret: Key, recipientDhPub: Pub, newId: KeyId): Session<K> {
    var dhOut := Dh(newId, recipientDhPub);
    Session(RootOf(sharedSecret, dhOut), ChainOf(sharedSecret, dhOut), Zero,
            PubOf(newId), newId, recipientDhPub, 0, 0, 0, EmptyStore())
  }

  function InitReceiver<K>(sharedSecret: Key, localDh: KeyId): Session<K> {
    Session(sharedSecret, Zero, Zero, PubOf(localDh), localDh, ZeroPub, 0, 0, 0, EmptyStore())
  }

  function Encrypt<K>(s: Session<K>, plaintext: Bytes): (Envelope, Session<K>) {
    (Envelope(Header(s.dhSendPub, s.nSend, s.pn), Sealed(MessageKey(s.chainKeySend), plaintext)),
     s.(chainKeySend := NextChain(s.chainKeySend), nSend := s.nSend + 1))
  }

  /** Store the key of the next expected message and step over it. */
  function SkipOne<K(==)>(slot: (Pub, nat) -> K, s: Session<K>): Session<K> {
    s.(skipped := Put(s.skipped, slot(s.dhRecvPub, s.nRecv), MessageKey(s.chainKeyRecv)),
       chainKeyRecv := NextChain(s.chainKeyRecv),
       nRecv := s.nRecv + 1)
  }

  function SkipTo<K(==)>(slot: (Pub, nat) -> K, s: Session<K>, until: nat): Session<K>
    decreases until - s.nRecv
  {
    if s.nRecv >= until then s else SkipTo(slot, SkipOne(slot, s), until)
  }

  function SkipMessageKeys<K(==)>(slot: (Pub, nat) -> K, s: Session<K>, until: nat): Option<Session<K>> {
    if s.nRecv >= until then Some(s)
    else if s.skipped.size + (until - s.nRecv) > MAX_SKIP then None
    else Some(SkipTo(slot, s, until))
  }

  /** The loop the engine runs computes `SkipMessageKeys`. */
  method SkipMessageKeysLoop<K(==)>(slot: (Pub, nat) -> K, s: Session<K>, until: nat) returns (r: Option<Session<K>>)
    ensures r == SkipMessageKeys(slot, s, until)
  {
    if s.nRecv >= until {
      return Some(s);
    }
    var totalSkip := until - s.nRecv;
    if s.skipped.size + totalSkip > MAX_SKIP {
      return None;
    }
    var skipped, chainKey, n := s.skipped, s.chainKeyRecv, s.nRecv;
    while n < until
      invariant n <= until
      invariant SkipTo(slot, s.(skipped := skipped, chainKeyRecv := chainKey, nRecv := n), until)
                == SkipTo(slot, s, until)
    {
      var messageKey := MessageKey(chainKey);
      skipped := Put(skipped, slot(s.dhRecvPub, n), messageKey);
      chainKey := NextChain(chainKey);
      n := n + 1;
    }
    r := Some(s.(chainKeyRecv := chainKey, nRecv := n, skipped := skipped));
  }

  function DhRatchetStep<K>(s: Session<K>, newDhRecvPub: Pub, newId: KeyId): Session<K> {
    var dhRecv := Dh(s.dhSendPriv, newDhRecvPub);
    var root1 := RootOf(s.rootKey, dhRecv);
    var dhSend := Dh(newId, newDhRecvPub);
    s.(rootKey := RootOf(root1, dhSend),
       chainKeySend := ChainOf(root1, dhSend),
       chainKeyRecv := ChainOf(s.rootKey, dhRecv),
       dhSendPub := PubOf(newId),
       dhSendPriv := newId,
       dhRecvPub := newDhRecvPub,
       nSend := 0,
       nRecv := 0,
       pn := s.nSend)
  }

  /** Lines 138-146: close the current receiving chain if the sender has a new ratchet
      key, then skip to the message. */
  function Align<K(==)>(slot: (Pub, nat) -> K, s: Session<K>, h: Header, newId: KeyId): Option<Session<K>> {
    if h.dh == s.dhRecvPub then SkipMessageKeys(slot, s, h.n)
    else
      match SkipMessageKeys(slot, s, h.pn)
      case None => None
      case Some(closed) => SkipMessageKeys(slot, DhRatchetStep(closed, h.dh, newId), h.n)
  }

  function Decrypt<K(==)>(slot: (Pub, nat) -> K, s: Session<K>, ct: Ciphertext, h: Header,
                          newId: KeyId): Decryption<K> {
    var name := slot(h.dh, h.n);
    if name in s.skipped.entries then
      match Open(s.skipped.entries[name], ct)
      case None => Rejected
      case Some(plaintext) => Accepted(plaintext, s.(skipped := Remove(s.skipped, name)))
    else
      match Align(slot, s, h, newId)
      case None => Rejected
      case Some(c) =>
        match Open(MessageKey(c.chainKeyRecv), ct)
        case None => Rejected
        case Some(plaintext) =>
          Accepted(plaintext, c.(chainKeyRecv := NextChain(c.chainKeyRecv), nRecv := c.nRecv + 1))
  }

  /** What skipping does apart from filling the store. */
  lemma {:induction false} SkipToFields<K>(slot: (Pub, nat) -> K, s: Session<K>, until: nat)
    requires s.nRecv <= until
    ensures var r := SkipTo(slot, s, until);
            r == s.(chainKeyRecv := Advance(s.chainKeyRecv, until - s.nRecv), nRecv := until, skipped := r.skipped)
    decreases until - s.nRecv
  {
    if s.nRecv < until {
      SkipToFields(slot, SkipOne(slot, s), until);
      AdvanceFront(s.chainKeyRecv, until - s.nRecv - 1);
    }
  }

  /** The receiving chain that `Align` ends in. */
  lemma {:induction false} AlignChain<K>(slot: (Pub, nat) -> K, s: Session<K>, h: Header, newId: KeyId)
    requires Align(slot, s, h, newId).Some?
    ensures Align(slot, s, h, newId).value.chainKeyRecv ==
            if h.dh == s.dhRecvPub then Advance(s.chainKeyRecv, if s.nRecv < h.n then h.n - s.nRecv else 0)
            else Advance(ChainOf(s.rootKey, Dh(s.dhSendPriv, h.dh)), h.n)
  {
    if h.dh == s.dhRecvPub {
      SkipFields(slot, s, h.n);
    } else {
      var closed := SkipMessageKeys(slot, s, h.pn).value;
      SkipFields(slot, s, h.pn);
      SkipFields(slot, DhRatchetStep(closed, h.dh, newId), h.n);
    }
  }

  lemma {:induction false} SkipFields<K>(slot: (Pub, nat) -> K, s: Session<K>, until: nat)
    requires SkipMessageKeys(slot, s, until).Some?
    ensures var r := SkipMessageKeys(slot, s, until).value;
            && r.rootKey == s.rootKey && r.dhSendPriv == s.dhSendPriv
            && r.chainKeyRecv == Advance(s.chainKeyRecv, if s.nRecv < until then until - s.nRecv else 0)
  {
    if s.nRecv < until {
      SkipToFields(slot, s, until);
    }
  }
}
