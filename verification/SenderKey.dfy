/** The sender-key chain of group conversations: `web_sdk/src/crypto/sender-key-engine.ts`. */
module SenderKey {
  import opened Encoding
  import opened Terms
  import opened Persistence

  /** `verify` is the public half of an Ed25519 key pair, `sign` the private half a session
      may hold. */
  datatype SenderSession = SenderSession(chainKey: Key, chainId: nat, iteration: nat, verify: KeyId,
                                         sign: Option<KeyId>)

  datatype Blob = Blob(signer: KeyId, signed: Ciphertext, ct: Ciphertext) | TooShort

  datatype Opening = Opened(text: Bytes, next: SenderSession) | Refused

  function CreateSession(chainKey: Key, chainId: nat, signer: KeyId): SenderSession {
    SenderSession(chainKey, chainId, 0, signer, Some(signer))
  }

  function Advanced(s: SenderSession): SenderSession {
    s.(chainKey := NextChain(s.chainKey), iteration := s.iteration + 1)
  }

  /** Signing without a private key throws. */
  function Encrypt(s: SenderSession, text: Bytes): Option<(Blob, SenderSession)> {
    if s.sign.None? then None
    else
      var ct := Sealed(SenderMessageKey(s.chainKey), text);
      Some((Blob(s.sign.value, ct, ct), Advanced(s)))
  }

  /** The signature must be the sender's and over this ciphertext. */
  function Decrypt(s: SenderSession, blob: Blob): Opening {
    if blob.TooShort? then Refused
    else if blob.signer != s.verify || blob.signed != blob.ct then Refused
    else
      match Open(SenderMessageKey(s.chainKey), blob.ct)
      case None => Refused
      case Some(text) => Opened(text, Advanced(s))
  }

  /** A session opens what another one encrypts exactly when it stands at the same chain key
      and the other one signs with the key it verifies; then both move on together. */
  lemma {:induction false} OpensExactly(m: SenderSession, r: SenderSession, text: Bytes)
    requires m.sign.Some?
    ensures var (blob, next) := Encrypt(m, text).value;
            Decrypt(r, blob) == if m.sign == Some(r.verify) && m.chainKey == r.chainKey
                                then Opened(text, Advanced(r)) else Refused
  {
  }

  // ---- Distribution ----

  datatype KeyMaterial = KeyMaterial(chainKey: string, chainId: nat, iteration: nat, signingKeyPub: string,
                                     signingKeyPriv: string)

  function SerializeKeyMaterial(w: Wire, s: SenderSession): KeyMaterial {
    KeyMaterial(Encode(w.keyBytes(s.chainKey)), s.chainId, s.iteration, Encode(w.pubBytes(PubOf(s.verify))),
                Encode(if s.sign.Some? then w.privBytes(s.sign.value) else []))
  }

  /** An empty or unreadable private key means that there is none. */
  function DeserializeKeyMaterial(w: Wire, m: KeyMaterial): Option<SenderSession> {
    if Decode(m.chainKey).BadText? || Decode(m.signingKeyPub).BadText? then None
    else
      var pub := w.pubOf(Decode(m.signingKeyPub).bytes);
      var priv := Decode(m.signingKeyPriv);
      if pub.ZeroPub? then None
      else Some(SenderSession(w.keyOf(Decode(m.chainKey).bytes), m.chainId, m.iteration, pub.id,
                              if m.signingKeyPriv != "" && priv.Decoded? then Some(w.privOf(priv.bytes)) else None))
  }

  lemma {:induction false} EmptyEncoding(b: Bytes)
    ensures Encode(b) == "" <==> b == []
  {
    RoundTrip(b);
    RoundTrip([]);
    EncodeIsDigits(b);
    assert Encode(b) == "" ==> Digits(b) == "" && Values(Digits(b)) == [];
    DigitsRoundTrip(b);
  }

  /** The material holds the whole session: a receiver gets back exactly the sender's session,
      signing key included, unless that key has no bytes. */
  lemma {:induction false} DistributionKeeps(w: Wire, s: SenderSession)
    requires Faithful(w)
    ensures DeserializeKeyMaterial(w, SerializeKeyMaterial(w, s))
         == Some(if s.sign.Some? && w.privBytes(s.sign.value) == [] then s.(sign := None) else s)
  {
    hide Encode, Decode;
    RoundTrip(w.keyBytes(s.chainKey));
    RoundTrip(w.pubBytes(PubOf(s.verify)));
    var priv := if s.sign.Some? then w.privBytes(s.sign.value) else [];
    RoundTrip(priv);
    EmptyEncoding(priv);
  }

  /** A member that was given the material writes in the sender's name, and any other member at
      that place of the chain opens it, exactly when the distributed session held the private
      half of its signing key (and that key has bytes). */
  lemma {:induction false} MemberWritesAsSender(w: Wire, s: SenderSession, r: SenderSession, text: Bytes)
    requires Faithful(w)
    requires r.chainKey == s.chainKey && r.verify == s.verify
    ensures var member := DeserializeKeyMaterial(w, SerializeKeyMaterial(w, s));
            && member.Some?
            && var made := Encrypt(member.value, text);
               (made.Some? && Decrypt(r, made.value.0) == Opened(text, Advanced(r)))
               <==> s.sign == Some(s.verify) && w.privBytes(s.verify) != []
  {
    hide SerializeKeyMaterial, DeserializeKeyMaterial;
    DistributionKeeps(w, s);
  }

  // ---- The sender's messages ----

  function SenderAfter(s: SenderSession, texts: seq<Bytes>): (r: SenderSession)
    requires s.sign.Some?
    ensures r.sign == s.sign
  {
    if texts == [] then s else Encrypt(SenderAfter(s, texts[..|texts| - 1]), texts[|texts| - 1]).value.1
  }

  /** The `i`-th message of a sender that started in `s`. */
  function MessageAt(s: SenderSession, texts: seq<Bytes>, i: nat): Blob
    requires s.sign.Some? && i < |texts|
  {
    Encrypt(SenderAfter(s, texts[..i]), texts[i]).value.0
  }

  lemma {:induction false} SenderAt(s: SenderSession, texts: seq<Bytes>)
    requires s.sign.Some?
    ensures SenderAfter(s, texts) == s.(chainKey := Advance(s.chainKey, |texts|), iteration := s.iteration + |texts|)
  {
    if texts != [] {
      SenderAt(s, texts[..|texts| - 1]);
    }
  }

  /** `r` is where the sender was after `j` messages, whether or not it can sign. */
  ghost predicate InStep(s: SenderSession, r: SenderSession, texts: seq<Bytes>, j: nat)
    requires s.sign.Some?
  {
    j <= |texts| && r.(sign := s.sign) == SenderAfter(s, texts[..j])
  }

  /** A receiver at position `j` of the chain opens message `i` exactly when `i == j`. */
  lemma {:induction false} OpensOnlyNext(s: SenderSession, texts: seq<Bytes>, r: SenderSession, i: nat, j: nat)
    requires s.sign == Some(s.verify) && i < |texts| && InStep(s, r, texts, j)
    ensures Decrypt(r, MessageAt(s, texts, i)) == if i == j then Opened(texts[i], Advanced(r)) else Refused
  {
    SenderAt(s, texts[..i]);
    SenderAt(s, texts[..j]);
    AdvanceOrigin(s.chainKey, i);
    AdvanceOrigin(s.chainKey, j);
    OpensExactly(SenderAfter(s, texts[..i]), r, texts[i]);
  }

  /** A signature by the sender, if it is one, is over a ciphertext the sender made. */
  ghost predicate Genuine(s: SenderSession, texts: seq<Bytes>, blob: Blob)
    requires s.sign.Some?
  {
    blob.Blob? && blob.signer == s.verify ==>
      exists i: nat :: i < |texts| && MessageAt(s, texts, i).ct == blob.signed
  }

  lemma {:induction false} MessageIs(s: SenderSession, texts: seq<Bytes>, i: nat)
    requires s.sign.Some? && i < |texts|
    ensures var ct := Sealed(SenderMessageKey(Advance(s.chainKey, i)), texts[i]);
            MessageAt(s, texts, i) == Blob(s.sign.value, ct, ct)
  {
    SenderAt(s, texts[..i]);
  }

  /** Whatever blob arrives, of the sender, of another member or made up, a receiver at position
      `j` opens it exactly when it is the sender's message `j`, as long as nobody else signs for
      the sender. */
  lemma {:induction false} OpensOnlyGenuine(s: SenderSession, texts: seq<Bytes>, r: SenderSession, blob: Blob, j: nat)
    requires s.sign == Some(s.verify) && InStep(s, r, texts, j) && Genuine(s, texts, blob)
    ensures Decrypt(r, blob)
            == if j < |texts| && blob == MessageAt(s, texts, j) then Opened(texts[j], Advanced(r)) else Refused
  {
    SenderAt(s, texts[..j]);
    if j < |texts| {
      MessageIs(s, texts, j);
    }
    if blob.Blob? && blob.signer == s.verify {
      var i: nat :| i < |texts| && MessageAt(s, texts, i).ct == blob.signed;
      MessageIs(s, texts, i);
      AdvanceOrigin(s.chainKey, i);
      AdvanceOrigin(s.chainKey, j);
    }
  }

  /** A receiver fed with any blobs, keeping its session when one is refused. */
  function FedBlobs(r: SenderSession, blobs: seq<Blob>): (SenderSession, seq<Bytes>) {
    if blobs == [] then (r, [])
    else
      var (before, shown) := FedBlobs(r, blobs[..|blobs| - 1]);
      match Decrypt(before, blobs[|blobs| - 1])
      case Refused => (before, shown)
      case Opened(text, next) => (next, shown + [text])
  }

  /** So whatever arrives, a receiver shows a stretch of the sender's texts from its start on, in
      order, without a gap and with nothing else in between. */
  lemma {:induction false} ShowsOnlyGenuine(s: SenderSession, texts: seq<Bytes>, r: SenderSession, start: nat,
                                            blobs: seq<Blob>)
    returns (at: nat)
    requires s.sign == Some(s.verify) && InStep(s, r, texts, start)
    requires forall k | 0 <= k < |blobs| :: Genuine(s, texts, blobs[k])
    ensures var (end, shown) := FedBlobs(r, blobs); InLockstep(s, texts, start, at, end, shown)
  {
    hide Decrypt, MessageAt, SenderAfter;
    at := start;
    if blobs != [] {
      at := ShowsOnlyGenuine(s, texts, r, start, blobs[..|blobs| - 1]);
      var (before, shown) := FedBlobs(r, blobs[..|blobs| - 1]);
      OpensOnlyGenuine(s, texts, before, blobs[|blobs| - 1], at);
      if at < |texts| && blobs[|blobs| - 1] == MessageAt(s, texts, at) {
        assert texts[start..at] + [texts[at]] == texts[start..at + 1];
        NextInStep(s, texts, before, at);
        at := at + 1;
      }
    }
  }

  /** A receiver fed with the sender's messages in the order `order`, keeping its session
      when a message is refused. */
  function Fed(s: SenderSession, texts: seq<Bytes>, r: SenderSession, order: seq<nat>): (SenderSession, seq<Bytes>)
    requires s.sign.Some? && forall k | 0 <= k < |order| :: order[k] < |texts|
  {
    if order == [] then (r, [])
    else
      var (before, shown) := Fed(s, texts, r, order[..|order| - 1]);
      match Decrypt(before, MessageAt(s, texts, order[|order| - 1]))
      case Refused => (before, shown)
      case Opened(text, next) => (next, shown + [text])
  }

  /** A counter that moves only when it meets its own value. */
  ghost function Counter(start: nat, order: seq<nat>): nat {
    if order == [] then start
    else
      var before := Counter(start, order[..|order| - 1]);
      if order[|order| - 1] == before then before + 1 else before
  }

  lemma {:induction false} NextInStep(s: SenderSession, texts: seq<Bytes>, r: SenderSession, j: nat)
    requires s.sign.Some? && j < |texts| && InStep(s, r, texts, j)
    ensures InStep(s, Advanced(r), texts, j + 1)
  {
    assert texts[..j + 1][..j] == texts[..j];
  }

  /** The receiver shows exactly the sender's texts from `start` on, in order and without a
      gap, and its session is the one the sender had at that message. */
  ghost predicate InLockstep(s: SenderSession, texts: seq<Bytes>, start: nat, at: nat, end: SenderSession,
                             shown: seq<Bytes>)
    requires s.sign.Some?
  {
    start <= at <= |texts| && shown == texts[start..at] && InStep(s, end, texts, at)
  }

  /** So it is in every delivery order, from the point where the receiver got the key
      material. */
  lemma {:induction false} SenderKeyLockstep(s: SenderSession, texts: seq<Bytes>, r: SenderSession, start: nat,
                                             order: seq<nat>)
    requires s.sign == Some(s.verify) && InStep(s, r, texts, start)
    requires forall k | 0 <= k < |order| :: order[k] < |texts|
    ensures var (end, shown) := Fed(s, texts, r, order);
            InLockstep(s, texts, start, Counter(start, order), end, shown)
  {
    hide Decrypt, MessageAt, SenderAfter;
    if order != [] {
      SenderKeyLockstep(s, texts, r, start, order[..|order| - 1]);
      var (before, shown) := Fed(s, texts, r, order[..|order| - 1]);
      var at, i := Counter(start, order[..|order| - 1]), order[|order| - 1];
      OpensOnlyNext(s, texts, before, i, at);
      if i == at {
        assert texts[start..at] + [texts[at]] == texts[start..at + 1];
        NextInStep(s, texts, before, at);
      }
    }
  }

  /** The same from the beginning: a new sender writes `start` messages, distributes its key
      material, and the receiver reads what follows in any order. */
  lemma {:induction false} GroupDelivery(w: Wire, chainKey: Key, chainId: nat, signer: KeyId, texts: seq<Bytes>,
                                         start: nat, order: seq<nat>)
    requires Faithful(w) && start <= |texts| && forall k | 0 <= k < |order| :: order[k] < |texts|
    ensures var s := CreateSession(chainKey, chainId, signer);
            var r := DeserializeKeyMaterial(w, SerializeKeyMaterial(w, SenderAfter(s, texts[..start])));
            && r.Some? && r.value.iteration == start && r.value.chainId == chainId && r.value.verify == signer
            && var (end, shown) := Fed(s, texts, r.value, order);
               InLockstep(s, texts, start, Counter(start, order), end, shown)
  {
    hide SerializeKeyMaterial, DeserializeKeyMaterial, Fed, InLockstep;
    var s := CreateSession(chainKey, chainId, signer);
    DistributionKeeps(w, SenderAfter(s, texts[..start]));
    var r := DeserializeKeyMaterial(w, SerializeKeyMaterial(w, SenderAfter(s, texts[..start]))).value;
    SenderAt(s, texts[..start]);
    SenderKeyLockstep(s, texts, r, start, order);
  }

  /** Delivered in order, everything is shown; a message that never comes stops the receiver
      for ever. */
  lemma {:induction false} CounterFollows(start: nat, order: seq<nat>)
    ensures (forall k | 0 <= k < |order| :: order[k] == start + k) ==> Counter(start, order) == start + |order|
    ensures start !in order ==> Counter(start, order) == start
  {
    if order != [] {
      CounterFollows(start, order[..|order| - 1]);
    }
  }
}
