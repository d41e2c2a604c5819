/** Sessions at rest: `serialize` and `deserialize` of the ratchet engine, the string names
    of skipped keys, and the run in which sessions exist only as stored text between two
    operations. */
module Persistence {
  import opened Encoding
  import opened Terms
  import opened Ratchet
  import opened Epochs
  import opened Delivery
  import opened Theorems

  /** How keys look as bytes.  Any representation will do that can be read back. */
  datatype Wire = Wire(keyBytes: Key -> Bytes, keyOf: Bytes -> Key,
                       pubBytes: Pub -> Bytes, pubOf: Bytes -> Pub,
                       privBytes: KeyId -> Bytes, privOf: Bytes -> KeyId)

  ghost predicate Faithful(w: Wire) {
    && (forall k :: w.keyOf(w.keyBytes(k)) == k)
    && (forall p :: w.pubOf(w.pubBytes(p)) == p)
    && (forall i :: w.privOf(w.privBytes(i)) == i)
  }

  // ---- Names of skipped keys ----

  function Decimal(n: nat): string {
    (if n < 10 then "" else Decimal(n / 10)) + [(n % 10 + 48) as char]
  }

  function SlotName(w: Wire, dh: Pub, n: nat): string {
    Encode(w.pubBytes(dh)) + ":" + Decimal(n)
  }

  function Names(w: Wire): (Pub, nat) -> string {
    (dh: Pub, n: nat) => SlotName(w, dh, n)
  }

  lemma {:induction false} DecimalInjective(m: nat, n: nat)
    requires Decimal(m) == Decimal(n)
    ensures m == n
  {
    var s, t := Decimal(m), Decimal(n);
    assert s[|s| - 1] == t[|t| - 1];
    assert m < 10 ==> |s| == 1;
    assert n < 10 ==> |t| == 1;
    DecimalNonempty(m / 10);
    DecimalNonempty(n / 10);
    if m >= 10 && n >= 10 {
      assert s[..|s| - 1] == Decimal(m / 10);
      assert t[..|t| - 1] == Decimal(n / 10);
      DecimalInjective(m / 10, n / 10);
    }
  }

  lemma {:induction false} DecimalNonempty(n: nat)
    ensures |Decimal(n)| > 0
  {
  }

  /** A name determines the public key and the number it was made from: base64url never
      contains the separator. */
  lemma {:induction false} NamesInjective(w: Wire)
    requires Faithful(w)
    ensures Injective(Names(w))
  {
    forall p, m, q, n | SlotName(w, p, m) == SlotName(w, q, n)
      ensures p == q && m == n
    {
      SlotNameInjective(w, p, m, q, n);
    }
  }

  lemma {:induction false} SlotNameInjective(w: Wire, p: Pub, m: nat, q: Pub, n: nat)
    requires Faithful(w)
    requires SlotName(w, p, m) == SlotName(w, q, n)
    ensures p == q && m == n
  {
    var a, b := Encode(w.pubBytes(p)), Encode(w.pubBytes(q));
    var name := SlotName(w, p, m);
    EncodeShape(w.pubBytes(p));
    EncodeShape(w.pubBytes(q));
    assert name[|a|] == ':' && name[|b|] == ':';
    assert |a| == |b|;
    assert a == name[..|a|] == b;
    EncodeInjective(w.pubBytes(p), w.pubBytes(q));
    assert w.pubOf(w.pubBytes(p)) == w.pubOf(w.pubBytes(q));
    assert Decimal(m) == name[|a| + 1..] == Decimal(n);
    DecimalInjective(m, n);
  }

  // ---- Serialisation ----

  datatype RatchetState = RatchetState(
    conversationId: string,
    rootKey: string, chainKeySend: string, chainKeyRecv: string,
    dhSendPub: string, dhSendPriv: string, dhRecvPub: string,
    nSend: nat, nRecv: nat, pn: nat,
    skippedMessageKeys: map<string, string>)

  function Serialize(w: Wire, s: Session<string>, conversationId: string): RatchetState {
    RatchetState(conversationId,
                 Encode(w.keyBytes(s.rootKey)), Encode(w.keyBytes(s.chainKeySend)), Encode(w.keyBytes(s.chainKeyRecv)),
                 Encode(w.pubBytes(s.dhSendPub)), Encode(w.privBytes(s.dhSendPriv)), Encode(w.pubBytes(s.dhRecvPub)),
                 s.nSend, s.nRecv, s.pn,
                 map k | k in s.skipped.entries :: Encode(w.keyBytes(s.skipped.entries[k])))
  }

  /** Every field must decode, or the whole call throws. */
  predicate Readable(st: RatchetState) {
    && Decode(st.rootKey).Decoded? && Decode(st.chainKeySend).Decoded? && Decode(st.chainKeyRecv).Decoded?
    && Decode(st.dhSendPub).Decoded? && Decode(st.dhSendPriv).Decoded? && Decode(st.dhRecvPub).Decoded?
    && (forall k | k in st.skippedMessageKeys :: Decode(st.skippedMessageKeys[k]).Decoded?)
  }

  function Deserialize(w: Wire, st: RatchetState): Option<Session<string>> {
    if !Readable(st) then None
    else
      var entries := map k | k in st.skippedMessageKeys :: w.keyOf(Decode(st.skippedMessageKeys[k]).bytes);
      Some(Session(w.keyOf(Decode(st.rootKey).bytes), w.keyOf(Decode(st.chainKeySend).bytes),
                   w.keyOf(Decode(st.chainKeyRecv).bytes),
                   w.pubOf(Decode(st.dhSendPub).bytes), w.privOf(Decode(st.dhSendPriv).bytes),
                   w.pubOf(Decode(st.dhRecvPub).bytes),
                   st.nSend, st.nRecv, st.pn, KeyStore(entries, |entries|)))
  }

  /** The loop of `serialize` over the skipped keys. */
  method SerializeKeys(w: Wire, entries: map<string, Key>) returns (r: map<string, string>)
    ensures r == map k | k in entries :: Encode(w.keyBytes(entries[k]))
  {
    r := map[];
    var rest := entries.Keys;
    while rest != {}
      invariant rest <= entries.Keys && r.Keys == entries.Keys - rest
      invariant forall k | k in r :: r[k] == Encode(w.keyBytes(entries[k]))
      decreases |rest|
    {
      var k :| k in rest;
      var text := Base64urlEncode(w.keyBytes(entries[k]));
      r := r[k := text];
      rest := rest - {k};
    }
  }

  /** The loop of `deserialize` over the stored keys. */
  method DeserializeKeys(w: Wire, stored: map<string, string>) returns (r: Option<KeyStore<string>>)
    ensures if exists k :: k in stored && Decode(stored[k]).BadText? then r == None
            else r.Some? && r.value.entries == (map k | k in stored :: w.keyOf(Decode(stored[k]).bytes))
                 && r.value.size == |stored|
  {
    hide Decode;
    var store := EmptyStore();
    var rest := stored.Keys;
    while rest != {}
      invariant rest <= stored.Keys && store.entries.Keys == stored.Keys - rest
      invariant forall k | k in store.entries ::
                  Decode(stored[k]).Decoded? && store.entries[k] == w.keyOf(Decode(stored[k]).bytes)
      invariant store.size == |stored| - |rest|
      decreases |rest|
    {
      var k :| k in rest;
      var bytes := Base64urlDecode(stored[k]);
      if bytes.BadText? {
        return None;
      }
      store := Put(store, k, w.keyOf(bytes.bytes));
      rest := rest - {k};
    }
    r := Some(store);
  }

  ghost predicate WellSized<K>(s: Session<K>) {
    s.skipped.size == |s.skipped.entries|
  }

  /** Storing a session and reading it back changes nothing. */
  lemma {:induction false} SessionRoundTrip(w: Wire, s: Session<string>, conversationId: string)
    requires Faithful(w) && WellSized(s)
    ensures Deserialize(w, Serialize(w, s, conversationId)) == Some(s)
  {
    var st := Serialize(w, s, conversationId);
    RoundTrip(w.keyBytes(s.rootKey));
    RoundTrip(w.keyBytes(s.chainKeySend));
    RoundTrip(w.keyBytes(s.chainKeyRecv));
    RoundTrip(w.pubBytes(s.dhSendPub));
    RoundTrip(w.privBytes(s.dhSendPriv));
    RoundTrip(w.pubBytes(s.dhRecvPub));
    KeysRoundTrip(w, s.skipped.entries, st.skippedMessageKeys);
  }

  /** Each stored field is the text of the session's field of that name. */
  lemma {:induction false} StoredFields(w: Wire, s: Session<string>, conversationId: string, name: string)
    ensures var st := Serialize(w, s, conversationId);
            && st.conversationId == conversationId && st.nSend == s.nSend && st.nRecv == s.nRecv && st.pn == s.pn
            && Decode(st.rootKey) == Decoded(w.keyBytes(s.rootKey))
            && Decode(st.chainKeySend) == Decoded(w.keyBytes(s.chainKeySend))
            && Decode(st.chainKeyRecv) == Decoded(w.keyBytes(s.chainKeyRecv))
            && Decode(st.dhSendPub) == Decoded(w.pubBytes(s.dhSendPub))
            && Decode(st.dhSendPriv) == Decoded(w.privBytes(s.dhSendPriv))
            && Decode(st.dhRecvPub) == Decoded(w.pubBytes(s.dhRecvPub))
            && (name in st.skippedMessageKeys <==> name in s.skipped.entries)
            && (name in s.skipped.entries ==>
                  Decode(st.skippedMessageKeys[name]) == Decoded(w.keyBytes(s.skipped.entries[name])))
  {
    hide Encode, Decode;
    RoundTrip(w.keyBytes(s.rootKey));
    RoundTrip(w.keyBytes(s.chainKeySend));
    RoundTrip(w.keyBytes(s.chainKeyRecv));
    RoundTrip(w.pubBytes(s.dhSendPub));
    RoundTrip(w.privBytes(s.dhSendPriv));
    RoundTrip(w.pubBytes(s.dhRecvPub));
    if name in s.skipped.entries {
      RoundTrip(w.keyBytes(s.skipped.entries[name]));
    }
  }

  lemma {:induction false} KeysRoundTrip(w: Wire, entries: map<string, Key>, stored: map<string, string>)
    requires Faithful(w)
    requires stored == map k | k in entries :: Encode(w.keyBytes(entries[k]))
    ensures forall k | k in stored :: Decode(stored[k]).Decoded?
    ensures (map k | k in stored :: w.keyOf(Decode(stored[k]).bytes)) == entries
  {
    forall k | k in stored
      ensures Decode(stored[k]) == Decoded(w.keyBytes(entries[k]))
    {
      RoundTrip(w.keyBytes(entries[k]));
    }
  }

  // ---- The engine keeps the size of the store right ----

  lemma {:induction false} SkipToSized<K>(slot: (Pub, nat) -> K, s: Session<K>, until: nat)
    requires WellSized(s)
    ensures WellSized(SkipTo(slot, s, until))
    decreases until - s.nRecv
  {
    if s.nRecv < until {
      SkipToSized(slot, SkipOne(slot, s), until);
    }
  }

  lemma {:induction false} SkipSized<K>(slot: (Pub, nat) -> K, s: Session<K>, until: nat)
    requires WellSized(s)
    ensures SkipMessageKeys(slot, s, until).Some? ==> WellSized(SkipMessageKeys(slot, s, until).value)
  {
    SkipToSized(slot, s, until);
  }

  lemma {:induction false} AlignSized<K>(slot: (Pub, nat) -> K, s: Session<K>, h: Header, newId: KeyId)
    requires WellSized(s)
    ensures Align(slot, s, h, newId).Some? ==> WellSized(Align(slot, s, h, newId).value)
  {
    SkipSized(slot, s, h.n);
    SkipSized(slot, s, h.pn);
    var closed := SkipMessageKeys(slot, s, h.pn);
    if closed.Some? {
      SkipSized(slot, DhRatchetStep(closed.value, h.dh, newId), h.n);
    }
  }

  lemma {:induction false} RemoveSized<K>(store: KeyStore<K>, name: K)
    requires store.size == |store.entries|
    ensures Remove(store, name).size == |Remove(store, name).entries|
  {
  }

  lemma {:induction false} DecryptSized<K>(slot: (Pub, nat) -> K, s: Session<K>, ct: Ciphertext, h: Header,
                                           newId: KeyId)
    requires WellSized(s)
    ensures var r := Decrypt(slot, s, ct, h, newId);
            r.Accepted? ==> WellSized(r.next)
  {
    RemoveSized(s.skipped, slot(h.dh, h.n));
    AlignSized(slot, s, h, newId);
  }

  ghost predicate BothSized<K>(w: World<K>) {
    WellSized(w.initiator) && WellSized(w.responder)
  }

  lemma {:induction false} ActSized<K>(slot: (Pub, nat) -> K, w: World<K>, step: Step)
    requires BothSized(w)
    ensures BothSized(Act(slot, w, step).0)
  {
    match step
    case Send(_, _) =>
    case Deliver(to, i) =>
      if i < |w.SentBy(Peer(to))| {
        DecryptSized(slot, w.SessionOf(to), w.SentBy(Peer(to))[i].ct, w.SentBy(Peer(to))[i].header, w.nextId);
      }
    case Reflect(to, i, header) =>
      if i < |w.SentBy(to)| {
        DecryptSized(slot, w.SessionOf(to), w.SentBy(to)[i].ct, header, w.nextId);
      }
    case Reheader(to, i, header) =>
      if i < |w.SentBy(Peer(to))| {
        DecryptSized(slot, w.SessionOf(to), w.SentBy(Peer(to))[i].ct, header, w.nextId);
      }
    case Inject(to, header, ct) =>
      DecryptSized(slot, w.SessionOf(to), ct, header, w.nextId);
  }

  // ---- Runs with both sessions at rest between any two steps ----

  datatype StoredWorld = StoredWorld(initiator: RatchetState, responder: RatchetState,
                                     fromInitiator: seq<Envelope>, fromResponder: seq<Envelope>, nextId: KeyId)

  function Freeze(w: Wire, id: string, world: World<string>): StoredWorld {
    StoredWorld(Serialize(w, world.initiator, id), Serialize(w, world.responder, id),
                world.fromInitiator, world.fromResponder, world.nextId)
  }

  function Thaw(w: Wire, world: StoredWorld): Option<World<string>> {
    match (Deserialize(w, world.initiator), Deserialize(w, world.responder))
    case (Some(a), Some(b)) => Some(World(a, b, world.fromInitiator, world.fromResponder, world.nextId))
    case _ => None
  }

  function StoredRun(w: Wire, id: string, world: StoredWorld, steps: seq<Step>): (StoredWorld, seq<Event>) {
    if steps == [] then (world, [])
    else
      var (before, events) := StoredRun(w, id, world, steps[..|steps| - 1]);
      match Thaw(w, before)
      case None => (before, events + [Refused])
      case Some(live) =>
        var (after, event) := Act(Names(w), live, steps[|steps| - 1]);
        (Freeze(w, id, after), events + [event])
  }

  lemma {:induction false} ThawFreeze(w: Wire, id: string, world: World<string>)
    requires Faithful(w) && BothSized(world)
    ensures Thaw(w, Freeze(w, id, world)) == Some(world)
  {
    SessionRoundTrip(w, world.initiator, id);
    SessionRoundTrip(w, world.responder, id);
  }

  /** Persisting both sessions as text after every step shows the same events and ends in
      the same sessions as never persisting them. */
  lemma {:induction false} PersistenceTransparent(w: Wire, id: string, world: World<string>, steps: seq<Step>)
    requires Faithful(w) && BothSized(world)
    ensures var (end, events) := Run(Names(w), world, steps);
            && StoredRun(w, id, Freeze(w, id, world), steps) == (Freeze(w, id, end), events)
            && BothSized(end)
  {
    if steps != [] {
      PersistenceTransparent(w, id, world, steps[..|steps| - 1]);
      var before := Run(Names(w), world, steps[..|steps| - 1]).0;
      ThawFreeze(w, id, before);
      ActSized(Names(w), before, steps[|steps| - 1]);
    }
  }

  /** End to end, with string names and every session stored between any two steps, the run
      still shows exactly the events of the mailboxes. */
  lemma {:induction false} StoredRunRefines(w: Wire, id: string, c: Scenario)
    requires Faithful(w) && Proper(Names(w), c)
    ensures StoredRun(w, id, Freeze(w, id, Begin(c)), c.steps).1 == NetRun(EMPTY_NET, c.steps).1
  {
    NamesInjective(w);
    MailboxRefinement(Names(w), c);
    PersistenceTransparent(w, id, Begin(c), c.steps);
  }
}
