/** `web_sdk/src/conversation/one-to-one-conversation.ts`: load, encrypt or decrypt, save, and
    only then touch the network or the user, with the process allowed to stop at any point
    in between. */
module Conversation {
  import opened Encoding
  import opened Terms
  import opened Ratchet
  import opened Persistence

  /** Where a call of `send` ends. */
  datatype SendEnd = BeforeSave | BeforeNetwork | ReplyLost | Completed

  /** Where the handling of an incoming message ends: the process stops before the new session
      is saved; saving fails, with or without having saved; the process stops before anything
      is shown; or it is completed. */
  datatype ReceiveEnd = Unsaved | SaveFailed | SaveUnsure | Unshown | Handled

  datatype Shown = Mine(text: Bytes) | Theirs(text: Bytes) | DecryptionError

  /** A message from the realtime channel; only `double_ratchet` headers are decrypted. */
  datatype Incoming = RatchetMessage(header: Header, ct: Ciphertext) | OtherMessage

  /** The stored session, everything handed to the network, everything shown to the user,
      and the supply of key pairs. */
  datatype View = View(session: Option<Session<string>>, network: seq<Envelope>, shown: seq<Shown>, nextId: KeyId)

  function AfterSend(v: View, text: Bytes, end: SendEnd): View {
    if v.session.None? || end.BeforeSave? then v
    else
      var (env, next) := Encrypt(v.session.value, text);
      var saved := v.(session := Some(next));
      if end.BeforeNetwork? then saved
      else
        var sent := saved.(network := v.network + [env]);
        if end.ReplyLost? then sent else sent.(shown := v.shown + [Mine(text)])
  }

  /** The process stops before anything is shown. */
  predicate Stopped(end: ReceiveEnd) {
    end.Unsaved? || end.Unshown?
  }

  /** The new session is saved only if decryption succeeded, and before the text is shown.
      Whatever is thrown on the way is shown as a decryption error. */
  function Concluded(v: View, r: Decryption<string>, end: ReceiveEnd): View {
    match r
    case Rejected => if Stopped(end) then v else v.(shown := v.shown + [DecryptionError])
    case Accepted(text, next) =>
      match end
      case Unsaved => v
      case SaveFailed => v.(shown := v.shown + [DecryptionError])
      case SaveUnsure => v.(session := Some(next), shown := v.shown + [DecryptionError])
      case Unshown => v.(session := Some(next))
      case Handled => v.(session := Some(next), shown := v.shown + [Theirs(text)])
  }

  function AfterIncoming(slot: (Pub, nat) -> string, v: View, m: Incoming, end: ReceiveEnd): View {
    if v.session.None? || m.OtherMessage? then Concluded(v, Rejected, end)
    else Concluded(v.(nextId := v.nextId + 1), Decrypt(slot, v.session.value, m.ct, m.header, v.nextId), end)
  }

  /** The text a message opens to, if there is a session and it can be decrypted. */
  function Opens(slot: (Pub, nat) -> string, v: View, m: Incoming): Option<Bytes> {
    if v.session.None? || m.OtherMessage? then None
    else
      match Decrypt(slot, v.session.value, m.ct, m.header, v.nextId)
      case Rejected => None
      case Accepted(text, _) => Some(text)
  }

  /** What the user is told about an incoming message. */
  function Told(text: Option<Bytes>, end: ReceiveEnd): seq<Shown> {
    if Stopped(end) then []
    else if text.Some? && end.Handled? then [Theirs(text.value)]
    else [DecryptionError]
  }

  /** Whatever arrives, exactly one thing is shown unless the process stops: the text, if it opens
      and is saved, and an error in every other case.  The stored session changes only if it opens
      and is saved, and nothing goes to the network. */
  lemma {:induction false} IncomingShows(slot: (Pub, nat) -> string, v: View, m: Incoming, end: ReceiveEnd)
    ensures var v', text := AfterIncoming(slot, v, m, end), Opens(slot, v, m);
            && v'.shown == v.shown + Told(text, end) && v'.network == v.network
            && (text.None? || end.Unsaved? || end.SaveFailed? ==> v'.session == v.session)
            && (text.Some? && !end.Unsaved? && !end.SaveFailed? ==>
                  v'.session == Some(Decrypt(slot, v.session.value, m.ct, m.header, v.nextId).next))
  {
    hide Decrypt;
    assert v.shown + [] == v.shown;
  }

  lemma {:induction false} IncomingConcludes(slot: (Pub, nat) -> string, v: View, m: Incoming, end: ReceiveEnd,
                                             r: Decryption<string>)
    requires v.session.Some? && m.RatchetMessage?
    requires r == Decrypt(slot, v.session.value, m.ct, m.header, v.nextId)
    ensures AfterIncoming(slot, v, m, end) == Concluded(v.(nextId := v.nextId + 1), r, end)
  {
  }

  lemma {:induction false} IncomingFails(slot: (Pub, nat) -> string, v: View, m: Incoming, end: ReceiveEnd)
    requires v.session.None? || m.OtherMessage?
    ensures AfterIncoming(slot, v, m, end) == Concluded(v, Rejected, end)
  {
  }

  class Conversation {
    const wire: Wire
    const id: string
    var stored: Option<RatchetState>
    var network: seq<Envelope>
    var shown: seq<Shown>
    var nextId: KeyId
    /** The session that `stored` is the text of. */
    ghost var live: Option<Session<string>>

    ghost predicate Valid()
      reads this
    {
      && Faithful(wire)
      && (live.Some? ==> WellSized(live.value))
      && stored == (if live.None? then None else Some(Serialize(wire, live.value, id)))
    }

    ghost function Seen(): View
      reads this
    {
      View(live, network, shown, nextId)
    }

    constructor (wire: Wire, id: string, session: Option<Session<string>>, nextId: KeyId)
      requires Faithful(wire) && (session.Some? ==> WellSized(session.value))
      ensures Valid() && Seen() == View(session, [], [], nextId)
      ensures this.wire == wire && this.id == id
    {
      hide Serialize;
      this.wire, this.id, this.nextId := wire, id, nextId;
      this.live := session;
      this.stored := if session.None? then None else Some(Serialize(wire, session.value, id));
      this.network, this.shown := [], [];
    }

    /** `loadRatchetState` and `deserialize`. */
    method Load() returns (session: Option<Session<string>>)
      requires Valid()
      ensures session == live
    {
      if stored.None? {
        return None;
      }
      SessionRoundTrip(wire, live.value, id);
      session := Deserialize(wire, stored.value);
    }

    /** `serialize` and `saveRatchetState`. */
    method Save(session: Session<string>)
      requires Valid() && WellSized(session)
      modifies this`stored, this`live
      ensures Valid() && live == Some(session)
    {
      stored, live := Some(Serialize(wire, session, id)), Some(session);
    }

    /** Lines 28-73.  The advanced session is saved before the network sees the message. */
    method Send(text: Bytes, end: SendEnd) returns (found: bool)
      requires Valid()
      modifies this
      ensures Valid() && Seen() == AfterSend(old(Seen()), text, end)
      ensures found == old(live.Some?)
      ensures shown == old(shown) + (if found && end.Completed? then [Mine(text)] else [])
      ensures network == old(network)
              + (if found && (end.ReplyLost? || end.Completed?) then [Encrypt(old(live).value, text).0] else [])
      ensures found && !end.BeforeSave? ==> live == Some(Encrypt(old(live).value, text).1)
      ensures !found || end.BeforeSave? ==> live == old(live)
    {
      hide Serialize;
      var loaded := Load();
      found := loaded.Some?;
      if !found {
        return;
      }
      var (env, next) := Encrypt(loaded.value, text);
      if end.BeforeSave? {
        return;
      }
      Save(next);
      if end.BeforeNetwork? {
        return;
      }
      network := network + [env];
      if end.ReplyLost? {
        return;
      }
      shown := shown + [Mine(text)];
    }

    /** The call of `RatchetEngine.decrypt`, which may generate a key pair. */
    method Attempt(session: Session<string>, m: Incoming) returns (r: Decryption<string>)
      requires Valid() && WellSized(session) && m.RatchetMessage?
      modifies this`nextId
      ensures Valid() && Seen() == old(Seen()).(nextId := old(nextId) + 1)
      ensures r == Decrypt(Names(wire), session, m.ct, m.header, old(nextId))
      ensures r.Accepted? ==> WellSized(r.next)
    {
      hide Serialize, Decrypt;
      DecryptSized(Names(wire), session, m.ct, m.header, nextId);
      r := Decrypt(Names(wire), session, m.ct, m.header, nextId);
      nextId := nextId + 1;
    }

    /** What follows decryption. */
    method Conclude(r: Decryption<string>, end: ReceiveEnd)
      requires Valid() && (r.Accepted? ==> WellSized(r.next))
      modifies this`stored, this`live, this`shown
      ensures Valid() && Seen() == Concluded(old(Seen()), r, end)
    {
      hide Serialize;
      match r
      case Rejected =>
        if !Stopped(end) {
          shown := shown + [DecryptionError];
        }
      case Accepted(text, next) =>
        if end.Unsaved? {
          return;
        }
        if !end.SaveFailed? {
          Save(next);
        }
        if end.Unshown? {
          return;
        }
        shown := shown + [if end.Handled? then Theirs(text) else DecryptionError];
    }

    method Handle(ghost v: View, session: Session<string>, m: Incoming, end: ReceiveEnd)
      requires Valid() && v == Seen() && v.session == Some(session) && m.RatchetMessage?
      modifies this
      ensures Valid() && Seen() == AfterIncoming(Names(wire), v, m, end)
    {
      hide Serialize, AfterIncoming, Concluded;
      var r := Attempt(session, m);
      IncomingConcludes(Names(wire), v, m, end, r);
      Conclude(r, end);
    }

    /** Lines 223-272.  A message that cannot be decrypted is shown as an error and leaves
        the stored session alone; one that can is saved before it is shown. */
    method OnIncomingMessage(m: Incoming, end: ReceiveEnd)
      requires Valid()
      modifies this
      ensures Valid() && Seen() == AfterIncoming(Names(wire), old(Seen()), m, end)
      ensures shown == old(shown) + Told(Opens(Names(wire), old(Seen()), m), end) && network == old(network)
      ensures Opens(Names(wire), old(Seen()), m).None? || end.Unsaved? || end.SaveFailed? ==> live == old(live)
    {
      hide Serialize, AfterIncoming, Concluded, Told, Opens;
      ghost var v := Seen();
      IncomingShows(Names(wire), v, m, end);
      var loaded := Load();
      assert Seen() == v;
      if loaded.None? || m.OtherMessage? {
        IncomingFails(Names(wire), v, m, end);
        Conclude(Rejected, end);
        return;
      }
      Handle(v, loaded.value, m, end);
    }
  }

  // ---- No message key is used twice ----

  datatype Call = SendCall(text: Bytes, sendEnd: SendEnd) | ReceiveCall(message: Incoming, receiveEnd: ReceiveEnd)

  function After(slot: (Pub, nat) -> string, v: View, calls: seq<Call>): View {
    if calls == [] then v
    else
      var before := After(slot, v, calls[..|calls| - 1]);
      match calls[|calls| - 1]
      case SendCall(text, end) => AfterSend(before, text, end)
      case ReceiveCall(m, end) => AfterIncoming(slot, before, m, end)
  }

  /** A place in a sending chain: its first key and the distance from it. */
  datatype Place = Place(base: Key, n: nat)

  ghost predicate Earlier(a: Place, b: Place) {
    Rank(a.base) < Rank(b.base) || (a.base == b.base && a.n < b.n)
  }

  ghost predicate KeyAt(key: Key, place: Place) {
    !place.base.NextChain? && key == MessageKey(Advance(place.base, place.n))
  }

  lemma {:induction false} EarlierKeysDiffer(key: Key, a: Place, key': Key, b: Place)
    requires KeyAt(key, a) && KeyAt(key', b) && Earlier(a, b)
    ensures key != key'
  {
    if key == key' {
      AdvanceInjective(a.base, a.n, b.base, b.n);
    }
  }

  /** Every sent message has its own place, each earlier than the next, and all earlier than
      the place the session will use next. */
  ghost predicate Tracked(v: View, places: seq<Place>, next: Place) {
    && |places| == |v.network|
    && (forall i | 0 <= i < |places| :: PlacedAt(v.network[i], places[i], next))
    && (forall i, j | 0 <= i < j < |places| :: Earlier(places[i], places[j]))
    && (v.session.Some? ==> NextPlace(v.session.value, next))
  }

  ghost predicate PlacedAt(env: Envelope, place: Place, next: Place) {
    env.ct.Sealed? && KeyAt(env.ct.key, place) && Earlier(place, next)
  }

  ghost predicate NextPlace(s: Session<string>, next: Place) {
    KeyAt(MessageKey(s.chainKeySend), next) && next.n == s.nSend && Rank(next.base) <= Rank(s.rootKey)
  }

  /** Whatever is decrypted, the sending half stays or starts a new chain from a deeper
      root. */
  lemma {:induction false} DecryptSendHalf<K>(slot: (Pub, nat) -> K, s: Session<K>, ct: Ciphertext, h: Header,
                                              newId: KeyId)
    ensures var r := Decrypt(slot, s, ct, h, newId);
            r.Accepted? ==>
              || (r.next.rootKey == s.rootKey && r.next.chainKeySend == s.chainKeySend && r.next.nSend == s.nSend)
              || (r.next.chainKeySend.ChainOf? && r.next.nSend == 0
                  && Rank(s.rootKey) < Rank(r.next.chainKeySend) <= Rank(r.next.rootKey))
  {
    hide Decrypt;
    DecryptKeyPair(slot, s, ct, h, newId);
  }

  /** The same with the key pair: it stays, or is the new one with a chain of its own. */
  lemma {:induction false} DecryptKeyPair<K>(slot: (Pub, nat) -> K, s: Session<K>, ct: Ciphertext, h: Header,
                                             newId: KeyId)
    ensures var r := Decrypt(slot, s, ct, h, newId);
            r.Accepted? ==>
              || (r.next.rootKey == s.rootKey && r.next.chainKeySend == s.chainKeySend && r.next.nSend == s.nSend
                  && r.next.dhSendPriv == s.dhSendPriv && r.next.dhSendPub == s.dhSendPub)
              || (r.next.dhSendPriv == newId && r.next.dhSendPub == PubOf(newId) && r.next.nSend == 0
                  && r.next.rootKey == RootOf(RootOf(s.rootKey, Dh(s.dhSendPriv, h.dh)), Dh(newId, h.dh))
                  && r.next.chainKeySend == ChainOf(RootOf(s.rootKey, Dh(s.dhSendPriv, h.dh)), Dh(newId, h.dh)))
  {
    var a := Align(slot, s, h, newId);
    if slot(h.dh, h.n) !in s.skipped.entries && a.Some? {
      SkipSendHalf(slot, s, h.n);
      if h.dh != s.dhRecvPub {
        SkipSendHalf(slot, s, h.pn);
        SkipSendHalf(slot, DhRatchetStep(SkipMessageKeys(slot, s, h.pn).value, h.dh, newId), h.n);
      }
    }
  }

  lemma {:induction false} SkipSendHalf<K>(slot: (Pub, nat) -> K, s: Session<K>, until: nat)
    ensures var r := SkipMessageKeys(slot, s, until);
            r.Some? ==>
              && r.value.rootKey == s.rootKey && r.value.chainKeySend == s.chainKeySend && r.value.nSend == s.nSend
              && r.value.dhSendPriv == s.dhSendPriv && r.value.dhSendPub == s.dhSendPub
  {
    if s.nRecv < until {
      SkipToFields(slot, s, until);
    }
  }

  lemma {:induction false} SendTracked(v: View, places: seq<Place>, next: Place, text: Bytes, end: SendEnd)
    returns (places': seq<Place>, next': Place)
    requires Tracked(v, places, next)
    ensures Tracked(AfterSend(v, text, end), places', next')
  {
    places', next' := places, next;
    if v.session.Some? && !end.BeforeSave? {
      next' := Place(next.base, next.n + 1);
      if !end.BeforeNetwork? {
        places' := places + [next];
      }
    }
  }

  lemma {:induction false} IncomingTracked(slot: (Pub, nat) -> string, v: View, places: seq<Place>, next: Place,
                                           m: Incoming, end: ReceiveEnd)
    returns (next': Place)
    requires Tracked(v, places, next)
    ensures Tracked(AfterIncoming(slot, v, m, end), places, next')
  {
    next' := next;
    if v.session.Some? && m.RatchetMessage? {
      var s := v.session.value;
      var r := Decrypt(slot, s, m.ct, m.header, v.nextId);
      DecryptSendHalf(slot, s, m.ct, m.header, v.nextId);
      if r.Accepted? && !end.Unsaved? && !end.SaveFailed?
         && (r.next.rootKey != s.rootKey || r.next.chainKeySend != s.chainKeySend || r.next.nSend != s.nSend) {
        next' := Place(r.next.chainKeySend, 0);
      }
    }
  }

  lemma {:induction false} AfterTracked(slot: (Pub, nat) -> string, v: View, places: seq<Place>, next: Place,
                                        calls: seq<Call>)
    returns (places': seq<Place>, next': Place)
    requires Tracked(v, places, next)
    ensures Tracked(After(slot, v, calls), places', next')
  {
    places', next' := places, next;
    if calls != [] {
      places', next' := AfterTracked(slot, v, places, next, calls[..|calls| - 1]);
      var before := After(slot, v, calls[..|calls| - 1]);
      match calls[|calls| - 1]
      case SendCall(text, end) =>
        places', next' := SendTracked(before, places', next', text, end);
      case ReceiveCall(m, end) =>
        next' := IncomingTracked(slot, before, places', next', m, end);
    }
  }

  /** A session as an initialiser makes it from the secret `sk`. */
  ghost predicate StartsFrom(session: Session<string>, sk: Key) {
    (exists pub, newId :: session == InitSender(sk, pub, newId)) || (exists local :: session == InitReceiver(sk, local))
  }

  lemma {:induction false} StartTracked(session: Session<string>, sk: Key, nextId: KeyId)
    requires StartsFrom(session, sk)
    ensures Tracked(View(Some(session), [], [], nextId), [], Place(session.chainKeySend, 0))
  {
  }

  /** No two messages on the network are sealed under the same key, in any sequence of sends
      and receipts, each of which may stop at any point, and whatever messages arrive. */
  lemma {:induction false} NoKeyReuse(slot: (Pub, nat) -> string, session: Session<string>, sk: Key, nextId: KeyId,
                                      calls: seq<Call>, i: nat, j: nat)
    requires StartsFrom(session, sk)
    requires i < j < |After(slot, View(Some(session), [], [], nextId), calls).network|
    ensures var network := After(slot, View(Some(session), [], [], nextId), calls).network;
            network[i].ct.Sealed? && network[j].ct.Sealed? && network[i].ct.key != network[j].ct.key
  {
    hide After, Tracked;
    var start := View(Some(session), [], [], nextId);
    StartTracked(session, sk, nextId);
    var places, next := AfterTracked(slot, start, [], Place(session.chainKeySend, 0), calls);
    PlacesDiffer(After(slot, start, calls), places, next, i, j);
  }

  lemma {:induction false} PlacesDiffer(v: View, places: seq<Place>, next: Place, i: nat, j: nat)
    requires Tracked(v, places, next) && i < j < |v.network|
    ensures v.network[i].ct.Sealed? && v.network[j].ct.Sealed? && v.network[i].ct.key != v.network[j].ct.key
  {
    assert PlacedAt(v.network[i], places[i], next) && PlacedAt(v.network[j], places[j], next);
    EarlierKeysDiffer(v.network[i].ct.key, places[i], v.network[j].ct.key, places[j]);
  }

  // ---- Keys of different conversations ----

  /** Everything sealed comes from the conversation's secret or the all-zero chain. */
  ghost predicate OfSecret(v: View, sk: Key) {
    && (v.session.Some? ==>
          Origin(v.session.value.rootKey) == Origin(sk) && KeyOfSecret(MessageKey(v.session.value.chainKeySend), sk))
    && (forall i | 0 <= i < |v.network| :: v.network[i].ct.Sealed? && KeyOfSecret(v.network[i].ct.key, sk))
  }

  ghost predicate KeyOfSecret(key: Key, sk: Key) {
    ZeroKey(key) || Origin(key) == Origin(sk)
  }

  lemma {:induction false} DecryptOrigin<K>(slot: (Pub, nat) -> K, s: Session<K>, ct: Ciphertext, h: Header,
                                            newId: KeyId)
    ensures var r := Decrypt(slot, s, ct, h, newId);
            r.Accepted? ==>
              && Origin(r.next.rootKey) == Origin(s.rootKey)
              && (r.next.chainKeySend == s.chainKeySend || Origin(r.next.chainKeySend) == Origin(s.rootKey))
  {
    var a := Align(slot, s, h, newId);
    if slot(h.dh, h.n) !in s.skipped.entries && a.Some? {
      SkipSendHalf(slot, s, h.n);
      if h.dh != s.dhRecvPub {
        SkipSendHalf(slot, s, h.pn);
        SkipSendHalf(slot, DhRatchetStep(SkipMessageKeys(slot, s, h.pn).value, h.dh, newId), h.n);
      }
    }
  }

  lemma {:induction false} NextOfSecret(chain: Key, sk: Key)
    requires KeyOfSecret(MessageKey(chain), sk)
    ensures KeyOfSecret(MessageKey(NextChain(chain)), sk)
  {
    assert Origin(MessageKey(NextChain(chain))) == Origin(NextChain(chain)) == Origin(chain);
    assert chain == Advance(Zero, Rank(chain)) ==> NextChain(chain) == Advance(Zero, Rank(NextChain(chain)));
  }

  lemma {:induction false} StartOfSecret(session: Session<string>, sk: Key, nextId: KeyId)
    requires StartsFrom(session, sk)
    ensures OfSecret(View(Some(session), [], [], nextId), sk)
  {
    if exists pub, newId :: session == InitSender(sk, pub, newId) {
      assert Origin(MessageKey(session.chainKeySend)) == Origin(session.chainKeySend) == Origin(sk);
    } else {
      assert ZeroKey(MessageKey(session.chainKeySend));
    }
  }

  lemma {:induction false} SendOfSecret(v: View, text: Bytes, end: SendEnd, sk: Key)
    requires OfSecret(v, sk)
    ensures OfSecret(AfterSend(v, text, end), sk)
  {
    if v.session.Some? {
      NextOfSecret(v.session.value.chainKeySend, sk);
      hide KeyOfSecret;
    }
  }

  lemma {:induction false} IncomingOfSecret(slot: (Pub, nat) -> string, v: View, m: Incoming, end: ReceiveEnd, sk: Key)
    requires OfSecret(v, sk)
    ensures OfSecret(AfterIncoming(slot, v, m, end), sk)
  {
    hide Decrypt;
    if v.session.Some? && m.RatchetMessage? {
      DecryptOrigin(slot, v.session.value, m.ct, m.header, v.nextId);
    }
  }

  lemma {:induction false} AfterOfSecret(slot: (Pub, nat) -> string, v: View, calls: seq<Call>, sk: Key)
    requires OfSecret(v, sk)
    ensures OfSecret(After(slot, v, calls), sk)
  {
    hide OfSecret, AfterSend, AfterIncoming;
    if calls != [] {
      AfterOfSecret(slot, v, calls[..|calls| - 1], sk);
      var before := After(slot, v, calls[..|calls| - 1]);
      match calls[|calls| - 1]
      case SendCall(text, end) => SendOfSecret(before, text, end, sk);
      case ReceiveCall(m, end) => IncomingOfSecret(slot, before, m, end, sk);
    }
  }

  /** Messages of two conversations with different secrets share a key exactly when both are
      under the same number of the all-zero chain. */
  lemma {:induction false} KeysAcross(slot: (Pub, nat) -> string, s1: Session<string>, sk1: Key, id1: KeyId,
                                      calls1: seq<Call>, i: nat, s2: Session<string>, sk2: Key, id2: KeyId,
                                      calls2: seq<Call>, j: nat)
    requires StartsFrom(s1, sk1) && StartsFrom(s2, sk2) && Origin(sk1) != Origin(sk2)
    requires i < |After(slot, View(Some(s1), [], [], id1), calls1).network|
    requires j < |After(slot, View(Some(s2), [], [], id2), calls2).network|
    ensures var a := After(slot, View(Some(s1), [], [], id1), calls1).network[i].ct;
            var b := After(slot, View(Some(s2), [], [], id2), calls2).network[j].ct;
            && a.Sealed? && b.Sealed?
            && (a.key == b.key <==> ZeroKey(a.key) && ZeroKey(b.key) && Rank(a.key) == Rank(b.key))
  {
    hide After;
    StartOfSecret(s1, sk1, id1);
    StartOfSecret(s2, sk2, id2);
    AfterOfSecret(slot, View(Some(s1), [], [], id1), calls1, sk1);
    AfterOfSecret(slot, View(Some(s2), [], [], id2), calls2, sk2);
  }

  /** That does happen: the first messages of any two responders that have received nothing
      are under one key. */
  lemma {:induction false} FirstKeysShared(sk1: Key, local1: KeyId, text1: Bytes, sk2: Key, local2: KeyId, text2: Bytes)
    ensures Encrypt<string>(InitReceiver(sk1, local1), text1).0.ct == Sealed(MessageKey(Zero), text1)
    ensures Encrypt<string>(InitReceiver(sk2, local2), text2).0.ct == Sealed(MessageKey(Zero), text2)
  {
  }
}
