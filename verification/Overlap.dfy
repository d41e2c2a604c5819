/** Overlapping calls on one conversation: `web_sdk/src/conversation/one-to-one-conversation.ts`.

    A call loads the stored session, works on its copy and saves the result; nothing keeps
    another call from loading or saving in between. */
module Overlap {
  import opened Encoding
  import opened Terms
  import opened Ratchet
  import opened Conversation

  /** The sessions saved so far, the last of which is stored; for each call in flight the
      number of the session it loaded; and the envelopes that were sealed and saved. */
  datatype State = State(saved: seq<Session<string>>, flights: map<nat, nat>, sealed: seq<Envelope>, nextId: KeyId)

  datatype Step =
    | Load(t: nat)
    | SaveSend(t: nat, text: Bytes)
    | SaveIncoming(t: nat, header: Header, ct: Ciphertext)
    | Stop(t: nat)

  ghost predicate Valid(s: State) {
    && s.saved != []
    && (forall t | t in s.flights :: s.flights[t] < |s.saved|)
  }

  function Act(slot: (Pub, nat) -> string, s: State, step: Step): State {
    if step.Load? then
      if s.saved == [] then s else s.(flights := s.flights[step.t := |s.saved| - 1])
    else if step.t !in s.flights || s.flights[step.t] >= |s.saved| then s
    else
      var loaded, rest := s.saved[s.flights[step.t]], s.(flights := s.flights - {step.t});
      match step
      case SaveSend(_, text) =>
        var (env, next) := Encrypt(loaded, text);
        rest.(saved := s.saved + [next], sealed := s.sealed + [env])
      case SaveIncoming(_, header, ct) =>
        var r := Decrypt(slot, loaded, ct, header, s.nextId);
        rest.(saved := if r.Accepted? then s.saved + [r.next] else s.saved, nextId := s.nextId + 1)
      case _ => rest
  }

  function Run(slot: (Pub, nat) -> string, s: State, steps: seq<Step>): State {
    if steps == [] then s else Act(slot, Run(slot, s, steps[..|steps| - 1]), steps[|steps| - 1])
  }

  function Start(session: Session<string>, nextId: KeyId): State {
    State([session], map[], [], nextId)
  }

  /** The step saves a session made from one that another save has replaced. */
  ghost predicate Stale(s: State, step: Step) {
    (step.SaveSend? || step.SaveIncoming?) && step.t in s.flights && s.flights[step.t] + 1 < |s.saved|
  }

  ghost predicate NeverStale(slot: (Pub, nat) -> string, s: State, steps: seq<Step>) {
    steps != [] ==>
      && NeverStale(slot, s, steps[..|steps| - 1])
      && !Stale(Run(slot, s, steps[..|steps| - 1]), steps[|steps| - 1])
  }

  ghost predicate KeysDistinct(sealed: seq<Envelope>) {
    forall i, j | 0 <= i < j < |sealed| :: KeysDiffer(sealed[i], sealed[j])
  }

  ghost predicate KeysDiffer(a: Envelope, b: Envelope) {
    a.ct.Sealed? && b.ct.Sealed? && a.ct.key != b.ct.key
  }

  // ---- Without overlap ----

  /** What calls one after the other would see. */
  ghost function Serial(s: State): View
    requires s.saved != []
  {
    View(Some(s.saved[|s.saved| - 1]), s.sealed, [], s.nextId)
  }

  lemma {:induction false} ActValid(slot: (Pub, nat) -> string, s: State, step: Step)
    requires Valid(s)
    ensures Valid(Act(slot, s, step))
  {
    hide Decrypt, Encrypt;
  }

  /** A save that is not stale is a call of its own. */
  lemma {:induction false} FreshIsSerial(slot: (Pub, nat) -> string, s: State, step: Step)
    requires Valid(s) && !Stale(s, step)
    ensures Act(slot, s, step).saved != []
    ensures var v := Serial(Act(slot, s, step));
            || v == Serial(s)
            || (step.SaveSend? && v == AfterSend(Serial(s), step.text, ReplyLost))
            || (step.SaveIncoming?
                && v == AfterIncoming(slot, Serial(s), RatchetMessage(step.header, step.ct), Unshown))
  {
    hide Decrypt, Encrypt;
  }

  lemma {:induction false} NeverStaleTracked(slot: (Pub, nat) -> string, s: State, steps: seq<Step>, places: seq<Place>,
                                             next: Place)
    returns (places': seq<Place>, next': Place)
    requires Valid(s) && NeverStale(slot, s, steps) && Tracked(Serial(s), places, next)
    ensures Valid(Run(slot, s, steps)) && Tracked(Serial(Run(slot, s, steps)), places', next')
  {
    hide Act, Tracked, AfterSend, AfterIncoming;
    places', next' := places, next;
    if steps != [] {
      places', next' := NeverStaleTracked(slot, s, steps[..|steps| - 1], places, next);
      var before, last := Run(slot, s, steps[..|steps| - 1]), steps[|steps| - 1];
      ActValid(slot, before, last);
      FreshIsSerial(slot, before, last);
      var v := Serial(Act(slot, before, last));
      if v != Serial(before) {
        match last
        case SaveSend(_, text) =>
          places', next' := SendTracked(Serial(before), places', next', text, ReplyLost);
        case SaveIncoming(_, header, ct) =>
          next' := IncomingTracked(slot, Serial(before), places', next', RatchetMessage(header, ct), Unshown);
        case _ =>
      }
    }
  }

  lemma {:induction false} TrackedDistinct(v: View, places: seq<Place>, next: Place)
    requires Tracked(v, places, next)
    ensures KeysDistinct(v.network)
  {
    forall i, j | 0 <= i < j < |v.network|
      ensures KeysDiffer(v.network[i], v.network[j])
    {
      PlacesDiffer(v, places, next, i, j);
    }
  }

  /** In every run of sends and receipts in which nothing is saved between the load and the
      save of a call, no key seals two messages. */
  lemma {:induction false} FreshKeysDistinct(slot: (Pub, nat) -> string, session: Session<string>, sk: Key,
                                             nextId: KeyId, steps: seq<Step>)
    requires StartsFrom(session, sk) && NeverStale(slot, Start(session, nextId), steps)
    ensures KeysDistinct(Run(slot, Start(session, nextId), steps).sealed)
  {
    var start := Start(session, nextId);
    var place := Place(session.chainKeySend, 0);
    assert Tracked(Serial(start), [], place) by {
      StartTracked(session, sk, nextId);
    }
    var places, next := NeverStaleTracked(slot, start, steps, [], place);
    TrackedDistinct(Serial(Run(slot, start, steps)), places, next);
  }

  // ---- With overlap ----

  ghost predicate OnlySends(steps: seq<Step>) {
    forall k | 0 <= k < |steps| :: !steps[k].SaveIncoming?
  }

  /** While no save was stale, message `k` was sealed by the `k`-th saved session. */
  ghost predicate SealedInOrder(s: State) {
    && |s.saved| == |s.sealed| + 1
    && (forall k | 0 <= k < |s.sealed| ::
          s.sealed[k].ct.Sealed? && s.sealed[k].ct.key == MessageKey(s.saved[k].chainKeySend))
  }

  /** Two messages are sealed under one key, with one header. */
  ghost predicate Repeated(sealed: seq<Envelope>, i: nat, j: nat) {
    && i < j < |sealed| && sealed[i].ct.Sealed? && sealed[j].ct.Sealed?
    && sealed[i].ct.key == sealed[j].ct.key
  }

  lemma {:induction false} StaleRepeats(slot: (Pub, nat) -> string, s: State, steps: seq<Step>)
    requires Valid(s) && SealedInOrder(s) && OnlySends(steps)
    ensures Valid(Run(slot, s, steps))
    ensures if NeverStale(slot, s, steps) then SealedInOrder(Run(slot, s, steps))
            else exists i: nat, j: nat :: Repeated(Run(slot, s, steps).sealed, i, j)
  {
    if steps != [] {
      var front, last := steps[..|steps| - 1], steps[|steps| - 1];
      StaleRepeats(slot, s, front);
      var before := Run(slot, s, front);
      ActValid(slot, before, last);
      if NeverStale(slot, s, front) {
        if Stale(before, last) {
          assert Repeated(Act(slot, before, last).sealed, before.flights[last.t], |before.sealed|);
        }
      } else {
        var i: nat, j: nat :| Repeated(before.sealed, i, j);
        assert Repeated(Act(slot, before, last).sealed, i, j);
      }
    }
  }

  /** In a run of sends only, all messages are sealed under different keys exactly when no send
      saves between the load and the save of another. */
  lemma {:induction false} SendsDistinctExactly(slot: (Pub, nat) -> string, session: Session<string>, sk: Key,
                                                nextId: KeyId, steps: seq<Step>)
    requires StartsFrom(session, sk) && OnlySends(steps)
    ensures KeysDistinct(Run(slot, Start(session, nextId), steps).sealed)
            <==> NeverStale(slot, Start(session, nextId), steps)
  {
    hide Run, NeverStale;
    var end := Run(slot, Start(session, nextId), steps);
    if NeverStale(slot, Start(session, nextId), steps) {
      FreshKeysDistinct(slot, session, sk, nextId, steps);
    } else {
      StaleRepeats(slot, Start(session, nextId), steps);
      var i: nat, j: nat :| Repeated(end.sealed, i, j);
      assert !KeysDiffer(end.sealed[i], end.sealed[j]);
    }
  }

  // ---- Sends and receipts ----

  /** Where the sending chain of a key pair comes from: the initialiser, or a ratchet step of a
      session with this root and private key on a received public key. */
  datatype Birth = First(chain: Key) | Ratcheted(root: Key, priv: KeyId, received: Pub)

  ghost function ChainStart(id: KeyId, birth: Birth): Key {
    match birth
    case First(chain) => chain
    case Ratcheted(root, priv, received) => ChainOf(RootOf(root, Dh(priv, received)), Dh(id, received))
  }

  ghost predicate BirthOk(sk: Key, first: KeyId, id: KeyId, birth: Birth) {
    match birth
    case First(chain) => id == first && (chain == Zero || (chain.ChainOf? && chain.root == sk))
    case Ratcheted(root, priv, _) => priv < id && Rank(sk) <= Rank(root)
  }

  /** Two key pairs never start the same chain: roots only get deeper, and a key pair cannot
      have been used before it was generated. */
  lemma {:induction false} ChainStartInjective(sk: Key, first: KeyId, a: KeyId, x: Birth, b: KeyId, y: Birth)
    requires BirthOk(sk, first, a, x) && BirthOk(sk, first, b, y) && ChainStart(a, x) == ChainStart(b, y)
    ensures a == b
  {
    assert x.Ratcheted? ==> Rank(RootOf(x.root, Dh(x.priv, x.received))) > Rank(sk);
    assert y.Ratcheted? ==> Rank(RootOf(y.root, Dh(y.priv, y.received))) > Rank(sk);
  }

  ghost predicate SessionBorn(sk: Key, births: map<KeyId, Birth>, s: Session<string>) {
    && s.dhSendPriv in births && s.dhSendPub == PubOf(s.dhSendPriv) && Rank(sk) <= Rank(s.rootKey)
    && s.chainKeySend == Advance(ChainStart(s.dhSendPriv, births[s.dhSendPriv]), s.nSend)
  }

  ghost predicate EnvelopeBorn(births: map<KeyId, Birth>, env: Envelope) {
    && env.header.dh.PubOf? && env.header.dh.id in births && env.ct.Sealed?
    && env.ct.key == MessageKey(Advance(ChainStart(env.header.dh.id, births[env.header.dh.id]), env.header.n))
  }

  /** Every key pair has one chain, and every saved session and sealed message is on the chain
      of its key pair. */
  ghost predicate Born(sk: Key, first: KeyId, births: map<KeyId, Birth>, s: State) {
    && (forall id | id in births :: id < s.nextId && BirthOk(sk, first, id, births[id]))
    && (forall k | 0 <= k < |s.saved| :: SessionBorn(sk, births, s.saved[k]))
    && (forall k | 0 <= k < |s.sealed| :: EnvelopeBorn(births, s.sealed[k]))
  }

  lemma {:induction false} IncomingBorn(slot: (Pub, nat) -> string, sk: Key, births: map<KeyId, Birth>,
                                        s: Session<string>, ct: Ciphertext, h: Header, newId: KeyId)
    requires SessionBorn(sk, births, s) && newId !in births && s.dhSendPriv < newId
    ensures var r := Decrypt(slot, s, ct, h, newId);
            var birth := Ratcheted(s.rootKey, s.dhSendPriv, h.dh);
            r.Accepted? ==> SessionBorn(sk, births[newId := birth], r.next)
  {
    hide Decrypt;
    DecryptKeyPair(slot, s, ct, h, newId);
    var root := RootOf(s.rootKey, Dh(s.dhSendPriv, h.dh));
    assert Rank(RootOf(root, Dh(newId, h.dh))) == 1 + Rank(root);
  }

  /** A new key pair leaves the others on their chains. */
  lemma {:induction false} AddBirth(sk: Key, first: KeyId, births: map<KeyId, Birth>, s: State, birth: Birth)
    requires Born(sk, first, births, s) && BirthOk(sk, first, s.nextId, birth)
    ensures Born(sk, first, births[s.nextId := birth], s.(nextId := s.nextId + 1))
  {
    hide BirthOk, ChainStart;
    var births' := births[s.nextId := birth];
    forall k | 0 <= k < |s.saved|
      ensures SessionBorn(sk, births', s.saved[k])
    {
      assert SessionBorn(sk, births, s.saved[k]);
    }
    forall k | 0 <= k < |s.sealed|
      ensures EnvelopeBorn(births', s.sealed[k])
    {
      assert EnvelopeBorn(births, s.sealed[k]);
    }
  }

  /** Whatever is added on the chain of its key pair keeps the rest. */
  lemma {:induction false} GrowBorn(sk: Key, first: KeyId, births: map<KeyId, Birth>, s: State,
                                    saved: seq<Session<string>>, sealed: seq<Envelope>, s': State)
    requires Born(sk, first, births, s)
    requires forall k | 0 <= k < |saved| :: SessionBorn(sk, births, saved[k])
    requires forall k | 0 <= k < |sealed| :: EnvelopeBorn(births, sealed[k])
    requires s'.saved == s.saved + saved && s'.sealed == s.sealed + sealed && s'.nextId == s.nextId
    ensures Born(sk, first, births, s')
  {
    hide SessionBorn, EnvelopeBorn, BirthOk;
  }

  lemma {:induction false} ReceiptBorn(slot: (Pub, nat) -> string, sk: Key, first: KeyId, births: map<KeyId, Birth>,
                                       s: State, step: Step)
    returns (births': map<KeyId, Birth>)
    requires Valid(s) && Born(sk, first, births, s) && step.SaveIncoming? && step.t in s.flights
    ensures Born(sk, first, births', Act(slot, s, step))
  {
    hide Decrypt, ChainStart;
    var loaded := s.saved[s.flights[step.t]];
    assert SessionBorn(sk, births, loaded);
    var birth := Ratcheted(loaded.rootKey, loaded.dhSendPriv, step.header.dh);
    births' := births[s.nextId := birth];
    AddBirth(sk, first, births, s, birth);
    IncomingBorn(slot, sk, births, loaded, step.ct, step.header, s.nextId);
    hide Born, SessionBorn, EnvelopeBorn, BirthOk;
    var r := Decrypt(slot, loaded, step.ct, step.header, s.nextId);
    GrowBorn(sk, first, births', s.(nextId := s.nextId + 1), if r.Accepted? then [r.next] else [], [],
             Act(slot, s, step));
  }

  lemma {:induction false} SendBorn(slot: (Pub, nat) -> string, sk: Key, first: KeyId, births: map<KeyId, Birth>,
                                    s: State, step: Step)
    requires Valid(s) && Born(sk, first, births, s) && step.SaveSend? && step.t in s.flights
    ensures Born(sk, first, births, Act(slot, s, step))
  {
    hide ChainStart;
    var loaded := s.saved[s.flights[step.t]];
    assert SessionBorn(sk, births, loaded);
    var (env, next) := Encrypt(loaded, step.text);
    assert SessionBorn(sk, births, next) && EnvelopeBorn(births, env);
    hide Born, SessionBorn, EnvelopeBorn;
    GrowBorn(sk, first, births, s, [next], [env], Act(slot, s, step));
  }

  lemma {:induction false} ActBorn(slot: (Pub, nat) -> string, sk: Key, first: KeyId, births: map<KeyId, Birth>,
                                   s: State, step: Step)
    returns (births': map<KeyId, Birth>)
    requires Valid(s) && Born(sk, first, births, s)
    ensures Born(sk, first, births', Act(slot, s, step))
  {
    hide Decrypt, SessionBorn, EnvelopeBorn, BirthOk;
    births' := births;
    if step.SaveIncoming? && step.t in s.flights {
      births' := ReceiptBorn(slot, sk, first, births, s, step);
    } else if step.SaveSend? && step.t in s.flights {
      SendBorn(slot, sk, first, births, s, step);
    }
  }

  lemma {:induction false} RunBorn(slot: (Pub, nat) -> string, sk: Key, first: KeyId, births: map<KeyId, Birth>,
                                   s: State, steps: seq<Step>)
    returns (births': map<KeyId, Birth>)
    requires Valid(s) && Born(sk, first, births, s)
    ensures Valid(Run(slot, s, steps)) && Born(sk, first, births', Run(slot, s, steps))
  {
    hide Act, Born;
    births' := births;
    if steps != [] {
      births' := RunBorn(slot, sk, first, births, s, steps[..|steps| - 1]);
      ActValid(slot, Run(slot, s, steps[..|steps| - 1]), steps[|steps| - 1]);
      births' := ActBorn(slot, sk, first, births', Run(slot, s, steps[..|steps| - 1]), steps[|steps| - 1]);
    }
  }

  ghost predicate SamePlace(a: Header, b: Header) {
    a.dh == b.dh && a.n == b.n
  }

  lemma {:induction false} KeyIsPlace(sk: Key, first: KeyId, births: map<KeyId, Birth>, a: Envelope, b: Envelope)
    requires EnvelopeBorn(births, a) && EnvelopeBorn(births, b)
    requires forall id | id in births :: BirthOk(sk, first, id, births[id])
    ensures a.ct.key == b.ct.key <==> SamePlace(a.header, b.header)
  {
    if a.ct.key == b.ct.key {
      var i, j := a.header.dh.id, b.header.dh.id;
      AdvanceInjective(ChainStart(i, births[i]), a.header.n, ChainStart(j, births[j]), b.header.n);
      ChainStartInjective(sk, first, i, births[i], j, births[j]);
    }
  }

  /** The session comes from an initialiser, with a key pair that was generated. */
  ghost predicate Starts(session: Session<string>, sk: Key, nextId: KeyId) {
    StartsFrom(session, sk) && session.dhSendPriv < nextId
  }

  lemma {:induction false} StartBorn(session: Session<string>, sk: Key, nextId: KeyId)
    requires Starts(session, sk, nextId)
    ensures var first := session.dhSendPriv;
            Born(sk, first, map[first := First(session.chainKeySend)], Start(session, nextId))
  {
  }

  /** In every run of sends and receipts, however they overlap and whatever arrives, two sealed
      messages share a key exactly when they carry the same ratchet key and number. */
  lemma {:induction false} KeysExact(slot: (Pub, nat) -> string, session: Session<string>, sk: Key, nextId: KeyId,
                                     steps: seq<Step>, i: nat, j: nat)
    requires Starts(session, sk, nextId)
    requires i < j < |Run(slot, Start(session, nextId), steps).sealed|
    ensures var sealed := Run(slot, Start(session, nextId), steps).sealed;
            && sealed[i].ct.Sealed? && sealed[j].ct.Sealed?
            && (sealed[i].ct.key == sealed[j].ct.key <==> SamePlace(sealed[i].header, sealed[j].header))
  {
    hide Run;
    var first := session.dhSendPriv;
    StartBorn(session, sk, nextId);
    var births := RunBorn(slot, sk, first, map[first := First(session.chainKeySend)], Start(session, nextId), steps);
    var end := Run(slot, Start(session, nextId), steps);
    KeyIsPlace(sk, first, births, end.sealed[i], end.sealed[j]);
  }

  /** The step sends from a session whose place in the chain a message has already. */
  ghost predicate Reuses(s: State, step: Step) {
    && step.SaveSend? && step.t in s.flights && s.flights[step.t] < |s.saved|
    && var loaded := s.saved[s.flights[step.t]];
       exists k :: 0 <= k < |s.sealed| && SamePlace(s.sealed[k].header, Header(loaded.dhSendPub, loaded.nSend, 0))
  }

  ghost predicate NeverReuses(slot: (Pub, nat) -> string, s: State, steps: seq<Step>) {
    steps != [] ==>
      && NeverReuses(slot, s, steps[..|steps| - 1])
      && !Reuses(Run(slot, s, steps[..|steps| - 1]), steps[|steps| - 1])
  }

  ghost predicate PlacesDistinct(sealed: seq<Envelope>) {
    forall i, j | 0 <= i < j < |sealed| :: !SamePlace(sealed[i].header, sealed[j].header)
  }

  lemma {:induction false} ActPlaces(slot: (Pub, nat) -> string, s: State, step: Step)
    requires Valid(s)
    ensures PlacesDistinct(Act(slot, s, step).sealed) <==> PlacesDistinct(s.sealed) && !Reuses(s, step)
  {
    hide Decrypt;
    var sealed, sealed' := s.sealed, Act(slot, s, step).sealed;
    if step.SaveSend? && step.t in s.flights {
      assert forall k | 0 <= k < |sealed| :: sealed'[k] == sealed[k];
      var loaded := s.saved[s.flights[step.t]];
      assert SamePlace(sealed'[|sealed|].header, Header(loaded.dhSendPub, loaded.nSend, 0));
    }
  }

  lemma {:induction false} RunPlaces(slot: (Pub, nat) -> string, s: State, steps: seq<Step>)
    requires Valid(s) && s.sealed == []
    ensures Valid(Run(slot, s, steps))
    ensures PlacesDistinct(Run(slot, s, steps).sealed) <==> NeverReuses(slot, s, steps)
  {
    hide Act, Reuses;
    if steps != [] {
      RunPlaces(slot, s, steps[..|steps| - 1]);
      ActValid(slot, Run(slot, s, steps[..|steps| - 1]), steps[|steps| - 1]);
      ActPlaces(slot, Run(slot, s, steps[..|steps| - 1]), steps[|steps| - 1]);
    }
  }

  /** In every run of sends and receipts, however they overlap, all messages are sealed under
      different keys exactly when no send works on a session whose place in the chain was used
      before. */
  lemma {:induction false} KeysDistinctExactly(slot: (Pub, nat) -> string, session: Session<string>, sk: Key,
                                               nextId: KeyId, steps: seq<Step>)
    requires Starts(session, sk, nextId)
    ensures KeysDistinct(Run(slot, Start(session, nextId), steps).sealed)
            <==> NeverReuses(slot, Start(session, nextId), steps)
  {
    hide Run, NeverReuses;
    var sealed := Run(slot, Start(session, nextId), steps).sealed;
    RunPlaces(slot, Start(session, nextId), steps);
    forall i: nat, j: nat | i < j < |sealed|
      ensures KeysDiffer(sealed[i], sealed[j]) <==> !SamePlace(sealed[i].header, sealed[j].header)
    {
      KeysExact(slot, session, sk, nextId, steps, i, j);
    }
  }

  /** The smallest run that does: two sends that both load before either saves. */
  lemma {:induction false} OverlapInput(slot: (Pub, nat) -> string, session: Session<string>, nextId: KeyId,
                                        text: Bytes, other: Bytes)
    ensures var loaded := Act(slot, Act(slot, Start(session, nextId), Load(0)), Load(1));
            var end := Act(slot, Act(slot, loaded, SaveSend(0, text)), SaveSend(1, other));
            && |end.sealed| == 2
            && end.sealed[0].header == end.sealed[1].header
            && end.sealed[0].ct == Sealed(MessageKey(session.chainKeySend), text)
            && end.sealed[1].ct == Sealed(MessageKey(session.chainKeySend), other)
  {
  }

  /** A receipt does it too: it loads, a send saves, and the receipt puts the sending chain back
      where it was.  No send saves between the load and the save of another. */
  lemma {:induction false} ReceiptInput(slot: (Pub, nat) -> string, sk: Key, bob: KeyId, alice: KeyId, nextId: KeyId,
                                        text: Bytes, incoming: Bytes, other: Bytes)
    ensures var session := InitSender(sk, PubOf(bob), alice);
            var sent := Act(slot, Act(slot, Act(slot, Start(session, nextId), Load(0)), Load(1)), SaveSend(1, text));
            var receipt := SaveIncoming(0, Header(PubOf(bob), 0, 0), Sealed(MessageKey(Zero), incoming));
            var rewound := Act(slot, sent, receipt);
            var end := Act(slot, Act(slot, rewound, Load(2)), SaveSend(2, other));
            && Stale(sent, receipt) && KeysDistinct(rewound.sealed)
            && |end.sealed| == 2
            && end.sealed[0].header == end.sealed[1].header
            && end.sealed[0].ct == Sealed(MessageKey(session.chainKeySend), text)
            && end.sealed[1].ct == Sealed(MessageKey(session.chainKeySend), other)
  {
    var session := InitSender(sk, PubOf(bob), alice);
    var loaded := Act(slot, Act(slot, Start(session, nextId), Load(0)), Load(1));
    assert loaded == State([session], map[0 := 0, 1 := 0], [], nextId);
    var sent := Act(slot, loaded, SaveSend(1, text));
    var receipt := SaveIncoming(0, Header(PubOf(bob), 0, 0), Sealed(MessageKey(Zero), incoming));
    assert sent.saved[0] == session;
    var rewound := Act(slot, sent, receipt);
    assert |rewound.saved| == 3 && rewound.saved[2] == session.(chainKeyRecv := NextChain(Zero), nRecv := 1);
  }
}
