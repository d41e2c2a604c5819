/** Two parties, a network that may reorder, lose, repeat, reflect and forge, and the
    mailbox that the parties see instead. */
module Delivery {
  import opened Encoding
  import opened Terms
  import opened Ratchet
  import opened Mailbox
  import opened Epochs
  import opened Party

  datatype Side = Initiator | Responder

  function Peer(side: Side): Side {
    if side == Initiator then Responder else Initiator
  }

  /** The two sessions, everything either party ever sent, and the supply of key pairs. */
  datatype World<K> = World(initiator: Session<K>, responder: Session<K>,
                            fromInitiator: seq<Envelope>, fromResponder: seq<Envelope>, nextId: KeyId)
  {
    function SessionOf(side: Side): Session<K> {
      if side == Initiator then initiator else responder
    }

    function SentBy(side: Side): seq<Envelope> {
      if side == Initiator then fromInitiator else fromResponder
    }

    function WithSession(side: Side, session: Session<K>): World<K> {
      if side == Initiator then this.(initiator := session) else this.(responder := session)
    }

    function WithSent(side: Side, envelope: Envelope): World<K> {
      if side == Initiator then this.(fromInitiator := fromInitiator + [envelope])
      else this.(fromResponder := fromResponder + [envelope])
    }
  }

  /** What can happen.  A lost message is one that no step ever delivers, a repeated one is
      delivered by several steps. */
  datatype Step =
    | Send(from: Side, text: Bytes)
    | Deliver(to: Side, i: nat)                        // the peer's message number i
    | Reflect(to: Side, i: nat, header: Header)        // the party's own ciphertext i under any header
    | Reheader(to: Side, i: nat, header: Header)       // the peer's ciphertext i under any header
    | Inject(to: Side, header: Header, ct: Ciphertext) // anything from outside

  datatype Event = Sent | Received(text: Bytes) | Refused

  /** The new session is kept only if decryption succeeds. */
  function Outcome<K>(w: World<K>, to: Side, d: Decryption<K>): (World<K>, Event) {
    var w' := w.(nextId := w.nextId + 1);
    match d
    case Accepted(text, next) => (w'.WithSession(to, next), Received(text))
    case Rejected => (w', Refused)
  }

  function Attempt<K(==)>(slot: (Pub, nat) -> K, w: World<K>, to: Side, ct: Ciphertext,
                          header: Header): (World<K>, Event) {
    Outcome(w, to, Decrypt(slot, w.SessionOf(to), ct, header, w.nextId))
  }

  function Act<K(==)>(slot: (Pub, nat) -> K, w: World<K>, step: Step): (World<K>, Event) {
    match step
    case Send(from, text) =>
      var (env, next) := Encrypt(w.SessionOf(from), text);
      (w.WithSession(from, next).WithSent(from, env), Sent)
    case Deliver(to, i) =>
      var log := w.SentBy(Peer(to));
      if i < |log| then Attempt(slot, w, to, log[i].ct, log[i].header) else (w, Refused)
    case Reflect(to, i, header) =>
      var log := w.SentBy(to);
      if i < |log| then Attempt(slot, w, to, log[i].ct, header) else (w, Refused)
    case Reheader(to, i, header) =>
      var log := w.SentBy(Peer(to));
      if i < |log| then Attempt(slot, w, to, log[i].ct, header) else (w, Refused)
    case Inject(to, header, ct) => Attempt(slot, w, to, ct, header)
  }

  function Run<K(==)>(slot: (Pub, nat) -> K, w: World<K>, steps: seq<Step>): (World<K>, seq<Event>) {
    if steps == [] then (w, [])
    else
      var (before, events) := Run(slot, w, steps[..|steps| - 1]);
      var (after, event) := Act(slot, before, steps[|steps| - 1]);
      (after, events + [event])
  }

  /** Both parties right after initialisation with one shared secret: the responder's key
      pair is `bobKey`, the initiator's is generated. */
  function Start<K>(sk: Key, bobKey: KeyId, aliceKey: KeyId, nextId: KeyId): World<K> {
    World(InitSender(sk, PubOf(bobKey), aliceKey), InitReceiver(sk, bobKey), [], [], nextId)
  }

  // ---- The mailboxes ----

  datatype Net = Net(toInitiator: Mailbox, toResponder: Mailbox) {
    function BoxOf(side: Side): Mailbox {
      if side == Initiator then toInitiator else toResponder
    }

    function WithBox(side: Side, box: Mailbox): Net {
      if side == Initiator then this.(toInitiator := box) else this.(toResponder := box)
    }
  }

  const EMPTY_NET := Net(Mailbox([], {}), Mailbox([], {}))

  ghost function NetAct(net: Net, step: Step): (Net, Event) {
    match step
    case Send(from, text) =>
      var box := net.BoxOf(Peer(from));
      (net.WithBox(Peer(from), box.(log := box.log + [text])), Sent)
    case Deliver(to, i) =>
      var box := net.BoxOf(to);
      if CanTake(box, i, MAX_SKIP) then (net.WithBox(to, box.(taken := box.taken + {i})), Received(box.log[i]))
      else (net, Refused)
    case _ => (net, Refused)
  }

  ghost function NetRun(net: Net, steps: seq<Step>): (Net, seq<Event>) {
    if steps == [] then (net, [])
    else
      var (before, events) := NetRun(net, steps[..|steps| - 1]);
      var (after, event) := NetAct(before, steps[|steps| - 1]);
      (after, events + [event])
  }

  /** The responder has received nothing, so it takes number `n` of the all-zero chain under
      a header with the all-zero key. */
  ghost predicate StillZero(net: Net, header: Header, n: nat) {
    net.toResponder.taken == {} && header.dh == ZeroPub && header.n == n <= MAX_SKIP
  }

  /** When a party opens number `n` of the all-zero chain, in terms of what it has accepted
      and what its session listens to. */
  ghost predicate ZeroOpens<K>(slot: (Pub, nat) -> K, first: KeyId, w: World<K>, net: Net, to: Side, header: Header,
                               n: nat) {
    match to
    case Responder => StillZero(net, header, n)
    case Initiator =>
      && header.dh == PubOf(first)
      && var sess := w.initiator;
         if slot(header.dh, header.n) in sess.skipped.entries then header.n == n
         else sess.dhRecvPub == header.dh && n == (if sess.nRecv < header.n then header.n else sess.nRecv)
              && sess.skipped.size + (n - sess.nRecv) <= MAX_SKIP
  }

  /** The noise the network may make in a conversation with the secret `sk` and the
      responder's first key `first`.  A peer's header is altered only on a ciphertext that
      was accepted before; an injected ciphertext was not made from `sk`, and if it is under
      the all-zero chain, which everyone knows, it meets no session that opens it. */
  ghost predicate Allowed<K>(slot: (Pub, nat) -> K, sk: Key, first: KeyId, w: World<K>, net: Net, step: Step) {
    match step
    case Reheader(to, i, _) => i in net.BoxOf(to).taken
    case Reflect(to, i, header) => to == Responder ==> !StillZero(net, header, i)
    case Inject(to, header, ct) =>
      Outside(sk, ct) || (ZeroKey(ct.key) && !ZeroOpens(slot, first, w, net, to, header, Rank(ct.key.chain)))
    case _ => true
  }

  ghost predicate AllAllowed<K>(slot: (Pub, nat) -> K, sk: Key, first: KeyId, w: World<K>, net: Net, steps: seq<Step>) {
    steps != [] ==>
      && var before := steps[..|steps| - 1];
      && AllAllowed(slot, sk, first, w, net, before)
      && Allowed(slot, sk, first, Run(slot, w, before).0, NetRun(net, before).0, steps[|steps| - 1])
  }

  // ---- The invariant ----

  datatype Trace = Trace(g: History, epochInitiator: seq<nat>, epochResponder: seq<nat>) {
    function EpochOf(side: Side): seq<nat> {
      if side == Initiator then epochInitiator else epochResponder
    }

    function WithEpoch(side: Side, e: nat): Trace {
      if side == Initiator then this.(epochInitiator := epochInitiator + [e])
      else this.(epochResponder := epochResponder + [e])
    }
  }

  function Parity(side: Side): nat {
    if side == Initiator then 1 else 0
  }

  /** The epoch `side` sends in: the newest or the one before. */
  ghost function Epoch(g: History, side: Side): nat
    requires |g.keys| >= 2
  {
    if (|g.keys| - 1) % 2 == Parity(side) then |g.keys| - 1 else |g.keys| - 2
  }

  lemma {:induction false} EpochParity(g: History, side: Side)
    requires |g.keys| >= 2
    ensures Epoch(g, side) % 2 == Parity(side)
    ensures (Epoch(g, Peer(side)) + 1) % 2 == Epoch(g, side) % 2
    ensures (Epoch(g, side) + 1) % 2 == Epoch(g, Peer(side)) % 2
  {
  }

  ghost function InboxOf<K>(w: World<K>, net: Net, tr: Trace, side: Side): Inbox {
    Inbox(w.SentBy(Peer(side)), net.BoxOf(side).log, tr.EpochOf(Peer(side)), net.BoxOf(side).taken)
  }

  ghost predicate SideOk<K>(slot: (Pub, nat) -> K, w: World<K>, net: Net, tr: Trace, side: Side) {
    && |tr.g.keys| >= 2
    && PartyOk(slot, tr.g, Epoch(tr.g, side), w.SessionOf(side), |w.SentBy(side)|, InboxOf(w, net, tr, side))
  }

  ghost predicate Inv<K>(slot: (Pub, nat) -> K, w: World<K>, net: Net, tr: Trace) {
    && SideOk(slot, w, net, tr, Initiator)
    && SideOk(slot, w, net, tr, Responder)
    && (forall e | 0 <= e < |tr.g.keys| :: tr.g.keys[e] < w.nextId)
  }

  /** The secret and the responder's first key never change. */
  ghost predicate SameStart(tr: Trace, tr': Trace) {
    |tr.g.keys| > 0 && |tr'.g.keys| > 0 && tr'.g.sk == tr.g.sk && tr'.g.keys[0] == tr.g.keys[0]
  }

  lemma {:induction false} InvOf<K>(slot: (Pub, nat) -> K, w: World<K>, net: Net, tr: Trace, side: Side)
    requires Inv(slot, w, net, tr)
    ensures SideOk(slot, w, net, tr, side) && SideOk(slot, w, net, tr, Peer(side))
  {
  }

  lemma {:induction false} InvFrom<K>(slot: (Pub, nat) -> K, w: World<K>, net: Net, tr: Trace, side: Side)
    requires SideOk(slot, w, net, tr, side) && SideOk(slot, w, net, tr, Peer(side))
    requires forall e | 0 <= e < |tr.g.keys| :: tr.g.keys[e] < w.nextId
    ensures Inv(slot, w, net, tr)
  {
  }

  lemma {:induction false} SideFrom<K>(slot: (Pub, nat) -> K, w: World<K>, net: Net, tr: Trace, side: Side, s: nat,
                                       sess: Session<K>, sent: nat, box: Inbox)
    requires |tr.g.keys| >= 2 && s == Epoch(tr.g, side)
    requires w.SessionOf(side) == sess && |w.SentBy(side)| == sent && InboxOf(w, net, tr, side) == box
    requires PartyOk(slot, tr.g, s, sess, sent, box)
    ensures SideOk(slot, w, net, tr, side)
  {
  }

  lemma {:induction false} StartInv<K>(slot: (Pub, nat) -> K, sk: Key, bobKey: KeyId, aliceKey: KeyId, nextId: KeyId)
    returns (tr: Trace)
    requires bobKey != aliceKey && bobKey < nextId && aliceKey < nextId
    ensures Inv(slot, Start(sk, bobKey, aliceKey, nextId), EMPTY_NET, tr)
    ensures tr.g.sk == sk && tr.g.keys[0] == bobKey
  {
    tr := Trace(History(sk, [bobKey, aliceKey], [0, 0]), [], []);
    assert Root(tr.g, 1) == RootOf(Root(tr.g, 0), Dh(bobKey, PubOf(aliceKey)));
    assert Chain(tr.g, 1) == ChainOf(Root(tr.g, 0), Dh(bobKey, PubOf(aliceKey)));
  }

  /** A refused attempt changes nothing but the supply of key pairs. */
  lemma {:induction false} RefusedInv<K>(slot: (Pub, nat) -> K, w: World<K>, net: Net, tr: Trace)
    requires Inv(slot, w, net, tr)
    ensures Inv(slot, w.(nextId := w.nextId + 1), net, tr)
  {
  }

  /** After a send the sender's log is in order and neither session is disturbed. */
  lemma {:induction false} SendSides<K>(slot: (Pub, nat) -> K, g: History, p: nat, s: nat, t: nat, sess: Session<K>,
                                        other: Session<K>, otherSent: nat, mine: Inbox, box: Inbox, text: Bytes)
    requires PartyOk(slot, g, s, sess, |box.log|, mine) && PartyOk(slot, g, t, other, otherSent, box)
    requires p == s % 2 == (t + 1) % 2
    ensures var (env, next) := Encrypt(sess, text);
            && PartyOk(slot, g, s, next, |box.log| + 1, mine)
            && PartyOk(slot, g, t, other, otherSent,
                       Inbox(box.log + [env], box.texts + [text], box.epoch + [s], box.taken))
  {
    Sends(slot, g, p, s, sess, mine, box.log, box.texts, box.epoch, text);
    Hears(slot, g, p, t, other, otherSent, box, Encrypt(sess, text).0, text, s);
  }

  lemma {:induction false} SendInv<K>(slot: (Pub, nat) -> K, w: World<K>, net: Net, tr: Trace, from: Side, text: Bytes)
    returns (w': World<K>, net': Net, tr': Trace)
    requires Inv(slot, w, net, tr)
    ensures Act(slot, w, Send(from, text)).0 == w' && NetAct(net, Send(from, text)).0 == net'
    ensures Inv(slot, w', net', tr') && SameStart(tr, tr')
  {
    hide PartyOk;
    var to := Peer(from);
    var s, t := Epoch(tr.g, from), Epoch(tr.g, to);
    var (env, next) := Encrypt(w.SessionOf(from), text);
    var mine, box := InboxOf(w, net, tr, from), InboxOf(w, net, tr, to);
    InvOf(slot, w, net, tr, from);
    EpochParity(tr.g, from);
    SendSides(slot, tr.g, Parity(from), s, t, w.SessionOf(from), w.SessionOf(to), |w.SentBy(to)|, mine, box, text);
    tr' := tr.WithEpoch(from, s);
    w' := Act(slot, w, Send(from, text)).0;
    net' := NetAct(net, Send(from, text)).0;
    SideFrom(slot, w', net', tr', from, s, next, |box.log| + 1, mine);
    SideFrom(slot, w', net', tr', to, t, w.SessionOf(to), |w.SentBy(to)|,
             Inbox(box.log + [env], box.texts + [text], box.epoch + [s], box.taken));
    InvFrom(slot, w', net', tr', from);
  }

  /** A delivery goes as the mailbox says and leaves both parties in step. */
  lemma {:induction false} DeliverSides<K>(slot: (Pub, nat) -> K, g: History, s: nat, t: nat, sess: Session<K>,
                                           other: Session<K>, otherSent: nat, box: Inbox, mine: Inbox, i: nat,
                                           newId: KeyId)
    returns (h: History, s': nat, next: Session<K>)
    requires Injective(slot)
    requires PartyOk(slot, g, s, sess, |mine.log|, box) && PartyOk(slot, g, t, other, otherSent, mine)
    requires s + 1 == t || t + 1 == s
    requires i < |box.log| && newId !in g.keys
    ensures Decrypt(slot, sess, box.log[i].ct, box.log[i].header, newId)
         == if i in box.taken || Gap(box.taken, i) > MAX_SKIP then Rejected else Accepted(box.texts[i], next)
    ensures i !in box.taken && Gap(box.taken, i) <= MAX_SKIP ==>
              && PartyOk(slot, h, s', next, |mine.log|, Accept(box, i))
              && PartyOk(slot, h, t, other, otherSent, mine)
    ensures (h == g && s' == s) || (h == Extend(g, newId, |mine.log|) && s' == s + 2 == |g.keys| == t + 1)
  {
    h, s', next := Receive(slot, g, s, sess, |mine.log|, box, i, newId);
    if h != g && i !in box.taken && Gap(box.taken, i) <= MAX_SKIP {
      StaysBehind(slot, g, t, other, otherSent, mine, newId);
    }
  }

  lemma {:induction false} AcceptInv<K>(slot: (Pub, nat) -> K, w: World<K>, net: Net, tr: Trace, to: Side, i: nat,
                                        h: History, s': nat, next: Session<K>)
    requires |tr.g.keys| >= 2 && (forall e | 0 <= e < |tr.g.keys| :: tr.g.keys[e] < w.nextId)
    requires var from := Peer(to);
             && var mine, box := InboxOf(w, net, tr, from), InboxOf(w, net, tr, to);
             && PartyOk(slot, h, s', next, |mine.log|, Accept(box, i))
             && PartyOk(slot, h, Epoch(tr.g, from), w.SessionOf(from), |w.SentBy(from)|, mine)
             && ((h == tr.g && s' == Epoch(tr.g, to))
                 || (h == Extend(tr.g, w.nextId, |mine.log|) && s' == |tr.g.keys| == Epoch(tr.g, from) + 1))
    ensures var box := net.BoxOf(to);
            Inv(slot, w.(nextId := w.nextId + 1).WithSession(to, next),
                net.WithBox(to, box.(taken := box.taken + {i})), tr.(g := h))
  {
    hide PartyOk;
    var from := Peer(to);
    var mine, box := InboxOf(w, net, tr, from), InboxOf(w, net, tr, to);
    var tr' := tr.(g := h);
    var w' := w.(nextId := w.nextId + 1).WithSession(to, next);
    var net' := net.WithBox(to, net.BoxOf(to).(taken := net.BoxOf(to).taken + {i}));
    EpochParity(tr.g, to);
    EpochParity(h, to);
    assert Epoch(h, to) == s' && Epoch(h, from) == Epoch(tr.g, from);
    SideFrom(slot, w', net', tr', to, s', next, |mine.log|, Accept(box, i));
    SideFrom(slot, w', net', tr', from, Epoch(h, from), w.SessionOf(from), |w.SentBy(from)|, mine);
    InvFrom(slot, w', net', tr', to);
  }

  lemma {:induction false} DeliverOutcome<K>(slot: (Pub, nat) -> K, w: World<K>, to: Side, i: nat, d: Decryption<K>)
    requires var log := w.SentBy(Peer(to));
             i < |log| && Decrypt(slot, w.SessionOf(to), log[i].ct, log[i].header, w.nextId) == d
    ensures d.Accepted? ==> Act(slot, w, Deliver(to, i)).0 == w.(nextId := w.nextId + 1).WithSession(to, d.next)
    ensures d.Rejected? ==> Act(slot, w, Deliver(to, i)).0 == w.(nextId := w.nextId + 1)
    ensures Act(slot, w, Deliver(to, i)).1 == if d.Accepted? then Received(d.plaintext) else Refused
  {
  }

  lemma {:induction false} DeliverDecides<K>(slot: (Pub, nat) -> K, w: World<K>, net: Net, tr: Trace, to: Side, i: nat)
    returns (h: History, s': nat, next: Session<K>)
    requires Injective(slot) && Inv(slot, w, net, tr) && i < |net.BoxOf(to).log|
    ensures i < |w.SentBy(Peer(to))|
    ensures Decrypt(slot, w.SessionOf(to), w.SentBy(Peer(to))[i].ct, w.SentBy(Peer(to))[i].header, w.nextId)
         == if CanTake(net.BoxOf(to), i, MAX_SKIP) then Accepted(net.BoxOf(to).log[i], next) else Rejected
    ensures CanTake(net.BoxOf(to), i, MAX_SKIP) ==> Inv(slot, w.(nextId := w.nextId + 1).WithSession(to, next),
                net.WithBox(to, net.BoxOf(to).(taken := net.BoxOf(to).taken + {i})), tr.(g := h))
    ensures SameStart(tr, tr.(g := h))
  {
    hide Decrypt, Gap;
    var from := Peer(to);
    var mine, box := InboxOf(w, net, tr, from), InboxOf(w, net, tr, to);
    InvOf(slot, w, net, tr, to);
    h, s', next := DeliverSides(slot, tr.g, Epoch(tr.g, to), Epoch(tr.g, from), w.SessionOf(to), w.SessionOf(from),
                                |w.SentBy(from)|, box, mine, i, w.nextId);
    if CanTake(net.BoxOf(to), i, MAX_SKIP) {
      AcceptInv(slot, w, net, tr, to, i, h, s', next);
    }
  }

  lemma {:induction false} TakeOutcome(net: Net, to: Side, i: nat)
    requires CanTake(net.BoxOf(to), i, MAX_SKIP)
    ensures NetAct(net, Deliver(to, i)).0 == net.WithBox(to, net.BoxOf(to).(taken := net.BoxOf(to).taken + {i}))
    ensures NetAct(net, Deliver(to, i)).1 == Received(net.BoxOf(to).log[i])
  {
  }

  lemma {:induction false} DeliverInv<K>(slot: (Pub, nat) -> K, w: World<K>, net: Net, tr: Trace, to: Side, i: nat)
    returns (w': World<K>, net': Net, tr': Trace)
    requires Injective(slot) && Inv(slot, w, net, tr)
    ensures Act(slot, w, Deliver(to, i)).0 == w' && NetAct(net, Deliver(to, i)).0 == net'
    ensures Act(slot, w, Deliver(to, i)).1 == NetAct(net, Deliver(to, i)).1
    ensures Inv(slot, w', net', tr') && SameStart(tr, tr')
  {
    hide Decrypt, PartyOk;
    LogsMatch(slot, w, net, tr, Peer(to));
    if i < |net.BoxOf(to).log| {
      var h, s', next := DeliverDecides(slot, w, net, tr, to, i);
      if CanTake(net.BoxOf(to), i, MAX_SKIP) {
        DeliverOutcome(slot, w, to, i, Accepted(net.BoxOf(to).log[i], next));
        TakeOutcome(net, to, i);
        return w.(nextId := w.nextId + 1).WithSession(to, next),
               net.WithBox(to, net.BoxOf(to).(taken := net.BoxOf(to).taken + {i})), tr.(g := h);
      }
      DeliverOutcome(slot, w, to, i, Rejected);
      RefusedInv(slot, w, net, tr);
      return w.(nextId := w.nextId + 1), net, tr;
    }
    return w, net, tr;
  }

  lemma {:induction false} DeliverEvent<K>(slot: (Pub, nat) -> K, w: World<K>, net: Net, tr: Trace, to: Side, i: nat)
    requires Injective(slot) && Inv(slot, w, net, tr)
    ensures Act(slot, w, Deliver(to, i)).1 ==
            if CanTake(net.BoxOf(to), i, MAX_SKIP) then Received(net.BoxOf(to).log[i]) else Refused
  {
    hide Act, Inv;
    var w', net', tr' := DeliverInv(slot, w, net, tr, to, i);
  }

  /** A responder is in epoch 0 exactly as long as it has accepted nothing. */
  lemma {:induction false} ZeroEpoch<K>(slot: (Pub, nat) -> K, w: World<K>, net: Net, tr: Trace)
    requires Inv(slot, w, net, tr)
    ensures Epoch(tr.g, Responder) == 0 <==> net.toResponder.taken == {}
  {
    EpochParity(tr.g, Responder);
    var s, sess := Epoch(tr.g, Responder), w.responder;
    if s > 0 {
      assert Position(tr.g, s, sess) - 1 in net.toResponder.taken;
    }
  }

  lemma {:induction false} ReflectDecides<K>(slot: (Pub, nat) -> K, w: World<K>, net: Net, tr: Trace, to: Side, i: nat,
                                             header: Header)
    requires Injective(slot) && Inv(slot, w, net, tr) && i < |w.SentBy(to)|
    ensures i < |net.BoxOf(Peer(to)).log|
    ensures var d := Decrypt(slot, w.SessionOf(to), w.SentBy(to)[i].ct, header, w.nextId);
            if to == Responder && StillZero(net, header, i)
            then d.Accepted? && d.plaintext == net.BoxOf(Peer(to)).log[i]
            else d == Rejected
  {
    hide Decrypt, PartyOk;
    InvOf(slot, w, net, tr, to);
    EpochParity(tr.g, to);
    ZeroEpoch(slot, w, net, tr);
    OwnDecides(slot, tr.g, Epoch(tr.g, to), w.SessionOf(to), |w.SentBy(to)|, InboxOf(w, net, tr, to),
               Epoch(tr.g, Peer(to)), w.SessionOf(Peer(to)), |w.SentBy(Peer(to))|, InboxOf(w, net, tr, Peer(to)),
               i, header, w.nextId);
  }

  lemma {:induction false} LogsMatch<K>(slot: (Pub, nat) -> K, w: World<K>, net: Net, tr: Trace, from: Side)
    requires Inv(slot, w, net, tr)
    ensures |w.SentBy(from)| == |net.BoxOf(Peer(from)).log|
  {
    InvOf(slot, w, net, tr, from);
  }

  lemma {:induction false} ReflectOutcome<K>(slot: (Pub, nat) -> K, w: World<K>, net: Net, tr: Trace, to: Side, i: nat,
                                             header: Header)
    requires Injective(slot) && Inv(slot, w, net, tr)
    ensures var texts := net.BoxOf(Peer(to)).log;
            Act(slot, w, Reflect(to, i, header)).1 ==
            if i < |texts| && to == Responder && StillZero(net, header, i) then Received(texts[i]) else Refused
  {
    hide Decrypt, Inv;
    LogsMatch(slot, w, net, tr, to);
    if i < |w.SentBy(to)| {
      ReflectDecides(slot, w, net, tr, to, i, header);
    }
  }

  lemma {:induction false} ReheaderRefused<K>(slot: (Pub, nat) -> K, w: World<K>, net: Net, tr: Trace, to: Side, i: nat,
                                              header: Header)
    requires Injective(slot) && Inv(slot, w, net, tr) && i in net.BoxOf(to).taken
    ensures i < |w.SentBy(Peer(to))|
    ensures Decrypt(slot, w.SessionOf(to), w.SentBy(Peer(to))[i].ct, header, w.nextId) == Rejected
  {
    InvOf(slot, w, net, tr, to);
    SpentRejected(slot, tr.g, Epoch(tr.g, to), w.SessionOf(to), |w.SentBy(to)|, InboxOf(w, net, tr, to), i, header,
                  w.nextId);
  }

  lemma {:induction false} ZeroInjectDecides<K>(slot: (Pub, nat) -> K, w: World<K>, net: Net, tr: Trace, to: Side,
                                                header: Header, n: nat, text: Bytes)
    requires Injective(slot) && Inv(slot, w, net, tr)
    ensures |tr.g.keys| > 0
    ensures var d := Decrypt(slot, w.SessionOf(to), Sealed(MessageKey(Advance(Zero, n)), text), header, w.nextId);
            if ZeroOpens(slot, tr.g.keys[0], w, net, to, header, n) then d.Accepted? && d.plaintext == text
            else d == Rejected
  {
    hide Decrypt;
    InvOf(slot, w, net, tr, to);
    EpochParity(tr.g, to);
    ZeroEpoch(slot, w, net, tr);
    var s := Epoch(tr.g, to);
    ZeroDecides(slot, tr.g, s, w.SessionOf(to), |w.SentBy(to)|, InboxOf(w, net, tr, to), header, n, text, w.nextId);
    assert s > 1 ==> KeysDiffer(tr.g, 0, s - 1);
  }

  lemma {:induction false} InjectRefused<K>(slot: (Pub, nat) -> K, w: World<K>, net: Net, tr: Trace, to: Side,
                                            header: Header, ct: Ciphertext)
    requires Injective(slot) && Inv(slot, w, net, tr) && |tr.g.keys| > 0
    requires Outside(tr.g.sk, ct)
             || (ZeroKey(ct.key) && !ZeroOpens(slot, tr.g.keys[0], w, net, to, header, Rank(ct.key.chain)))
    ensures Decrypt(slot, w.SessionOf(to), ct, header, w.nextId) == Rejected
  {
    hide Decrypt;
    InvOf(slot, w, net, tr, to);
    if Outside(tr.g.sk, ct) {
      OutsideRejected(slot, tr.g, Epoch(tr.g, to), w.SessionOf(to), |w.SentBy(to)|, InboxOf(w, net, tr, to), header,
                      ct, w.nextId);
    } else {
      ZeroInjectDecides(slot, w, net, tr, to, header, Rank(ct.key.chain), ct.plaintext);
    }
  }

  /** Noise is refused, and neither session nor mailbox notices it. */
  lemma {:induction false} NoiseRefused<K>(slot: (Pub, nat) -> K, w: World<K>, net: Net, tr: Trace, step: Step)
    requires Injective(slot) && Inv(slot, w, net, tr) && |tr.g.keys| > 0
    requires !step.Send? && !step.Deliver? && Allowed(slot, tr.g.sk, tr.g.keys[0], w, net, step)
    ensures Act(slot, w, step).1 == Refused
    ensures Act(slot, w, step).0 == w || Act(slot, w, step).0 == w.(nextId := w.nextId + 1)
  {
    hide Decrypt;
    match step
    case Reflect(to, i, header) =>
      if i < |w.SentBy(to)| {
        ReflectDecides(slot, w, net, tr, to, i, header);
      }
    case Reheader(to, i, header) =>
      ReheaderRefused(slot, w, net, tr, to, i, header);
    case Inject(to, header, ct) =>
      InjectRefused(slot, w, net, tr, to, header, ct);
  }

  lemma {:induction false} StepInv<K>(slot: (Pub, nat) -> K, w: World<K>, net: Net, tr: Trace, step: Step)
    returns (w': World<K>, net': Net, tr': Trace)
    requires Injective(slot) && Inv(slot, w, net, tr)
    requires |tr.g.keys| > 0 && Allowed(slot, tr.g.sk, tr.g.keys[0], w, net, step)
    ensures Act(slot, w, step).0 == w' && NetAct(net, step).0 == net'
    ensures Act(slot, w, step).1 == NetAct(net, step).1
    ensures Inv(slot, w', net', tr') && SameStart(tr, tr')
  {
    match step
    case Send(from, text) =>
      w', net', tr' := SendInv(slot, w, net, tr, from, text);
    case Deliver(to, i) =>
      w', net', tr' := DeliverInv(slot, w, net, tr, to, i);
    case _ =>
      NoiseRefused(slot, w, net, tr, step);
      RefusedInv(slot, w, net, tr);
      w', net', tr' := Act(slot, w, step).0, net, tr;
  }

  /** Any run of the two ratchets, whatever the network does, shows exactly the events of
      the two mailboxes. */
  lemma {:induction false} RunRefines<K>(slot: (Pub, nat) -> K, w: World<K>, net: Net, tr: Trace, steps: seq<Step>)
    returns (w': World<K>, net': Net, tr': Trace)
    requires Injective(slot) && Inv(slot, w, net, tr)
    requires |tr.g.keys| > 0 && AllAllowed(slot, tr.g.sk, tr.g.keys[0], w, net, steps)
    ensures Run(slot, w, steps).0 == w' && NetRun(net, steps).0 == net'
    ensures Run(slot, w, steps).1 == NetRun(net, steps).1
    ensures Inv(slot, w', net', tr') && SameStart(tr, tr')
  {
    if steps == [] {
      return w, net, tr;
    }
    var before, netBefore, trBefore := RunRefines(slot, w, net, tr, steps[..|steps| - 1]);
    w', net', tr' := StepInv(slot, before, netBefore, trBefore, steps[|steps| - 1]);
  }
}
