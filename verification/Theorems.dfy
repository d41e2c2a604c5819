/** What holds after every run of the two ratchets from their initialisers. */
module Theorems {
  import opened Encoding
  import opened Terms
  import opened Ratchet
  import opened Mailbox
  import opened Epochs
  import opened Party
  import opened Delivery

  /** A run: both parties start from one shared secret and fresh key pairs, then anything
      the network model allows happens. */
  datatype Scenario = Scenario(sk: Key, bobKey: KeyId, aliceKey: KeyId, nextId: KeyId, steps: seq<Step>)

  ghost predicate Proper<K>(slot: (Pub, nat) -> K, c: Scenario) {
    && c.bobKey != c.aliceKey && c.bobKey < c.nextId && c.aliceKey < c.nextId
    && AllAllowed(slot, c.sk, c.bobKey, Begin(c), EMPTY_NET, c.steps)
  }

  function Begin<K>(c: Scenario): World<K> {
    Start(c.sk, c.bobKey, c.aliceKey, c.nextId)
  }

  lemma {:induction false} Reached<K>(slot: (Pub, nat) -> K, c: Scenario) returns (w: World<K>, net: Net, tr: Trace)
    requires Injective(slot) && Proper(slot, c)
    ensures Run(slot, Begin<K>(c), c.steps).0 == w && NetRun(EMPTY_NET, c.steps).0 == net
    ensures Run(slot, Begin<K>(c), c.steps).1 == NetRun(EMPTY_NET, c.steps).1
    ensures Inv(slot, w, net, tr) && |tr.g.keys| > 0 && tr.g.sk == c.sk && tr.g.keys[0] == c.bobKey
  {
    var tr0 := StartInv(slot, c.sk, c.bobKey, c.aliceKey, c.nextId);
    w, net, tr := RunRefines(slot, Begin<K>(c), EMPTY_NET, tr0, c.steps);
  }

  /** The events of the ratchet run are those of the mailboxes, step by step. */
  lemma {:induction false} MailboxRefinement<K>(slot: (Pub, nat) -> K, c: Scenario)
    requires Injective(slot) && Proper(slot, c)
    ensures Run(slot, Begin<K>(c), c.steps).1 == NetRun(EMPTY_NET, c.steps).1
  {
    var w, net, tr := Reached(slot, c);
  }

  // ---- What the mailboxes contain ----

  /** The texts a party has sent, in order. */
  ghost function Texts(steps: seq<Step>, from: Side): seq<Bytes> {
    if steps == [] then []
    else
      var last := steps[|steps| - 1];
      Texts(steps[..|steps| - 1], from) + (if last.Send? && last.from == from then [last.text] else [])
  }

  /** The peer's messages a party has accepted, going by the events of the run. */
  ghost function AcceptedBy(steps: seq<Step>, events: seq<Event>, to: Side): set<nat>
    requires |steps| == |events|
  {
    if steps == [] then {}
    else
      var last := steps[|steps| - 1];
      AcceptedBy(steps[..|steps| - 1], events[..|steps| - 1], to)
      + (if last.Deliver? && last.to == to && events[|steps| - 1].Received? then {last.i} else {})
  }

  lemma {:induction false} BoxContents(steps: seq<Step>, to: Side)
    ensures |NetRun(EMPTY_NET, steps).1| == |steps|
    ensures NetRun(EMPTY_NET, steps).0.BoxOf(to) ==
            Mailbox(Texts(steps, Peer(to)), AcceptedBy(steps, NetRun(EMPTY_NET, steps).1, to))
  {
    hide Gap;
    if steps != [] {
      BoxContents(steps[..|steps| - 1], to);
      var (net, events) := NetRun(EMPTY_NET, steps[..|steps| - 1]);
      assert NetRun(EMPTY_NET, steps).1[..|steps| - 1] == events;
    }
  }

  /** After any run, delivering the peer's message `i` returns exactly the text that was
      sent if it was not accepted before and at most 2000 earlier messages are
      missing, and is refused in every other case. */
  lemma {:induction false} DeliveryExact<K>(slot: (Pub, nat) -> K, c: Scenario, to: Side, i: nat)
    requires Injective(slot) && Proper(slot, c)
    ensures var (w, events) := Run(slot, Begin<K>(c), c.steps);
            && |events| == |c.steps|
            && var texts, accepted := Texts(c.steps, Peer(to)), AcceptedBy(c.steps, events, to);
            && |w.SentBy(Peer(to))| == |texts|
            && Act(slot, w, Deliver(to, i)).1 ==
               if i < |texts| && i !in accepted && |set j: nat | j < i && j !in accepted| <= 2000
               then Received(texts[i])
               else Refused
  {
    hide Act, Inv, Run, NetRun;
    var w, net, tr := Reached(slot, c);
    BoxContents(c.steps, to);
    LogsMatch(slot, w, net, tr, Peer(to));
    GapCounts(net.BoxOf(to).taken, i);
    DeliverEvent(slot, w, net, tr, to, i);
  }

  // ---- The two sessions against each other ----

  /** `x` is one Diffie-Hellman step ahead of `y`: it listens to the key `y` sends with, its
      root comes from the root of `y` by one derivation with both current keys, its sending
      chain was opened by that derivation, and its receiving chain is the sending chain of
      `y`, some messages behind. */
  ghost predicate OneStepAhead<K>(x: Session<K>, y: Session<K>) {
    var dh := Dh(x.dhSendPriv, y.dhSendPub);
    && x.dhRecvPub == y.dhSendPub
    && x.rootKey == RootOf(y.rootKey, dh)
    && x.chainKeySend == Advance(ChainOf(y.rootKey, dh), x.nSend)
    && x.nRecv <= y.nSend
    && y.chainKeySend == Advance(x.chainKeyRecv, y.nSend - x.nRecv)
  }

  /** After any run one of the two parties is exactly one step ahead of the other. */
  lemma {:induction false} EpochLockstep<K>(slot: (Pub, nat) -> K, c: Scenario)
    requires Injective(slot) && Proper(slot, c)
    ensures var w := Run(slot, Begin<K>(c), c.steps).0;
            OneStepAhead(w.initiator, w.responder) <==> !OneStepAhead(w.responder, w.initiator)
  {
    hide PartyOk, Run, NetRun;
    var w, net, tr := Reached(slot, c);
    var ahead := if Epoch(tr.g, Initiator) == |tr.g.keys| - 1 then Initiator else Responder;
    InvOf(slot, w, net, tr, ahead);
    EpochParity(tr.g, ahead);
    AheadByOne(slot, tr.g, Epoch(tr.g, ahead), w.SessionOf(ahead), |w.SentBy(ahead)|, InboxOf(w, net, tr, ahead),
               w.SessionOf(Peer(ahead)), InboxOf(w, net, tr, Peer(ahead)));
    AheadOneWay(w.SessionOf(ahead), w.SessionOf(Peer(ahead)));
  }

  lemma {:induction false} AheadByOne<K>(slot: (Pub, nat) -> K, g: History, s: nat, x: Session<K>, sent: nat,
                                         box: Inbox, y: Session<K>, mine: Inbox)
    requires 0 < s && PartyOk(slot, g, s, x, sent, box) && PartyOk(slot, g, s - 1, y, |box.log|, mine)
    ensures OneStepAhead(x, y)
  {
    AdvanceAdd(Chain(g, s - 1), x.nRecv, y.nSend - x.nRecv);
  }

  lemma {:induction false} AheadOneWay<K>(x: Session<K>, y: Session<K>)
    requires OneStepAhead(x, y)
    ensures !OneStepAhead(y, x)
  {
    assert Rank(x.rootKey) == 1 + Rank(y.rootKey);
  }

  // ---- The store of skipped keys ----

  /** The store holds exactly one key, the one it was sealed with, for each message that was
      overtaken by an accepted one and has not been accepted itself. */
  ghost predicate ExactStore<K>(slot: (Pub, nat) -> K, store: KeyStore<K>, log: seq<Envelope>, accepted: set<nat>) {
    && (forall j: nat | j < |log| ::
          SlotOf(slot, log[j]) in store.entries <==> j !in accepted && exists i :: i in accepted && j < i)
    && (forall j: nat | j < |log| && SlotOf(slot, log[j]) in store.entries ::
          log[j].ct.Sealed? && store.entries[SlotOf(slot, log[j])] == log[j].ct.key)
    && (forall name | name in store.entries :: exists j: nat :: j < |log| && SlotOf(slot, log[j]) == name)
    && store.size == |store.entries| <= 2000
  }

  lemma {:induction false} StoreExact<K>(slot: (Pub, nat) -> K, c: Scenario, side: Side)
    requires Injective(slot) && Proper(slot, c)
    ensures var (w, events) := Run(slot, Begin<K>(c), c.steps);
            && |events| == |c.steps|
            && ExactStore(slot, w.SessionOf(side).skipped, w.SentBy(Peer(side)), AcceptedBy(c.steps, events, side))
  {
    var w, net, tr := Reached(slot, c);
    BoxContents(c.steps, side);
    InvOf(slot, w, net, tr, side);
    StoreOfParty(slot, tr.g, Epoch(tr.g, side), w.SessionOf(side), |w.SentBy(side)|, InboxOf(w, net, tr, side));
  }

  lemma {:induction false} StoreOfParty<K>(slot: (Pub, nat) -> K, g: History, s: nat, sess: Session<K>, sent: nat,
                                           box: Inbox)
    requires Injective(slot) && PartyOk(slot, g, s, sess, sent, box)
    ensures ExactStore(slot, sess.skipped, box.log, box.taken)
  {
    var pos := Position(g, s, sess);
    AllSlotsDistinct(slot, g, (s + 1) % 2, box.log, box.texts, box.epoch);
    PendingSize(slot, box.log, pos, box.taken);
    forall j: nat | j < |box.log|
      ensures SlotOf(slot, box.log[j]) in sess.skipped.entries
              <==> j !in box.taken && exists i :: i in box.taken && j < i
      ensures SlotOf(slot, box.log[j]) in sess.skipped.entries ==>
                sess.skipped.entries[SlotOf(slot, box.log[j])] == box.log[j].ct.key
    {
      if j < pos && j !in box.taken {
        PendingHas(slot, box.log, pos, box.taken, j);
        assert pos - 1 in box.taken && j < pos - 1;
      } else {
        PendingMisses(slot, box.log, pos, box.taken, j);
      }
    }
    forall name | name in sess.skipped.entries
      ensures exists j: nat :: j < |box.log| && SlotOf(slot, box.log[j]) == name
    {
      var j := PendingOnly(slot, box.log, pos, box.taken, name);
    }
  }

  // ---- Noise ----

  /** After any run these are refused, and both sessions stay as they were: a message
      accepted before, under its own or any other header; a message of the party's own, and
      a ciphertext not made from the conversation's secret, under any header, unless it
      falls under `ZeroChainExact`. */
  lemma {:induction false} NoiseTolerated<K>(slot: (Pub, nat) -> K, c: Scenario, noise: Step)
    requires Injective(slot) && Proper(slot, c)
    requires !noise.Send?
    requires var w, net := Run(slot, Begin<K>(c), c.steps).0, NetRun(EMPTY_NET, c.steps).0;
             && Allowed(slot, c.sk, c.bobKey, w, net, noise)
             && (noise.Deliver? ==> noise.i in net.BoxOf(noise.to).taken)
    ensures var w := Run(slot, Begin<K>(c), c.steps).0;
            var (w', event) := Act(slot, w, noise);
            event == Refused && w' == w.(nextId := w'.nextId)
  {
    var w, net, tr := Reached(slot, c);
    if noise.Deliver? {
      var to, i := noise.to, noise.i;
      InvOf(slot, w, net, tr, to);
      ReheaderRefused(slot, w, net, tr, to, i, w.SentBy(Peer(to))[i].header);
      DeliverOutcome(slot, w, to, i, Rejected);
    } else {
      NoiseRefused(slot, w, net, tr, noise);
    }
  }

  /** The keys of the all-zero chain are known to everyone.  After any run a ciphertext under
      number `n` of them is accepted exactly by a responder that has accepted nothing, under
      the all-zero header key and number `n`; and by an initiator under the responder's first
      key, if `n` is stored under that name, or is where the current chain then stands. */
  lemma {:induction false} ZeroChainExact<K>(slot: (Pub, nat) -> K, c: Scenario, to: Side, header: Header, n: nat,
                                             text: Bytes)
    requires Injective(slot) && Proper(slot, c)
    ensures var w := Run(slot, Begin<K>(c), c.steps).0;
            var net := NetRun(EMPTY_NET, c.steps).0;
            Act(slot, w, Inject(to, header, Sealed(MessageKey(Advance(Zero, n)), text))).1
            == if ZeroOpens(slot, c.bobKey, w, net, to, header, n) then Received(text) else Refused
  {
    hide Decrypt, Inv, ZeroOpens, Run, NetRun;
    var w, net, tr := Reached(slot, c);
    ZeroInjectDecides(slot, w, net, tr, to, header, n, text);
  }

  /** After any run a party opens its own message `i` exactly if it is the responder, has
      accepted nothing, and the header names the all-zero key and `i`. */
  lemma {:induction false} ReflectExact<K>(slot: (Pub, nat) -> K, c: Scenario, to: Side, i: nat, header: Header)
    requires Injective(slot) && Proper(slot, c)
    ensures var (w, events) := Run(slot, Begin<K>(c), c.steps);
            && |events| == |c.steps|
            && var texts, accepted := Texts(c.steps, to), AcceptedBy(c.steps, events, to);
            && Act(slot, w, Reflect(to, i, header)).1 ==
               if i < |texts| && to == Responder && accepted == {} && header.dh == ZeroPub && header.n == i <= 2000
               then Received(texts[i]) else Refused
  {
    hide Act, Inv, Run, NetRun;
    var w, net, tr := Reached(slot, c);
    BoxContents(c.steps, to);
    BoxContents(c.steps, Peer(to));
    ReflectOutcome(slot, w, net, tr, to, i, header);
  }

  /** Three such inputs: at the start both parties take a ciphertext that anyone can make, and
      a responder takes its own first message under the all-zero key. */
  lemma {:induction false} ZeroChainInputs<K>(slot: (Pub, nat) -> K, c: Scenario, text: Bytes)
    ensures var w := Begin<K>(c);
            var ct := Sealed(MessageKey(Zero), text);
            && Act(slot, w, Inject(Initiator, Header(PubOf(c.bobKey), 0, 0), ct)).1 == Received(text)
            && Act(slot, w, Inject(Responder, Header(ZeroPub, 0, 0), ct)).1 == Received(text)
            && var sent := Act(slot, w, Send(Responder, text)).0;
               Act(slot, sent, Reflect(Responder, 0, Header(ZeroPub, 0, 0))).1 == Received(text)
  {
  }

  lemma {:induction false} SkipFills<K>(slot: (Pub, nat) -> K, s: Session<K>, until: nat)
    requires Injective(slot) && s.nRecv <= until
    requires forall k: nat | s.nRecv <= k :: slot(s.dhRecvPub, k) !in s.skipped.entries
    ensures var r := SkipTo(slot, s, until).skipped;
            && r.size == s.skipped.size + (until - s.nRecv)
            && forall k: nat | until <= k :: slot(s.dhRecvPub, k) !in r.entries
    decreases until - s.nRecv
  {
    if s.nRecv < until {
      SkipFills(slot, SkipOne(slot, s), until);
    }
  }

  /** What an accepted forgery can do: number 2000 of the all-zero chain, injected at the start,
      fills the initiator's store, and from then on nothing later in that chain is accepted
      before the message that is due. */
  lemma {:induction false} ForgeryFillsStore<K>(slot: (Pub, nat) -> K, c: Scenario, text: Bytes, n: nat, pn: nat,
                                                ct: Ciphertext, newId: KeyId)
    requires Injective(slot)
    ensures var forged := Sealed(MessageKey(Advance(Zero, MAX_SKIP)), text);
            var (w, event) := Act(slot, Begin<K>(c), Inject(Initiator, Header(PubOf(c.bobKey), MAX_SKIP, 0), forged));
            && event == Received(text) && w.initiator.skipped.size == MAX_SKIP && w.initiator.nRecv == MAX_SKIP + 1
            && (MAX_SKIP + 1 < n ==> Decrypt(slot, w.initiator, ct, Header(PubOf(c.bobKey), n, pn), newId) == Rejected)
  {
    var session: Session<K> := InitSender(c.sk, PubOf(c.bobKey), c.aliceKey);
    SkipFills(slot, session, MAX_SKIP);
    SkipToFields(slot, session, MAX_SKIP);
    hide SkipTo, Advance;
  }
}
