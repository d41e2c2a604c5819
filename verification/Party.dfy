/** One party of a ratchet run: its session is determined by the history of the run, and
    decryption moves it exactly as the mailbox of the peer's messages says. */
module Party {
  import opened Encoding
  import opened Terms
  import opened Ratchet
  import opened Mailbox
  import opened Epochs

  /** The sending half of a session that sends in epoch `s` and has sent `sent` messages
      in all. */
  ghost predicate SendSide<K>(g: History, s: nat, sess: Session<K>, sent: nat)
    requires Valid(g)
  {
    && s < |g.keys|
    && g.start[s] <= sent
    && sess.rootKey == Root(g, s)
    && sess.chainKeySend == Advance(Chain(g, s), sent - g.start[s])
    && sess.nSend == sent - g.start[s]
    && sess.dhSendPriv == g.keys[s]
    && sess.dhSendPub == PubOf(g.keys[s])
    && sess.pn == Previous(g, s)
  }

  /** Position, in the list of the peer's messages, of the next message in the current
      receiving chain. */
  ghost function Position<K>(g: History, s: nat, sess: Session<K>): nat
    requires Valid(g) && s < |g.keys|
  {
    if s == 0 then 0 else g.start[s - 1] + sess.nRecv
  }

  ghost predicate ReceiveSide<K>(slot: (Pub, nat) -> K, g: History, s: nat, sess: Session<K>, log: seq<Envelope>,
                                 taken: set<nat>)
    requires Valid(g) && s < |g.keys|
  {
    && AllSealed(log)
    && var pos := Position(g, s, sess);
    && pos <= |log|
    && (s + 1 < |g.keys| ==> pos <= g.start[s + 1])
    && (forall i | i in taken :: i < pos)
    && (pos > 0 ==> pos - 1 in taken)
    && (s >= 2 ==> sess.nRecv > 0)
    && sess.skipped == Kept(slot, log, pos, taken)
    && Gap(taken, pos) <= MAX_SKIP
    && if s == 0 then sess.dhRecvPub == ZeroPub && sess.nRecv == 0 && sess.chainKeyRecv == Zero
       else sess.dhRecvPub == PubOf(g.keys[s - 1]) && sess.chainKeyRecv == Advance(Chain(g, s - 1), sess.nRecv)
  }

  /** The store when `pos` messages have been passed. */
  ghost function Kept<K>(slot: (Pub, nat) -> K, log: seq<Envelope>, pos: nat, taken: set<nat>): KeyStore<K>
    requires pos <= |log| && AllSealed(log)
  {
    KeyStore(Pending(slot, log, pos, taken), Gap(taken, pos))
  }

  // ---- Skipping ----

  /** The peer's messages from `pos` on are the next `count` messages of the session's
      receiving chain. */
  ghost predicate InChain<K>(sess: Session<K>, log: seq<Envelope>, pos: nat, count: nat) {
    && pos + count <= |log|
    && (forall j | pos <= j < pos + count :: NextInChain(sess, log[j], j - pos))
  }

  ghost predicate NextInChain<K>(sess: Session<K>, env: Envelope, k: nat) {
    env.header.dh == sess.dhRecvPub && env.header.n == sess.nRecv + k
    && env.ct.Sealed? && env.ct.key == MessageKey(Advance(sess.chainKeyRecv, k))
  }

  lemma {:induction false} SkipStores<K>(slot: (Pub, nat) -> K, sess: Session<K>, log: seq<Envelope>, pos: nat,
                                         taken: set<nat>, until: nat)
    requires SlotsDistinct(slot, log) && sess.nRecv <= until && InChain(sess, log, pos, until - sess.nRecv)
    requires sess.skipped == Kept(slot, log, pos, taken) && forall i | i in taken :: i < pos
    ensures SkipTo(slot, sess, until).skipped == Kept(slot, log, pos + (until - sess.nRecv), taken)
    decreases until - sess.nRecv
  {
    if sess.nRecv < until {
      var next := SkipOne(slot, sess);
      assert NextInChain(sess, log[pos], 0);
      PendingMisses(slot, log, pos, taken, pos);
      forall j | pos + 1 <= j < pos + 1 + (until - next.nRecv)
        ensures NextInChain(next, log[j], j - (pos + 1))
      {
        assert NextInChain(sess, log[j], j - pos);
        AdvanceFront(sess.chainKeyRecv, j - (pos + 1));
      }
      SkipStores(slot, next, log, pos + 1, taken, until);
    }
  }

  /** Skipping to a later message of the chain fails exactly when too many messages would
      then be missing, and otherwise stores the key of each message stepped over. */
  lemma {:induction false} SkipExact<K>(slot: (Pub, nat) -> K, sess: Session<K>, log: seq<Envelope>, pos: nat,
                                        taken: set<nat>, until: nat)
    requires SlotsDistinct(slot, log) && sess.nRecv <= until && InChain(sess, log, pos, until - sess.nRecv)
    requires sess.skipped == Kept(slot, log, pos, taken) && forall i | i in taken :: i < pos
    requires Gap(taken, pos) <= MAX_SKIP
    ensures var count := until - sess.nRecv;
            SkipMessageKeys(slot, sess, until) ==
            if Gap(taken, pos + count) > MAX_SKIP then None
            else Some(sess.(chainKeyRecv := Advance(sess.chainKeyRecv, count), nRecv := until,
                            skipped := Kept(slot, log, pos + count, taken)))
  {
    GapBeyond(taken, pos, pos + (until - sess.nRecv));
    SkipToFields(slot, sess, until);
    SkipStores(slot, sess, log, pos, taken, until);
  }

  /** The peer's messages of the receiving epoch are in the receiving chain. */
  lemma {:induction false} EpochInChain<K>(g: History, p: nat, sess: Session<K>, log: seq<Envelope>, texts: seq<Bytes>,
                                           epoch: seq<nat>, r: nat, count: nat)
    requires Valid(g) && SentOk(g, p, log, texts, epoch)
    requires r < |g.keys| && r % 2 == p
    requires sess.dhRecvPub == PubOf(g.keys[r]) && sess.chainKeyRecv == Advance(Chain(g, r), sess.nRecv)
    requires g.start[r] + sess.nRecv + count <= |log|
    requires r + 2 < |g.keys| ==> g.start[r] + sess.nRecv + count <= g.start[r + 2]
    ensures InChain(sess, log, g.start[r] + sess.nRecv, count)
  {
    var pos := g.start[r] + sess.nRecv;
    forall j | pos <= j < pos + count
      ensures NextInChain(sess, log[j], j - pos)
    {
      EpochAt(g, p, log, texts, epoch, r, j);
      assert EnvelopeOk(g, p, log, texts, epoch, j);
      AdvanceAdd(Chain(g, r), sess.nRecv, j - pos);
    }
  }

  // ---- Extending the history ----

  ghost function Extend(g: History, newId: KeyId, sent: nat): History {
    History(g.sk, g.keys + [newId], g.start + [sent])
  }

  lemma {:induction false} ExtendRoot(g: History, newId: KeyId, sent: nat, e: nat)
    requires |g.keys| == |g.start| && e < |g.keys|
    ensures Root(Extend(g, newId, sent), e) == Root(g, e)
    ensures Chain(Extend(g, newId, sent), e) == Chain(g, e)
  {
    if e > 0 {
      ExtendRoot(g, newId, sent, e - 1);
    }
  }

  lemma {:induction false} ExtendValid(g: History, newId: KeyId, sent: nat)
    requires Valid(g) && newId !in g.keys
    requires g.start[|g.keys| - 2] <= sent
    ensures Valid(Extend(g, newId, sent))
  {
    var h := Extend(g, newId, sent);
    forall e: nat, f: nat | e <= f < |h.start|
      ensures Ordered(h, e, f)
    {
      if f < |g.start| {
        assert Ordered(g, e, f);
      } else if e < f && e % 2 == f % 2 {
        assert Ordered(g, e, f - 2);
      }
    }
    forall e: nat, f: nat | e < f < |h.keys|
      ensures KeysDiffer(h, e, f)
    {
      assert f < |g.keys| ==> KeysDiffer(g, e, f);
    }
  }

  /** Messages sent earlier stay as they were when an epoch is opened. */
  lemma {:induction false} ExtendSent(g: History, newId: KeyId, sent: nat, p: nat, log: seq<Envelope>,
                                      texts: seq<Bytes>, epoch: seq<nat>)
    requires Valid(g) && Valid(Extend(g, newId, sent)) && SentOk(g, p, log, texts, epoch)
    requires |g.keys| % 2 == p ==> sent == |log|
    ensures SentOk(Extend(g, newId, sent), p, log, texts, epoch)
  {
    forall i: nat | i < |log|
      ensures EnvelopeOk(Extend(g, newId, sent), p, log, texts, epoch, i)
    {
      assert EnvelopeOk(g, p, log, texts, epoch, i);
      ExtendRoot(g, newId, sent, epoch[i]);
    }
  }

  /** The other party is not affected when an epoch is opened. */
  lemma {:induction false} ExtendOther<K>(slot: (Pub, nat) -> K, g: History, newId: KeyId, sent: nat, s: nat,
                                          sess: Session<K>, mySent: nat, log: seq<Envelope>, taken: set<nat>)
    requires Valid(g) && Valid(Extend(g, newId, sent))
    requires s + 1 == |g.keys| && SendSide(g, s, sess, mySent) && ReceiveSide(slot, g, s, sess, log, taken)
    requires sent == |log|
    ensures SendSide(Extend(g, newId, sent), s, sess, mySent)
    ensures ReceiveSide(slot, Extend(g, newId, sent), s, sess, log, taken)
  {
    ExtendRoot(g, newId, sent, s);
    if s > 0 {
      ExtendRoot(g, newId, sent, s - 1);
    }
  }

  /** A Diffie-Hellman ratchet step with the peer's newest key opens the next epoch. */
  lemma {:induction false} RatchetOpensEpoch<K>(g: History, s: nat, sess: Session<K>, sent: nat, newId: KeyId)
    requires Valid(g) && s + 2 == |g.keys| && newId !in g.keys
    requires SendSide(g, s, sess, sent)
    ensures Valid(Extend(g, newId, sent))
    ensures var h := Extend(g, newId, sent);
            var next := DhRatchetStep(sess, PubOf(g.keys[s + 1]), newId);
            && SendSide(h, s + 2, next, sent)
            && next.dhRecvPub == PubOf(h.keys[s + 1]) && next.nRecv == 0
            && next.chainKeyRecv == Chain(h, s + 1) == Advance(Chain(h, s + 1), 0)
            && next.skipped == sess.skipped
  {
    ExtendValid(g, newId, sent);
    var h := Extend(g, newId, sent);
    ExtendRoot(g, newId, sent, s);
    ExtendRoot(g, newId, sent, s + 1);
    assert Root(h, s + 1) == RootOf(Root(h, s), Dh(h.keys[s], PubOf(h.keys[s + 1])));
    assert Root(h, s + 2) == RootOf(Root(h, s + 1), Dh(h.keys[s + 1], PubOf(h.keys[s + 2])));
  }

  // ---- Receiving ----

  /** What the peer has sent, the epoch each message was sent in, and the messages this
      party has accepted. */
  datatype Inbox = Inbox(log: seq<Envelope>, texts: seq<Bytes>, epoch: seq<nat>, taken: set<nat>)

  ghost predicate PartyOk<K>(slot: (Pub, nat) -> K, g: History, s: nat, sess: Session<K>, sent: nat, box: Inbox) {
    && Valid(g)
    && (|g.keys| == s + 1 || |g.keys| == s + 2)
    && SendSide(g, s, sess, sent)
    && SentOk(g, (s + 1) % 2, box.log, box.texts, box.epoch)
    && ReceiveSide(slot, g, s, sess, box.log, box.taken)
  }

  ghost function Accept(box: Inbox, i: nat): Inbox {
    box.(taken := box.taken + {i})
  }

  /** A message stepped over earlier opens with the key kept for it. */
  lemma {:induction false} DeliverStored<K>(slot: (Pub, nat) -> K, g: History, s: nat, sess: Session<K>, sent: nat,
                                            box: Inbox, i: nat, newId: KeyId)
    returns (next: Session<K>)
    requires PartyOk(slot, g, s, sess, sent, box) && SlotsDistinct(slot, box.log)
    requires i < Position(g, s, sess) && i !in box.taken
    ensures Decrypt(slot, sess, box.log[i].ct, box.log[i].header, newId) == Accepted(box.texts[i], next)
    ensures PartyOk(slot, g, s, next, sent, Accept(box, i))
    ensures Gap(box.taken, i) <= MAX_SKIP
  {
    var pos := Position(g, s, sess);
    assert EnvelopeOk(g, (s + 1) % 2, box.log, box.texts, box.epoch, i);
    next := sess.(skipped := Remove(sess.skipped, SlotOf(slot, box.log[i])));
    PendingHas(slot, box.log, pos, box.taken, i);
    PendingTake(slot, box.log, pos, box.taken, i);
    GapTake(box.taken, i, pos);
    GapMonotone(box.taken, i, pos);
  }

  /** The accepted message itself is never stored. */
  lemma {:induction false} PassNext<K>(slot: (Pub, nat) -> K, log: seq<Envelope>, i: nat, taken: set<nat>)
    requires SlotsDistinct(slot, log) && i < |log|
    requires forall j | j in taken :: j < i
    ensures Kept(slot, log, i + 1, taken + {i}) == Kept(slot, log, i, taken)
  {
    PendingTake(slot, log, i, taken, i);
    PendingMisses(slot, log, i, taken, i);
    GapTake(taken, i, i);
  }

  /** A session aligned with message `i`: every earlier message was accepted or stored. */
  ghost predicate Aligned<K>(slot: (Pub, nat) -> K, g: History, s: nat, c: Session<K>, box: Inbox, i: nat)
    requires Valid(g)
  {
    && 0 < s < |g.keys| && i < |box.log| && AllSealed(box.log)
    && g.start[s - 1] <= i
    && (forall j | j in box.taken :: j < i)
    && c.dhRecvPub == PubOf(g.keys[s - 1])
    && c.nRecv == i - g.start[s - 1]
    && c.chainKeyRecv == Advance(Chain(g, s - 1), c.nRecv)
    && c.skipped == Kept(slot, box.log, i, box.taken)
  }

  ghost function Stepped<K>(c: Session<K>): Session<K> {
    c.(chainKeyRecv := NextChain(c.chainKeyRecv), nRecv := c.nRecv + 1)
  }

  /** An aligned session opens the message and moves past it. */
  lemma {:induction false} StepAligned<K>(slot: (Pub, nat) -> K, g: History, s: nat, c: Session<K>, sent: nat,
                                          box: Inbox, i: nat)
    requires Valid(g) && (|g.keys| == s + 1 || |g.keys| == s + 2)
    requires SendSide(g, s, c, sent) && SentOk(g, (s + 1) % 2, box.log, box.texts, box.epoch)
    requires SlotsDistinct(slot, box.log) && Aligned(slot, g, s, c, box, i)
    requires i < |box.epoch| && box.epoch[i] == s - 1 && Gap(box.taken, i) <= MAX_SKIP
    ensures box.log[i].ct == Sealed(MessageKey(c.chainKeyRecv), box.texts[i])
    ensures PartyOk(slot, g, s, Stepped(c), sent, Accept(box, i))
  {
    assert EnvelopeOk(g, (s + 1) % 2, box.log, box.texts, box.epoch, i);
    PassNext(slot, box.log, i, box.taken);
  }

  /** A message further along the current receiving chain. */
  lemma {:induction false} DeliverCurrent<K>(slot: (Pub, nat) -> K, g: History, s: nat, sess: Session<K>, sent: nat,
                                             box: Inbox, i: nat, newId: KeyId)
    returns (next: Session<K>)
    requires PartyOk(slot, g, s, sess, sent, box) && SlotsDistinct(slot, box.log)
    requires Position(g, s, sess) <= i < |box.log| && box.epoch[i] + 1 == s
    ensures Decrypt(slot, sess, box.log[i].ct, box.log[i].header, newId)
         == if Gap(box.taken, i) > MAX_SKIP then Rejected else Accepted(box.texts[i], next)
    ensures Gap(box.taken, i) <= MAX_SKIP ==> PartyOk(slot, g, s, next, sent, Accept(box, i))
  {
    next := sess;
    AlignCurrent(slot, g, s, sess, sent, box, i);
    PendingMisses(slot, box.log, Position(g, s, sess), box.taken, i);
    if Gap(box.taken, i) <= MAX_SKIP {
      var c := SkipMessageKeys(slot, sess, box.log[i].header.n).value;
      StepAligned(slot, g, s, c, sent, box, i);
      next := Stepped(c);
      DecryptAligned(slot, sess, box.log[i], newId, c, box.texts[i]);
    }
  }

  lemma {:induction false} AlignCurrent<K>(slot: (Pub, nat) -> K, g: History, s: nat, sess: Session<K>, sent: nat,
                                           box: Inbox, i: nat)
    requires PartyOk(slot, g, s, sess, sent, box) && SlotsDistinct(slot, box.log)
    requires Position(g, s, sess) <= i < |box.log| && box.epoch[i] + 1 == s
    ensures sess.dhRecvPub == box.log[i].header.dh
    ensures var r := SkipMessageKeys(slot, sess, box.log[i].header.n);
            if Gap(box.taken, i) > MAX_SKIP then r == None
            else r.Some? && SendSide(g, s, r.value, sent) && Aligned(slot, g, s, r.value, box, i)
  {
    hide Gap;
    var pos := Position(g, s, sess);
    assert EnvelopeOk(g, (s + 1) % 2, box.log, box.texts, box.epoch, i);
    EpochInChain(g, (s + 1) % 2, sess, box.log, box.texts, box.epoch, s - 1, i - pos);
    SkipExact(slot, sess, box.log, pos, box.taken, box.log[i].header.n);
    AdvanceAdd(Chain(g, s - 1), sess.nRecv, i - pos);
  }

  /** The first message seen of the peer's next epoch: the old chain is closed, the next
      epoch opened on both sides, and no epoch is missed. */
  lemma {:induction false} DeliverNext<K>(slot: (Pub, nat) -> K, g: History, s: nat, sess: Session<K>, sent: nat,
                                          box: Inbox, i: nat, newId: KeyId)
    returns (next: Session<K>)
    requires PartyOk(slot, g, s, sess, sent, box) && SlotsDistinct(slot, box.log) && newId !in g.keys
    requires Position(g, s, sess) <= i < |box.log| && box.epoch[i] == s + 1
    ensures Decrypt(slot, sess, box.log[i].ct, box.log[i].header, newId)
         == if Gap(box.taken, i) > MAX_SKIP then Rejected else Accepted(box.texts[i], next)
    ensures Gap(box.taken, i) <= MAX_SKIP ==> PartyOk(slot, Extend(g, newId, sent), s + 2, next, sent, Accept(box, i))
  {
    next := sess;
    assert EnvelopeOk(g, (s + 1) % 2, box.log, box.texts, box.epoch, i);
    assert (s + 2 + 1) % 2 == (s + 1) % 2;
    AlignNext(slot, g, s, sess, sent, box, i, newId);
    PendingMisses(slot, box.log, Position(g, s, sess), box.taken, i);
    if Gap(box.taken, i) <= MAX_SKIP {
      var c := Align(slot, sess, box.log[i].header, newId).value;
      StepAligned(slot, Extend(g, newId, sent), s + 2, c, sent, box, i);
      next := Stepped(c);
      DecryptAligned(slot, sess, box.log[i], newId, c, box.texts[i]);
    }
  }

  lemma {:induction false} DecryptAligned<K>(slot: (Pub, nat) -> K, sess: Session<K>, env: Envelope, newId: KeyId,
                                             c: Session<K>, text: Bytes)
    requires SlotOf(slot, env) !in sess.skipped.entries
    requires Align(slot, sess, env.header, newId) == Some(c)
    requires env.ct == Sealed(MessageKey(c.chainKeyRecv), text)
    ensures Decrypt(slot, sess, env.ct, env.header, newId) == Accepted(text, Stepped(c))
  {
  }

  lemma {:induction false} AlignNext<K>(slot: (Pub, nat) -> K, g: History, s: nat, sess: Session<K>, sent: nat,
                                        box: Inbox, i: nat, newId: KeyId)
    requires PartyOk(slot, g, s, sess, sent, box) && SlotsDistinct(slot, box.log) && newId !in g.keys
    requires Position(g, s, sess) <= i < |box.log| && box.epoch[i] == s + 1
    ensures var h := Extend(g, newId, sent);
            var r := Align(slot, sess, box.log[i].header, newId);
            if Gap(box.taken, i) > MAX_SKIP then r == None
            else
              && Valid(h) && SentOk(h, (s + 1) % 2, box.log, box.texts, box.epoch)
              && r.Some? && SendSide(h, s + 2, r.value, sent) && Aligned(slot, h, s + 2, r.value, box, i)
  {
    assert EnvelopeOk(g, (s + 1) % 2, box.log, box.texts, box.epoch, i);
    CloseChain(slot, g, s, sess, sent, box, i);
    if Gap(box.taken, g.start[s + 1]) <= MAX_SKIP {
      var closed := SkipMessageKeys(slot, sess, box.log[i].header.pn).value;
      OpenChain(slot, g, s, closed, sent, box, i, newId);
    } else {
      GapMonotone(box.taken, g.start[s + 1], i);
    }
  }

  /** Skipping to `pn` steps over the rest of the old receiving chain. */
  lemma {:induction false} CloseChain<K>(slot: (Pub, nat) -> K, g: History, s: nat, sess: Session<K>, sent: nat,
                                         box: Inbox, i: nat)
    requires PartyOk(slot, g, s, sess, sent, box) && SlotsDistinct(slot, box.log)
    requires Position(g, s, sess) <= i < |box.log| && box.epoch[i] == s + 1
    ensures sess.dhRecvPub != box.log[i].header.dh
    ensures var r := SkipMessageKeys(slot, sess, box.log[i].header.pn);
            s + 1 < |g.keys| &&
            if Gap(box.taken, g.start[s + 1]) > MAX_SKIP then r == None
            else r.Some? && SendSide(g, s, r.value, sent)
                 && g.start[s + 1] <= |box.log|
                 && r.value.skipped == Kept(slot, box.log, g.start[s + 1], box.taken)
  {
    var p := (s + 1) % 2;
    var pos := Position(g, s, sess);
    assert EnvelopeOk(g, p, box.log, box.texts, box.epoch, i);
    if s > 0 {
      assert KeysDiffer(g, s - 1, s + 1);
      assert box.log[i].header.pn == g.start[s + 1] - g.start[s - 1];
      EpochInChain(g, p, sess, box.log, box.texts, box.epoch, s - 1, g.start[s + 1] - pos);
      SkipExact(slot, sess, box.log, pos, box.taken, box.log[i].header.pn);
    }
  }

  /** After the ratchet step, skipping to `n` reaches the message. */
  lemma {:induction false} OpenChain<K>(slot: (Pub, nat) -> K, g: History, s: nat, closed: Session<K>, sent: nat,
                                        box: Inbox, i: nat, newId: KeyId)
    requires SlotsDistinct(slot, box.log) && Valid(g) && s + 2 == |g.keys| && newId !in g.keys
    requires SendSide(g, s, closed, sent) && SentOk(g, (s + 1) % 2, box.log, box.texts, box.epoch)
    requires i < |box.log| && box.epoch[i] == s + 1
    requires g.start[s + 1] <= i && forall j | j in box.taken :: j < g.start[s + 1]
    requires AllSealed(box.log) && closed.skipped == Kept(slot, box.log, g.start[s + 1], box.taken)
    requires Gap(box.taken, g.start[s + 1]) <= MAX_SKIP
    ensures var hd := box.log[i].header;
            var h := Extend(g, newId, sent);
            var r := SkipMessageKeys(slot, DhRatchetStep(closed, hd.dh, newId), hd.n);
            && Valid(h) && SentOk(h, (s + 1) % 2, box.log, box.texts, box.epoch)
            && if Gap(box.taken, i) > MAX_SKIP then r == None
               else r.Some? && SendSide(h, s + 2, r.value, sent) && Aligned(slot, h, s + 2, r.value, box, i)
  {
    hide Gap;
    var p := (s + 1) % 2;
    var start := g.start[s + 1];
    var hd := box.log[i].header;
    var h := Extend(g, newId, sent);
    assert EnvelopeOk(g, p, box.log, box.texts, box.epoch, i);
    RatchetOpensEpoch(g, s, closed, sent, newId);
    ExtendSent(g, newId, sent, p, box.log, box.texts, box.epoch);
    var next := DhRatchetStep(closed, hd.dh, newId);
    EpochInChain(h, p, next, box.log, box.texts, box.epoch, s + 1, i - start);
    SkipExact(slot, next, box.log, start, box.taken, hd.n);
  }

  // ---- Refusing ----

  /** The key of a message that lies behind the session opens under no header at all, as
      long as it is not waiting in the store. */
  lemma {:induction false} StaleRejected<K>(slot: (Pub, nat) -> K, g: History, s: nat, sess: Session<K>, sent: nat,
                                            h: Header, e: nat, n: nat, text: Bytes, newId: KeyId)
    requires Valid(g) && SendSide(g, s, sess, sent) && e <= s && 0 < s
    requires sess.chainKeyRecv == Advance(Chain(g, s - 1), sess.nRecv)
    requires e + 1 == s ==> n < sess.nRecv
    requires forall name | name in sess.skipped.entries :: sess.skipped.entries[name] != MsgKey(g, e, n)
    ensures Decrypt(slot, sess, Sealed(MsgKey(g, e, n), text), h, newId) == Rejected
  {
    var a := Align(slot, sess, h, newId);
    if slot(h.dh, h.n) !in sess.skipped.entries && a.Some? {
      AlignChain(slot, sess, h, newId);
      if MessageKey(a.value.chainKeyRecv) == MsgKey(g, e, n) {
        if h.dh == sess.dhRecvPub {
          var ahead := if sess.nRecv < h.n then h.n - sess.nRecv else 0;
          AdvanceAdd(Chain(g, s - 1), sess.nRecv, ahead);
          MsgKeyInjective(g, e, n, s - 1, sess.nRecv + ahead);
        } else {
          var dh := Dh(sess.dhSendPriv, h.dh);
          AdvanceInjective(Chain(g, e), n, ChainOf(sess.rootKey, dh), h.n);
          RootsGrow(g, s, dh, e);
        }
      }
    }
  }

  /** A message already accepted is refused for ever, whatever header comes with it. */
  lemma {:induction false} SpentRejected<K>(slot: (Pub, nat) -> K, g: History, s: nat, sess: Session<K>, sent: nat,
                                            box: Inbox, i: nat, h: Header, newId: KeyId)
    requires PartyOk(slot, g, s, sess, sent, box) && Injective(slot)
    requires i in box.taken
    ensures Decrypt(slot, sess, box.log[i].ct, h, newId) == Rejected
  {
    var p := (s + 1) % 2;
    var pos := Position(g, s, sess);
    assert EnvelopeOk(g, p, box.log, box.texts, box.epoch, i);
    var e := box.epoch[i];
    var n := i - g.start[e];
    assert s - 1 < e ==> e == s + 1;
    forall name | name in sess.skipped.entries
      ensures sess.skipped.entries[name] != MsgKey(g, e, n)
    {
      var j := PendingOnly(slot, box.log, pos, box.taken, name);
      SentDistinct(slot, g, p, box.log, box.texts, box.epoch, if i < j then i else j, if i < j then j else i);
    }
    StaleRejected(slot, g, s, sess, sent, h, e, n, box.texts[i], newId);
  }

  /** A stored key is the key of the peer's message of that name. */
  lemma {:induction false} StoredKey<K>(slot: (Pub, nat) -> K, g: History, s: nat, sess: Session<K>, sent: nat,
                                        box: Inbox, h: Header)
    returns (e: nat)
    requires PartyOk(slot, g, s, sess, sent, box) && Injective(slot)
    requires slot(h.dh, h.n) in sess.skipped.entries
    ensures e < |g.keys| && e % 2 == (s + 1) % 2 && h.dh == PubOf(g.keys[e])
    ensures sess.skipped.entries[slot(h.dh, h.n)] == MsgKey(g, e, h.n)
  {
    var j := PendingOnly(slot, box.log, Position(g, s, sess), box.taken, slot(h.dh, h.n));
    assert EnvelopeOk(g, (s + 1) % 2, box.log, box.texts, box.epoch, j);
    e := box.epoch[j];
  }

  /** Whatever the header says, the key a session tries is of the all-zero chain or comes
      from the shared secret. */
  lemma {:induction false} TriedKey<K>(slot: (Pub, nat) -> K, g: History, s: nat, sess: Session<K>, sent: nat,
                                       box: Inbox, h: Header, newId: KeyId)
    requires PartyOk(slot, g, s, sess, sent, box) && Align(slot, sess, h, newId).Some?
    ensures var key := MessageKey(Align(slot, sess, h, newId).value.chainKeyRecv);
            if s <= 1 && h.dh == sess.dhRecvPub
            then key == MessageKey(Advance(Zero, if sess.nRecv < h.n then h.n else sess.nRecv))
            else !ZeroKey(key) && Origin(key) == Origin(g.sk)
  {
    AlignChain(slot, sess, h, newId);
    if h.dh == sess.dhRecvPub {
      var ahead := if sess.nRecv < h.n then h.n - sess.nRecv else 0;
      if s > 0 {
        AdvanceAdd(Chain(g, s - 1), sess.nRecv, ahead);
        MsgKeyOrigin(g, s - 1, sess.nRecv + ahead);
        NotZero(Chain(g, s - 1), sess.nRecv + ahead);
      }
    } else {
      RootOrigin(g, s);
      var chain := ChainOf(sess.rootKey, Dh(sess.dhSendPriv, h.dh));
      AdvanceOrigin(chain, h.n);
      NotZero(chain, h.n);
    }
  }

  lemma {:induction false} NotZero(chain: Key, n: nat)
    ensures chain.ChainOf? ==> !ZeroKey(MessageKey(Advance(chain, n)))
  {
    if chain.ChainOf? && ZeroKey(MessageKey(Advance(chain, n))) {
      AdvanceInjective(chain, n, Zero, Rank(Advance(chain, n)));
    }
  }

  /** Not made from the shared secret, and not under a key of the all-zero chain. */
  ghost predicate Outside(sk: Key, ct: Ciphertext) {
    ct.Junk? || (Origin(ct.key) != Origin(sk) && !ZeroKey(ct.key))
  }

  /** A ciphertext from outside, such as one of another conversation, opens nowhere. */
  lemma {:induction false} OutsideRejected<K>(slot: (Pub, nat) -> K, g: History, s: nat, sess: Session<K>, sent: nat,
                                              box: Inbox, h: Header, ct: Ciphertext, newId: KeyId)
    requires PartyOk(slot, g, s, sess, sent, box) && Injective(slot) && Outside(g.sk, ct)
    ensures Decrypt(slot, sess, ct, h, newId) == Rejected
  {
    if slot(h.dh, h.n) in sess.skipped.entries {
      var e := StoredKey(slot, g, s, sess, sent, box, h);
      MsgKeyOrigin(g, e, h.n);
    } else if Align(slot, sess, h, newId).Some? {
      TriedKey(slot, g, s, sess, sent, box, h, newId);
      var n := if sess.nRecv < h.n then h.n else sess.nRecv;
      AdvanceOrigin(Zero, n);
    }
  }

  /** When a session opens message key number `n` of the all-zero chain: a responder that
      has received nothing listens to the all-zero key, an initiator to the responder's
      first key until that is replaced, and to the names it has stored for it. */
  ghost predicate OpensZero<K>(slot: (Pub, nat) -> K, first: KeyId, s: nat, sess: Session<K>, h: Header, n: nat) {
    if s % 2 == 0 then s == 0 && h.dh == ZeroPub && h.n == n <= MAX_SKIP
    else
      && h.dh == PubOf(first)
      && if slot(h.dh, h.n) in sess.skipped.entries then h.n == n
         else s == 1 && n == (if sess.nRecv < h.n then h.n else sess.nRecv)
              && sess.skipped.size + (n - sess.nRecv) <= MAX_SKIP
  }

  lemma {:induction false} ZeroDecides<K>(slot: (Pub, nat) -> K, g: History, s: nat, sess: Session<K>, sent: nat,
                                          box: Inbox, h: Header, n: nat, text: Bytes, newId: KeyId)
    requires PartyOk(slot, g, s, sess, sent, box) && Injective(slot)
    ensures var d := Decrypt(slot, sess, Sealed(MessageKey(Advance(Zero, n)), text), h, newId);
            if OpensZero(slot, g.keys[0], s, sess, h, n) then d.Accepted? && d.plaintext == text else d == Rejected
  {
    AdvanceOrigin(Zero, n);
    if slot(h.dh, h.n) in sess.skipped.entries {
      ZeroStored(slot, g, s, sess, sent, box, h, n);
    } else {
      ZeroTried(slot, g, s, sess, sent, box, h, n, newId);
    }
  }

  lemma {:induction false} ZeroStored<K>(slot: (Pub, nat) -> K, g: History, s: nat, sess: Session<K>, sent: nat,
                                         box: Inbox, h: Header, n: nat)
    requires PartyOk(slot, g, s, sess, sent, box) && Injective(slot)
    requires slot(h.dh, h.n) in sess.skipped.entries
    ensures sess.skipped.entries[slot(h.dh, h.n)] == MessageKey(Advance(Zero, n))
            <==> OpensZero(slot, g.keys[0], s, sess, h, n)
  {
    var e := StoredKey(slot, g, s, sess, sent, box, h);
    assert 0 < e ==> KeysDiffer(g, 0, e);
    if MsgKey(g, e, h.n) == MsgKey(g, 0, n) {
      MsgKeyInjective(g, e, h.n, 0, n);
    }
  }

  lemma {:induction false} ZeroTried<K>(slot: (Pub, nat) -> K, g: History, s: nat, sess: Session<K>, sent: nat,
                                        box: Inbox, h: Header, n: nat, newId: KeyId)
    requires PartyOk(slot, g, s, sess, sent, box)
    requires slot(h.dh, h.n) !in sess.skipped.entries && ZeroKey(MessageKey(Advance(Zero, n)))
    ensures var a := Align(slot, sess, h, newId);
            a.Some? && MessageKey(a.value.chainKeyRecv) == MessageKey(Advance(Zero, n))
            <==> OpensZero(slot, g.keys[0], s, sess, h, n)
  {
    var a := Align(slot, sess, h, newId);
    var reached := if sess.nRecv < h.n then h.n else sess.nRecv;
    if a.Some? {
      TriedKey(slot, g, s, sess, sent, box, h, newId);
      if Advance(Zero, reached) == Advance(Zero, n) {
        AdvanceInjective(Zero, reached, Zero, n);
      }
    }
  }

  /** A party opens a message of its own only while it is the responder, has received
      nothing, and the header names the all-zero key. */
  lemma {:induction false} OwnDecides<K>(slot: (Pub, nat) -> K, g: History, s: nat, sess: Session<K>, sent: nat,
                                         box: Inbox, t: nat, other: Session<K>, otherSent: nat, mine: Inbox, i: nat,
                                         h: Header, newId: KeyId)
    requires PartyOk(slot, g, s, sess, sent, box) && Injective(slot)
    requires PartyOk(slot, g, t, other, otherSent, mine) && (t + 1) % 2 == s % 2 && i < |mine.log|
    ensures i < |mine.texts|
    ensures var d := Decrypt(slot, sess, mine.log[i].ct, h, newId);
            if s == 0 && h.dh == ZeroPub && h.n == i <= MAX_SKIP then d.Accepted? && d.plaintext == mine.texts[i]
            else d == Rejected
  {
    hide Decrypt;
    assert EnvelopeOk(g, (t + 1) % 2, mine.log, mine.texts, mine.epoch, i);
    var e := mine.epoch[i];
    var n := i - g.start[e];
    assert e <= s;
    if s == 0 {
      ZeroDecides(slot, g, s, sess, sent, box, h, n, mine.texts[i], newId);
    } else {
      forall name | name in sess.skipped.entries
        ensures sess.skipped.entries[name] != MsgKey(g, e, n)
      {
        OwnNotStored(slot, g, s, sess, sent, box, name, e, n);
      }
      StaleRejected(slot, g, s, sess, sent, h, e, n, mine.texts[i], newId);
    }
  }

  lemma {:induction false} OwnNotStored<K>(slot: (Pub, nat) -> K, g: History, s: nat, sess: Session<K>, sent: nat,
                                           box: Inbox, name: K, e: nat, n: nat)
    requires PartyOk(slot, g, s, sess, sent, box) && name in sess.skipped.entries
    requires e < |g.keys| && e % 2 == s % 2
    ensures sess.skipped.entries[name] != MsgKey(g, e, n)
  {
    var j := PendingOnly(slot, box.log, Position(g, s, sess), box.taken, name);
    assert EnvelopeOk(g, (s + 1) % 2, box.log, box.texts, box.epoch, j);
    if sess.skipped.entries[name] == MsgKey(g, e, n) {
      MsgKeyInjective(g, e, n, box.epoch[j], j - g.start[box.epoch[j]]);
    }
  }

  /** Every delivery goes as the mailbox says. */
  lemma {:induction false} Receive<K>(slot: (Pub, nat) -> K, g: History, s: nat, sess: Session<K>, sent: nat,
                                      box: Inbox, i: nat, newId: KeyId)
    returns (h: History, t: nat, next: Session<K>)
    requires PartyOk(slot, g, s, sess, sent, box) && Injective(slot)
    requires i < |box.log| && newId !in g.keys
    ensures Decrypt(slot, sess, box.log[i].ct, box.log[i].header, newId)
         == if i in box.taken || Gap(box.taken, i) > MAX_SKIP then Rejected else Accepted(box.texts[i], next)
    ensures i !in box.taken && Gap(box.taken, i) <= MAX_SKIP ==> PartyOk(slot, h, t, next, sent, Accept(box, i))
    ensures (h == g && t == s) || (h == Extend(g, newId, sent) && t == s + 2 == |g.keys|)
  {
    if i in box.taken {
      SpentRejected(slot, g, s, sess, sent, box, i, box.log[i].header, newId);
      h, t, next := g, s, sess;
    } else {
      AllSlotsDistinct(slot, g, (s + 1) % 2, box.log, box.texts, box.epoch);
      h, t, next := ReceiveFirst(slot, g, s, sess, sent, box, i, newId);
    }
  }

  lemma {:induction false} ReceiveFirst<K>(slot: (Pub, nat) -> K, g: History, s: nat, sess: Session<K>, sent: nat,
                                           box: Inbox, i: nat, newId: KeyId)
    returns (h: History, t: nat, next: Session<K>)
    requires PartyOk(slot, g, s, sess, sent, box) && SlotsDistinct(slot, box.log)
    requires i < |box.log| && i !in box.taken && newId !in g.keys
    ensures Decrypt(slot, sess, box.log[i].ct, box.log[i].header, newId)
         == if Gap(box.taken, i) > MAX_SKIP then Rejected else Accepted(box.texts[i], next)
    ensures Gap(box.taken, i) <= MAX_SKIP ==> PartyOk(slot, h, t, next, sent, Accept(box, i))
    ensures (h == g && t == s) || (h == Extend(g, newId, sent) && t == s + 2 == |g.keys|)
  {
    hide Decrypt, Gap, SlotsDistinct;
    if i < Position(g, s, sess) {
      var kept := DeliverStored(slot, g, s, sess, sent, box, i, newId);
      return g, s, kept;
    }
    NotBehind(slot, g, s, sess, sent, box, i);
    if box.epoch[i] + 1 == s {
      var moved := DeliverCurrent(slot, g, s, sess, sent, box, i, newId);
      return g, s, moved;
    }
    assert EnvelopeOk(g, (s + 1) % 2, box.log, box.texts, box.epoch, i);
    var ratcheted := DeliverNext(slot, g, s, sess, sent, box, i, newId);
    return Extend(g, newId, sent), s + 2, ratcheted;
  }

  /** A message not yet passed is of the current receiving epoch or the next one. */
  lemma {:induction false} NotBehind<K>(slot: (Pub, nat) -> K, g: History, s: nat, sess: Session<K>, sent: nat,
                                        box: Inbox, i: nat)
    requires PartyOk(slot, g, s, sess, sent, box)
    requires Position(g, s, sess) <= i < |box.log|
    ensures box.epoch[i] + 1 == s || box.epoch[i] == s + 1
  {
    assert EnvelopeOk(g, (s + 1) % 2, box.log, box.texts, box.epoch, i);
    var e := box.epoch[i];
    assert e + 1 < s ==> e + 2 <= s - 1 && Ordered(g, e + 2, s - 1);
  }

  // ---- Sending ----

  /** Encrypting seals the text under the next key of the sending epoch. */
  lemma {:induction false} Sends<K>(slot: (Pub, nat) -> K, g: History, p: nat, s: nat, sess: Session<K>, box: Inbox,
                                    log: seq<Envelope>, texts: seq<Bytes>, epoch: seq<nat>, text: Bytes)
    requires PartyOk(slot, g, s, sess, |log|, box)
    requires p == s % 2 && SentOk(g, p, log, texts, epoch)
    ensures var r := Encrypt(sess, text);
            && PartyOk(slot, g, s, r.1, |log| + 1, box)
            && SentOk(g, p, log + [r.0], texts + [text], epoch + [s])
  {
    var r := Encrypt(sess, text);
    forall i: nat | i < |log| + 1
      ensures EnvelopeOk(g, p, log + [r.0], texts + [text], epoch + [s], i)
    {
      assert i < |log| ==> EnvelopeOk(g, p, log, texts, epoch, i);
    }
  }

  /** A new message of the peer changes nothing until it arrives. */
  lemma {:induction false} Hears<K>(slot: (Pub, nat) -> K, g: History, p: nat, s: nat, sess: Session<K>, sent: nat,
                                    box: Inbox, env: Envelope, text: Bytes, e: nat)
    requires PartyOk(slot, g, s, sess, sent, box)
    requires p == (s + 1) % 2 && SentOk(g, p, box.log + [env], box.texts + [text], box.epoch + [e])
    ensures PartyOk(slot, g, s, sess, sent, Inbox(box.log + [env], box.texts + [text], box.epoch + [e], box.taken))
  {
    assert EnvelopeOk(g, p, box.log + [env], box.texts + [text], box.epoch + [e], |box.log|);
    PendingPrefix(slot, box.log, env, Position(g, s, sess), box.taken);
  }

  /** The party that stays behind when the other one opens an epoch. */
  lemma {:induction false} StaysBehind<K>(slot: (Pub, nat) -> K, g: History, s: nat, sess: Session<K>, sent: nat,
                                          box: Inbox, newId: KeyId)
    requires PartyOk(slot, g, s, sess, sent, box) && s + 1 == |g.keys|
    requires Valid(Extend(g, newId, |box.log|))
    ensures PartyOk(slot, Extend(g, newId, |box.log|), s, sess, sent, box)
  {
    ExtendOther(slot, g, newId, |box.log|, s, sess, sent, box.log, box.taken);
    ExtendSent(g, newId, |box.log|, (s + 1) % 2, box.log, box.texts, box.epoch);
  }
}
