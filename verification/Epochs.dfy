/** The invariant of a two-party ratchet run.

    The ratchet keys of both parties form one list: the responder's first key, the
    initiator's first key, the responder's second, and so on.  Key number `e` opens epoch
    `e`, in which its owner sends; the responder owns the even epochs and the initiator the
    odd ones.  A party that sends in epoch `s` receives in epoch `s - 1`. */
module Epochs {
  import opened Encoding
  import opened Terms
  import opened Ratchet
  import opened Mailbox

  /** `start[e]` is the position, in its owner's list of sent messages, of the first
      message of epoch `e`. */
  datatype History = History(sk: Key, keys: seq<KeyId>, start: seq<nat>)

  ghost predicate Valid(g: History) {
    && |g.keys| == |g.start| >= 2
    && g.start[0] == 0 && g.start[1] == 0
    && (forall e: nat, f: nat | e < f < |g.keys| :: KeysDiffer(g, e, f))
    && (forall e: nat, f: nat | e <= f < |g.start| :: Ordered(g, e, f))
  }

  ghost predicate KeysDiffer(g: History, e: nat, f: nat)
    requires e < f < |g.keys|
  {
    g.keys[e] != g.keys[f]
  }

  ghost predicate Ordered(g: History, e: nat, f: nat)
    requires e <= f < |g.start|
  {
    e % 2 == f % 2 ==> g.start[e] <= g.start[f]
  }

  ghost function Root(g: History, e: nat): Key
    requires e < |g.keys|
  {
    if e == 0 then g.sk else RootOf(Root(g, e - 1), Dh(g.keys[e - 1], PubOf(g.keys[e])))
  }

  ghost function Chain(g: History, e: nat): Key
    requires e < |g.keys|
  {
    if e == 0 then Zero else ChainOf(Root(g, e - 1), Dh(g.keys[e - 1], PubOf(g.keys[e])))
  }

  ghost function MsgKey(g: History, e: nat, n: nat): Key
    requires e < |g.keys|
  {
    MessageKey(Advance(Chain(g, e), n))
  }

  /** Messages sent by the owner of epoch `e` in its previous epoch. */
  ghost function Previous(g: History, e: nat): int
    requires e < |g.start|
  {
    if e < 2 then 0 else g.start[e] as int - g.start[e - 2] as int
  }

  // ---- Keys of different epochs never meet ----

  lemma {:induction false} RootRank(g: History, e: nat)
    requires e < |g.keys|
    ensures Rank(Root(g, e)) == Rank(g.sk) + e
  {
    if e > 0 {
      RootRank(g, e - 1);
    }
  }

  /** No chain key derived from the root of epoch `s` is the chain of an epoch up to `s`. */
  lemma {:induction false} RootsGrow(g: History, s: nat, dh: DhSecret, e: nat)
    requires e <= s < |g.keys|
    ensures Chain(g, e) != ChainOf(Root(g, s), dh)
  {
    RootRank(g, s);
    if e > 0 {
      RootRank(g, e - 1);
    }
  }

  lemma {:induction false} MsgKeyInjective(g: History, e: nat, m: nat, f: nat, n: nat)
    requires e < |g.keys| && f < |g.keys|
    requires MsgKey(g, e, m) == MsgKey(g, f, n)
    ensures e == f && m == n
  {
    AdvanceInjective(Chain(g, e), m, Chain(g, f), n);
    if e > 0 && f > 0 {
      RootRank(g, e - 1);
      RootRank(g, f - 1);
    }
  }

  lemma {:induction false} RootOrigin(g: History, e: nat)
    requires e < |g.keys|
    ensures Origin(Root(g, e)) == Origin(g.sk)
  {
    if e > 0 {
      RootOrigin(g, e - 1);
    }
  }

  /** Message keys come from the shared secret, or are of the all-zero chain of epoch 0. */
  lemma {:induction false} MsgKeyOrigin(g: History, e: nat, n: nat)
    requires e < |g.keys|
    ensures if e == 0 then MsgKey(g, e, n) == MessageKey(Advance(Zero, n)) && ZeroKey(MsgKey(g, e, n))
            else Origin(MsgKey(g, e, n)) == Origin(g.sk)
  {
    AdvanceOrigin(Chain(g, e), n);
    if e > 0 {
      RootOrigin(g, e - 1);
    }
  }

  // ---- The messages a party has sent ----

  /** `log` is what the owner of the epochs of parity `p` has sent, `epoch[i]` the epoch
      message `i` was sent in. */
  ghost predicate SentOk(g: History, p: nat, log: seq<Envelope>, texts: seq<Bytes>, epoch: seq<nat>)
    requires Valid(g)
  {
    && |log| == |texts| == |epoch|
    && (forall i: nat | i < |log| :: EnvelopeOk(g, p, log, texts, epoch, i))
  }

  ghost predicate EnvelopeOk(g: History, p: nat, log: seq<Envelope>, texts: seq<Bytes>, epoch: seq<nat>, i: nat)
    requires Valid(g) && i < |log| == |texts| == |epoch|
  {
    var e, hd := epoch[i], log[i].header;
    && e < |g.keys| && e % 2 == p
    && g.start[e] <= i
    && (e + 2 < |g.keys| ==> i < g.start[e + 2])
    && hd.dh == PubOf(g.keys[e])
    && hd.n == i - g.start[e]
    && hd.pn == Previous(g, e)
    && log[i].ct == Sealed(MsgKey(g, e, i - g.start[e]), texts[i])
  }

  /** A position between the start of `r` and the start of the owner's next epoch was sent
      in `r`. */
  lemma {:induction false} EpochAt(g: History, p: nat, log: seq<Envelope>, texts: seq<Bytes>, epoch: seq<nat>, r: nat,
                                   i: nat)
    requires Valid(g) && SentOk(g, p, log, texts, epoch)
    requires r < |g.keys| && r % 2 == p
    requires i < |log| && g.start[r] <= i && (r + 2 < |g.keys| ==> i < g.start[r + 2])
    ensures epoch[i] == r
  {
    assert EnvelopeOk(g, p, log, texts, epoch, i);
    var e := epoch[i];
    assert e < r ==> e + 2 <= r && Ordered(g, e + 2, r);
    assert r < e ==> r + 2 <= e && Ordered(g, r + 2, e);
  }

  function SlotOf<K>(slot: (Pub, nat) -> K, env: Envelope): K {
    slot(env.header.dh, env.header.n)
  }

  ghost predicate Injective<K>(slot: (Pub, nat) -> K) {
    forall p, n, q, m :: slot(p, n) == slot(q, m) ==> p == q && n == m
  }

  /** Two messages of one sender never share a slot or a key. */
  lemma {:induction false} SentDistinct<K>(slot: (Pub, nat) -> K, g: History, p: nat, log: seq<Envelope>,
                                           texts: seq<Bytes>, epoch: seq<nat>, i: nat, j: nat)
    requires Injective(slot)
    requires Valid(g) && SentOk(g, p, log, texts, epoch)
    requires i < j < |log|
    ensures SlotOf(slot, log[i]) != SlotOf(slot, log[j])
    ensures log[i].ct.Sealed? && log[j].ct.Sealed? && log[i].ct.key != log[j].ct.key
  {
    assert EnvelopeOk(g, p, log, texts, epoch, i);
    assert EnvelopeOk(g, p, log, texts, epoch, j);
    assert epoch[i] < epoch[j] ==> KeysDiffer(g, epoch[i], epoch[j]);
    assert epoch[j] < epoch[i] ==> KeysDiffer(g, epoch[j], epoch[i]);
    if log[i].ct.key == log[j].ct.key {
      MsgKeyInjective(g, epoch[i], i - g.start[epoch[i]], epoch[j], j - g.start[epoch[j]]);
    }
  }

  ghost predicate AllSealed(log: seq<Envelope>) {
    forall i | 0 <= i < |log| :: log[i].ct.Sealed?
  }

  ghost predicate SlotsDistinct<K>(slot: (Pub, nat) -> K, log: seq<Envelope>) {
    && AllSealed(log)
    && (forall i: nat, j: nat | i < j < |log| :: SlotsDiffer(slot, log, i, j))
  }

  ghost predicate SlotsDiffer<K>(slot: (Pub, nat) -> K, log: seq<Envelope>, i: nat, j: nat)
    requires i < j < |log|
  {
    SlotOf(slot, log[i]) != SlotOf(slot, log[j])
  }

  lemma {:induction false} AllSlotsDistinct<K>(slot: (Pub, nat) -> K, g: History, p: nat, log: seq<Envelope>,
                                               texts: seq<Bytes>, epoch: seq<nat>)
    requires Injective(slot)
    requires Valid(g) && SentOk(g, p, log, texts, epoch)
    ensures SlotsDistinct(slot, log)
  {
    forall i | 0 <= i < |log|
      ensures log[i].ct.Sealed?
    {
      assert EnvelopeOk(g, p, log, texts, epoch, i);
    }
    forall i: nat, j: nat | i < j < |log|
      ensures SlotsDiffer(slot, log, i, j)
    {
      SentDistinct(slot, g, p, log, texts, epoch, i, j);
    }
  }

  // ---- The store of skipped keys ----

  /** The keys of the messages before `pos` that were not taken. */
  ghost function Pending<K>(slot: (Pub, nat) -> K, log: seq<Envelope>, pos: nat, taken: set<nat>): map<K, Key>
    requires pos <= |log| && AllSealed(log)
  {
    if pos == 0 then map[]
    else
      var before := Pending(slot, log, pos - 1, taken);
      if pos - 1 in taken then before
      else before[SlotOf(slot, log[pos - 1]) := log[pos - 1].ct.key]
  }

  lemma {:induction false} PendingHas<K>(slot: (Pub, nat) -> K, log: seq<Envelope>, pos: nat, taken: set<nat>, i: nat)
    requires pos <= |log| && SlotsDistinct(slot, log)
    requires i < pos && i !in taken
    ensures var name := SlotOf(slot, log[i]);
            name in Pending(slot, log, pos, taken) && Pending(slot, log, pos, taken)[name] == log[i].ct.key
  {
    if i < pos - 1 {
      PendingHas(slot, log, pos - 1, taken, i);
      assert SlotsDiffer(slot, log, i, pos - 1);
    }
  }

  lemma {:induction false} PendingOnly<K>(slot: (Pub, nat) -> K, log: seq<Envelope>, pos: nat, taken: set<nat>, name: K)
    returns (i: nat)
    requires pos <= |log| && AllSealed(log)
    requires name in Pending(slot, log, pos, taken)
    ensures i < pos && i !in taken && name == SlotOf(slot, log[i])
    ensures Pending(slot, log, pos, taken)[name] == log[i].ct.key
  {
    if pos - 1 !in taken && name == SlotOf(slot, log[pos - 1]) {
      i := pos - 1;
    } else {
      i := PendingOnly(slot, log, pos - 1, taken, name);
    }
  }

  lemma {:induction false} PendingMisses<K>(slot: (Pub, nat) -> K, log: seq<Envelope>, pos: nat, taken: set<nat>,
                                            i: nat)
    requires pos <= |log| && SlotsDistinct(slot, log)
    requires i < |log| && (i in taken || pos <= i)
    ensures SlotOf(slot, log[i]) !in Pending(slot, log, pos, taken)
  {
    if pos > 0 {
      PendingMisses(slot, log, pos - 1, taken, i);
      assert i < pos - 1 ==> SlotsDiffer(slot, log, i, pos - 1);
      assert pos - 1 < i ==> SlotsDiffer(slot, log, pos - 1, i);
    }
  }

  lemma {:induction false} PendingSize<K>(slot: (Pub, nat) -> K, log: seq<Envelope>, pos: nat, taken: set<nat>)
    requires pos <= |log| && SlotsDistinct(slot, log)
    ensures |Pending(slot, log, pos, taken)| == Gap(taken, pos)
  {
    if pos > 0 {
      PendingSize(slot, log, pos - 1, taken);
      PendingMisses(slot, log, pos - 1, taken, pos - 1);
    }
  }

  /** Accepting message `i` removes its key. */
  lemma {:induction false} PendingTake<K>(slot: (Pub, nat) -> K, log: seq<Envelope>, pos: nat, taken: set<nat>, i: nat)
    requires pos <= |log| && SlotsDistinct(slot, log)
    requires i < |log| && i !in taken
    ensures Pending(slot, log, pos, taken + {i}) == Pending(slot, log, pos, taken) - {SlotOf(slot, log[i])}
  {
    if pos > 0 {
      PendingTake(slot, log, pos - 1, taken, i);
      if i == pos - 1 {
        PendingMisses(slot, log, pos - 1, taken, i);
      } else {
        assert i < pos - 1 ==> SlotsDiffer(slot, log, i, pos - 1);
        assert pos - 1 < i ==> SlotsDiffer(slot, log, pos - 1, i);
      }
    }
  }

  /** Later messages of the sender do not matter. */
  lemma {:induction false} PendingPrefix<K>(slot: (Pub, nat) -> K, log: seq<Envelope>, env: Envelope, pos: nat,
                                            taken: set<nat>)
    requires pos <= |log| && AllSealed(log) && env.ct.Sealed?
    ensures Pending(slot, log + [env], pos, taken) == Pending(slot, log, pos, taken)
  {
    if pos > 0 {
      PendingPrefix(slot, log, env, pos - 1, taken);
    }
  }
}
