/** Two users whose calls overlap: a call loads the stored session, and finishes with the copy
    it loaded, while other calls of the same user load and finish in between. */
module Interleaving {
  import opened Encoding
  import opened Terms
  import opened Ratchet
  import opened Epochs
  import opened Delivery
  import C = Conversation
  import X = Exchange

  /** Both conversations, and what each call in flight has loaded. */
  datatype State = State(pair: X.Pair, loaded: map<(Side, nat), Option<Session<string>>>)

  datatype Step = Load(side: Side, t: nat) | Finish(t: nat, call: X.Call)

  function SideOf(call: X.Call): Side {
    match call
    case SendCall(from, _, _) => from
    case ReceiveCall(to, _, _) => to
    case OtherCall(to, _) => to
  }

  /** The call as it works on `session`; if it saves nothing, the stored session stays. */
  function FinishFrom(slot: (Pub, nat) -> string, p: X.Pair, session: Option<Session<string>>, call: X.Call): X.Pair {
    var side := SideOf(call);
    var stored := p.ViewOf(side).session;
    var p' := X.Act(slot, p.WithView(side, p.ViewOf(side).(session := session)), call);
    if p'.ViewOf(side).session == session then p'.WithView(side, p'.ViewOf(side).(session := stored)) else p'
  }

  function Act(slot: (Pub, nat) -> string, s: State, step: Step): State {
    match step
    case Load(side, t) => s.(loaded := s.loaded[(side, t) := s.pair.ViewOf(side).session])
    case Finish(t, call) =>
      var flight := (SideOf(call), t);
      if flight !in s.loaded then s
      else State(FinishFrom(slot, s.pair, s.loaded[flight], call), s.loaded - {flight})
  }

  function Run(slot: (Pub, nat) -> string, s: State, steps: seq<Step>): State {
    if steps == [] then s else Act(slot, Run(slot, s, steps[..|steps| - 1]), steps[|steps| - 1])
  }

  /** A saved session is never the one it was made from, so `FinishFrom` tells a save by it. */
  lemma {:induction false} SavesChange(slot: (Pub, nat) -> string, s: Session<string>, text: Bytes, ct: Ciphertext,
                                       h: Header, newId: KeyId)
    ensures Encrypt(s, text).1 != s
    ensures var r := Decrypt(slot, s, ct, h, newId); r.Accepted? ==> r.next != s
  {
    var a := Align(slot, s, h, newId);
    if slot(h.dh, h.n) !in s.skipped.entries && a.Some? {
      if s.nRecv < h.n {
        SkipToFields(slot, s, h.n);
      }
      if h.dh != s.dhRecvPub {
        var next := DhRatchetStep(SkipMessageKeys(slot, s, h.pn).value, h.dh, newId);
        if next.nRecv < h.n {
          SkipToFields(slot, next, h.n);
        }
      }
    }
  }

  // ---- Without stale sessions ----

  ghost predicate Stale(s: State, step: Step) {
    && step.Finish? && (SideOf(step.call), step.t) in s.loaded
    && s.loaded[(SideOf(step.call), step.t)] != s.pair.ViewOf(SideOf(step.call)).session
  }

  ghost predicate NeverStale(slot: (Pub, nat) -> string, s: State, steps: seq<Step>) {
    steps != [] ==>
      && NeverStale(slot, s, steps[..|steps| - 1])
      && !Stale(Run(slot, s, steps[..|steps| - 1]), steps[|steps| - 1])
  }

  /** The calls in the order in which they finish. */
  function Calls(slot: (Pub, nat) -> string, s: State, steps: seq<Step>): seq<X.Call> {
    if steps == [] then []
    else
      var before, last := Calls(slot, s, steps[..|steps| - 1]), steps[|steps| - 1];
      if last.Finish? && (SideOf(last.call), last.t) in Run(slot, s, steps[..|steps| - 1]).loaded
      then before + [last.call] else before
  }

  lemma {:induction false} FreshIsSerial(slot: (Pub, nat) -> string, p: X.Pair, call: X.Call)
    ensures FinishFrom(slot, p, p.ViewOf(SideOf(call)).session, call) == X.Act(slot, p, call)
  {
    hide X.Act;
    var side := SideOf(call);
    assert p.WithView(side, p.ViewOf(side).(session := p.ViewOf(side).session)) == p;
  }

  /** A run in which every call finishes while what it loaded is still stored is the run of its
      calls one after the other. */
  lemma {:induction false} FreshRunIsSerial(slot: (Pub, nat) -> string, s: State, steps: seq<Step>)
    requires NeverStale(slot, s, steps)
    ensures Run(slot, s, steps).pair == X.Run(slot, s.pair, Calls(slot, s, steps))
  {
    hide X.Act, FinishFrom;
    if steps != [] {
      var front, last := steps[..|steps| - 1], steps[|steps| - 1];
      FreshRunIsSerial(slot, s, front);
      if last.Finish? && (SideOf(last.call), last.t) in Run(slot, s, front).loaded {
        FreshIsSerial(slot, Run(slot, s, front).pair, last.call);
        assert (Calls(slot, s, front) + [last.call])[..|Calls(slot, s, front)|] == Calls(slot, s, front);
      }
    }
  }

  /** So each user is shown each text of the peer at most once, and misses a text taken from the
      channel exactly if the call that took it stopped after saving. */
  lemma {:induction false} InterleavedShows(slot: (Pub, nat) -> string, sk: Key, bobKey: KeyId, aliceKey: KeyId,
                                            nextId: KeyId, steps: seq<Step>, side: Side)
    requires Injective(slot) && bobKey != aliceKey && bobKey < nextId && aliceKey < nextId
    requires NeverStale(slot, State(X.Begin(sk, bobKey, aliceKey, nextId), map[]), steps)
    ensures var start := State(X.Begin(sk, bobKey, aliceKey, nextId), map[]);
            var ch := X.TalkRun(X.QUIET, Calls(slot, start, steps)).ChannelTo(side);
            && X.ShownOnce(ch) && X.InRange(ch)
            && X.Theirs(Run(slot, start, steps).pair.ViewOf(side).shown) == X.ShownTexts(ch)
            && Run(slot, start, steps).pair.ViewOf(side).shown == X.ShownList(Calls(slot, start, steps), side)
  {
    hide Run, X.ShownList, X.Run, X.TalkRun, X.ShownOnce, X.InRange, X.Theirs, X.ShownTexts, NeverStale, Calls, X.Begin;
    var start := State(X.Begin(sk, bobKey, aliceKey, nextId), map[]);
    FreshRunIsSerial(slot, start, steps);
    X.ExchangeShows(slot, sk, bobKey, aliceKey, nextId, Calls(slot, start, steps), side);
    X.ExchangeShowsAll(slot, sk, bobKey, aliceKey, nextId, Calls(slot, start, steps), side);
  }

  // ---- With one ----

  /** Handling the only message on the network, with a session that opens it. */
  lemma {:induction false} Received(slot: (Pub, nat) -> string, p: X.Pair, session: Session<string>, text: Bytes,
                                    next: Session<string>)
    requires |p.responder.network| == 1 && next != session
    requires var env := p.responder.network[0];
             Decrypt(slot, session, env.ct, env.header, p.nextId) == Accepted(text, next)
    ensures FinishFrom(slot, p, Some(session), X.ReceiveCall(Initiator, 0, C.Handled))
         == X.Pair(C.View(Some(next), p.initiator.network, p.initiator.shown + [C.Theirs(text)], p.nextId + 1),
                   p.responder, p.nextId + 1)
  {
    hide Decrypt;
  }

  /** The initiator opens the responder's first message whatever it has sent itself. */
  lemma {:induction false} FirstMessage(slot: (Pub, nat) -> string, session: Session<string>, bobKey: KeyId,
                                        newId: KeyId, text: Bytes)
    requires session.dhRecvPub == PubOf(bobKey) && session.nRecv == 0 && session.chainKeyRecv == Zero
    requires session.skipped.entries == map[]
    ensures Decrypt(slot, session, Sealed(MessageKey(Zero), text), Header(PubOf(bobKey), 0, 0), newId)
            == Accepted(text, session.(chainKeyRecv := NextChain(Zero), nRecv := 1))
  {
  }

  /** A send that loads before a receipt and saves after it makes the receiver forget the
      receipt: the same message, delivered again, is shown again. */
  lemma {:induction false} ShownTwice(slot: (Pub, nat) -> string, sk: Key, bobKey: KeyId, aliceKey: KeyId,
                                      nextId: KeyId, text: Bytes, other: Bytes)
    ensures var sent := X.Act(slot, X.Begin(sk, bobKey, aliceKey, nextId), X.SendCall(Responder, text, C.Completed));
            var receive := X.ReceiveCall(Initiator, 0, C.Handled);
            var loaded := Act(slot, Act(slot, State(sent, map[]), Load(Initiator, 0)), Load(Initiator, 1));
            var received := Act(slot, loaded, Finish(1, receive));
            var rewound := Act(slot, received, Finish(0, X.SendCall(Initiator, other, C.BeforeNetwork)));
            var again := Act(slot, Act(slot, rewound, Load(Initiator, 2)), Finish(2, receive));
            again.pair.initiator.shown == [C.Theirs(text), C.Theirs(text)]
  {
    var session := InitSender(sk, PubOf(bobKey), aliceKey);
    var sent := X.Act(slot, X.Begin(sk, bobKey, aliceKey, nextId), X.SendCall(Responder, text, C.Completed));
    assert sent.responder.network == [Envelope(Header(PubOf(bobKey), 0, 0), Sealed(MessageKey(Zero), text))];
    assert sent.initiator == C.View(Some(session), [], [], nextId);
    FirstMessage(slot, session, bobKey, nextId, text);
    var read := session.(chainKeyRecv := NextChain(Zero), nRecv := 1);
    Received(slot, sent, session, text, read);
    var received := X.Pair(C.View(Some(read), [], [C.Theirs(text)], nextId + 1), sent.responder, nextId + 1);
    var next := Encrypt(session, other).1;
    var rewound := received.(initiator := received.initiator.(session := Some(next)));
    assert FinishFrom(slot, received, Some(session), X.SendCall(Initiator, other, C.BeforeNetwork)) == rewound;
    FirstMessage(slot, next, bobKey, nextId + 1, text);
    Received(slot, rewound, next, text, next.(chainKeyRecv := NextChain(Zero), nRecv := 1));
    hide FinishFrom, Decrypt;
  }
}
