/** Two conversations talking to each other: what either user is shown, when the network
    delivers in any order and any number of times, and every call may stop at any point. */
module Exchange {
  import opened Encoding
  import opened Terms
  import opened Ratchet
  import opened Mailbox
  import opened Epochs
  import opened Delivery
  import C = Conversation

  datatype Call =
    | SendCall(from: Side, text: Bytes, sendEnd: C.SendEnd)
    | ReceiveCall(to: Side, j: nat, receiveEnd: C.ReceiveEnd)   // message j the peer put on the network
    | OtherCall(to: Side, receiveEnd: C.ReceiveEnd)             // a message with another kind of header

  datatype Pair = Pair(initiator: C.View, responder: C.View, nextId: KeyId) {
    function ViewOf(side: Side): C.View {
      if side == Initiator then initiator else responder
    }

    function WithView(side: Side, v: C.View): Pair {
      if side == Initiator then this.(initiator := v) else this.(responder := v)
    }
  }

  function Act(slot: (Pub, nat) -> string, p: Pair, call: Call): Pair {
    match call
    case SendCall(from, text, end) => p.WithView(from, C.AfterSend(p.ViewOf(from), text, end))
    case ReceiveCall(to, j, end) =>
      var network := p.ViewOf(Peer(to)).network;
      if j >= |network| then p
      else
        var m := C.RatchetMessage(network[j].header, network[j].ct);
        var v := C.AfterIncoming(slot, p.ViewOf(to).(nextId := p.nextId), m, end);
        p.WithView(to, v).(nextId := v.nextId)
    case OtherCall(to, end) => p.WithView(to, C.AfterIncoming(slot, p.ViewOf(to), C.OtherMessage, end))
  }

  function Run(slot: (Pub, nat) -> string, p: Pair, calls: seq<Call>): Pair {
    if calls == [] then p else Act(slot, Run(slot, p, calls[..|calls| - 1]), calls[|calls| - 1])
  }

  function Begin(sk: Key, bobKey: KeyId, aliceKey: KeyId, nextId: KeyId): Pair {
    Pair(C.View(Some(InitSender(sk, PubOf(bobKey), aliceKey)), [], [], nextId),
         C.View(Some(InitReceiver(sk, bobKey)), [], [], nextId), nextId)
  }

  // ---- What it comes to ----

  /** One direction: the texts sealed so far, which of them each network message carries, and
      which were taken from the channel, shown to the user in this order, or lost. */
  datatype Channel = Channel(texts: seq<Bytes>, reached: seq<nat>, taken: set<nat>, shown: seq<nat>, lost: set<nat>)

  datatype Talk = Talk(toInitiator: Channel, toResponder: Channel) {
    function ChannelTo(side: Side): Channel {
      if side == Initiator then toInitiator else toResponder
    }

    function WithChannel(side: Side, channel: Channel): Talk {
      if side == Initiator then this.(toInitiator := channel) else this.(toResponder := channel)
    }
  }

  const QUIET := Talk(Channel([], [], {}, [], {}), Channel([], [], {}, [], {}))

  /** A text is lost exactly when the call that took it stops after the save. */
  ghost function Took(ch: Channel, i: nat, end: C.ReceiveEnd): Channel {
    match end
    case Unsaved => ch
    case SaveFailed => ch
    case SaveUnsure => ch.(taken := ch.taken + {i}, lost := ch.lost + {i})
    case Unshown => ch.(taken := ch.taken + {i}, lost := ch.lost + {i})
    case Handled => ch.(taken := ch.taken + {i}, shown := ch.shown + [i])
  }

  ghost function Sent(ch: Channel, text: Bytes, end: C.SendEnd): Channel {
    if end.BeforeSave? then ch
    else ch.(texts := ch.texts + [text], reached := if end.BeforeNetwork? then ch.reached
                                                    else ch.reached + [|ch.texts|])
  }

  ghost function TalkAct(talk: Talk, call: Call): Talk {
    match call
    case SendCall(from, text, end) => talk.WithChannel(Peer(from), Sent(talk.ChannelTo(Peer(from)), text, end))
    case ReceiveCall(to, j, end) =>
      var ch := talk.ChannelTo(to);
      if j < |ch.reached| && CanTake(Mailbox(ch.texts, ch.taken), ch.reached[j], MAX_SKIP)
      then talk.WithChannel(to, Took(ch, ch.reached[j], end)) else talk
    case OtherCall(_, _) => talk
  }

  ghost function TalkRun(talk: Talk, calls: seq<Call>): Talk {
    if calls == [] then talk else TalkAct(TalkRun(talk, calls[..|calls| - 1]), calls[|calls| - 1])
  }

  /** The texts of the peer among what a user was shown. */
  function Theirs(shown: seq<C.Shown>): seq<Bytes> {
    if shown == [] then []
    else
      var last := shown[|shown| - 1];
      Theirs(shown[..|shown| - 1]) + (if last.Theirs? then [last.text] else [])
  }

  ghost predicate InRange(ch: Channel) {
    && (forall k | 0 <= k < |ch.shown| :: ch.shown[k] < |ch.texts|)
    && (forall j | 0 <= j < |ch.reached| :: ch.reached[j] < |ch.texts|)
  }

  ghost function ShownTexts(ch: Channel): seq<Bytes>
    requires InRange(ch)
  {
    seq(|ch.shown|, k requires 0 <= k < |ch.shown| => ch.texts[ch.shown[k]])
  }

  // ---- The views against the ratchet run ----

  ghost predicate SideRel(p: Pair, talk: Talk, w: World<string>, net: Net, side: Side) {
    && p.ViewOf(side).session == Some(w.SessionOf(side))
    && Mailbox(talk.ChannelTo(side).texts, talk.ChannelTo(side).taken) == net.BoxOf(side)
    && ChannelRel(talk.ChannelTo(side), p.ViewOf(Peer(side)).network, w.SentBy(Peer(side)), p.ViewOf(side).shown)
  }

  /** The channel against what the peer sealed and put on the network and what was shown. */
  ghost predicate ChannelRel(ch: Channel, network: seq<Envelope>, sent: seq<Envelope>, shown: seq<C.Shown>) {
    && InRange(ch) && |sent| == |ch.texts|
    && |ch.reached| == |network| && (forall j | 0 <= j < |network| :: sent[ch.reached[j]] == network[j])
    && Theirs(shown) == ShownTexts(ch)
  }

  lemma {:induction false} ChannelSends(ch: Channel, network: seq<Envelope>, sent: seq<Envelope>, shown: seq<C.Shown>,
                                        text: Bytes, env: Envelope)
    requires ChannelRel(ch, network, sent, shown)
    ensures ChannelRel(Sent(ch, text, C.BeforeNetwork), network, sent + [env], shown)
    ensures forall end: C.SendEnd | end.ReplyLost? || end.Completed? ::
              ChannelRel(Sent(ch, text, end), network + [env], sent + [env], shown)
  {
    hide Theirs;
    var ch' := Sent(ch, text, C.BeforeNetwork);
    assert ShownTexts(ch') == ShownTexts(ch);
    var ch'' := Sent(ch, text, C.Completed);
    assert ShownTexts(ch'') == ShownTexts(ch);
  }

  lemma {:induction false} ChannelTakes(ch: Channel, network: seq<Envelope>, sent: seq<Envelope>, shown: seq<C.Shown>,
                                        i: nat, end: C.ReceiveEnd)
    requires ChannelRel(ch, network, sent, shown) && i < |ch.texts| && !end.Unsaved? && !end.SaveFailed?
    ensures ChannelRel(Took(ch, i, end), network, sent, shown + NewShown(end, ch.texts[i]))
  {
    hide Theirs, ShownTexts;
    assert shown + [] == shown;
    TheirsAppend(shown, C.DecryptionError);
    TheirsAppend(shown, C.Theirs(ch.texts[i]));
    ShownAppend(ch, i);
  }

  lemma {:induction false} ShownAppend(ch: Channel, i: nat)
    requires InRange(ch) && i < |ch.texts|
    ensures InRange(Took(ch, i, C.Handled)) && ShownTexts(Took(ch, i, C.Handled)) == ShownTexts(ch) + [ch.texts[i]]
    ensures forall end: C.ReceiveEnd | !end.Handled? ::
              InRange(Took(ch, i, end)) && ShownTexts(Took(ch, i, end)) == ShownTexts(ch)
  {
    assert ShownTexts(Took(ch, i, C.Handled)) == ShownTexts(ch) + [ch.texts[i]];
    forall end: C.ReceiveEnd | !end.Handled?
      ensures InRange(Took(ch, i, end)) && ShownTexts(Took(ch, i, end)) == ShownTexts(ch)
    {
      assert ShownTexts(Took(ch, i, end)) == ShownTexts(ch);
    }
  }

  lemma {:induction false} ChannelShows(ch: Channel, network: seq<Envelope>, sent: seq<Envelope>, shown: seq<C.Shown>,
                                        s: C.Shown)
    requires ChannelRel(ch, network, sent, shown) && !s.Theirs?
    ensures ChannelRel(ch, network, sent, shown + [s])
  {
    TheirsAppend(shown, s);
  }

  ghost predicate Rel(p: Pair, talk: Talk, w: World<string>, net: Net) {
    SideRel(p, talk, w, net, Initiator) && SideRel(p, talk, w, net, Responder) && p.nextId == w.nextId
  }

  lemma {:induction false} RelOf(p: Pair, talk: Talk, w: World<string>, net: Net, side: Side)
    requires Rel(p, talk, w, net)
    ensures SideRel(p, talk, w, net, side) && SideRel(p, talk, w, net, Peer(side)) && p.nextId == w.nextId
  {
  }

  lemma {:induction false} RelFrom(p: Pair, talk: Talk, w: World<string>, net: Net, side: Side)
    requires SideRel(p, talk, w, net, side) && SideRel(p, talk, w, net, Peer(side)) && p.nextId == w.nextId
    ensures Rel(p, talk, w, net)
  {
  }

  lemma {:induction false} TheirsAppend(shown: seq<C.Shown>, s: C.Shown)
    ensures Theirs(shown + [s]) == Theirs(shown) + (if s.Theirs? then [s.text] else [])
  {
    assert (shown + [s])[..|shown|] == shown;
  }

  lemma {:induction false} SentTexts(ch: Channel, text: Bytes, end: C.SendEnd)
    requires !end.BeforeSave?
    ensures Sent(ch, text, end).texts == ch.texts + [text] && Sent(ch, text, end).taken == ch.taken
  {
  }

  lemma {:induction false} SendRel(slot: (Pub, nat) -> string, p: Pair, talk: Talk, w: World<string>, net: Net,
                                   from: Side, text: Bytes, end: C.SendEnd)
    requires Rel(p, talk, w, net) && !end.BeforeSave?
    ensures Rel(Act(slot, p, SendCall(from, text, end)), TalkAct(talk, SendCall(from, text, end)),
                Delivery.Act(slot, w, Send(from, text)).0, NetAct(net, Send(from, text)).0)
  {
    hide Encrypt, ChannelRel, Sent;
    var p', talk' := Act(slot, p, SendCall(from, text, end)), TalkAct(talk, SendCall(from, text, end));
    var w', net' := Delivery.Act(slot, w, Send(from, text)).0, NetAct(net, Send(from, text)).0;
    RelOf(p, talk, w, net, from);
    var to := Peer(from);
    ChannelShows(talk.ChannelTo(from), p.ViewOf(to).network, w.SentBy(to), p.ViewOf(from).shown, C.Mine(text));
    ChannelSends(talk.ChannelTo(to), p.ViewOf(from).network, w.SentBy(from), p.ViewOf(to).shown, text,
                 Encrypt(w.SessionOf(from), text).0);
    SentTexts(talk.ChannelTo(to), text, end);
    RelFrom(p', talk', w', net', from);
  }

  /** A receipt whose result is thrown away leaves the ratchet run where it was. */
  lemma {:induction false} DiscardRel(slot: (Pub, nat) -> string, p: Pair, talk: Talk, w: World<string>, net: Net,
                                      to: Side, j: nat, end: C.ReceiveEnd)
    requires Rel(p, talk, w, net) && j < |talk.ChannelTo(to).reached|
    requires var env := p.ViewOf(Peer(to)).network;
             && j < |env| && w.SessionOf(to) == p.ViewOf(to).session.value
             && (end.Unsaved? || end.SaveFailed?
                 || Decrypt(slot, w.SessionOf(to), env[j].ct, env[j].header, w.nextId) == Rejected)
    ensures Rel(Act(slot, p, ReceiveCall(to, j, end)), talk, w.(nextId := w.nextId + 1), net)
  {
    hide Decrypt, ChannelRel;
    RelOf(p, talk, w, net, to);
    var p', w' := Act(slot, p, ReceiveCall(to, j, end)), w.(nextId := w.nextId + 1);
    ChannelShows(talk.ChannelTo(to), p.ViewOf(Peer(to)).network, w.SentBy(Peer(to)), p.ViewOf(to).shown,
                 C.DecryptionError);
    RelFrom(p', talk, w', net, to);
  }

  lemma {:induction false} SavedEnvelope(p: Pair, talk: Talk, w: World<string>, net: Net, to: Side, j: nat)
    requires Rel(p, talk, w, net) && j < |talk.ChannelTo(to).reached|
    ensures j < |p.ViewOf(Peer(to)).network| && talk.ChannelTo(to).reached[j] < |w.SentBy(Peer(to))|
    ensures p.ViewOf(Peer(to)).network[j] == w.SentBy(Peer(to))[talk.ChannelTo(to).reached[j]]
  {
    RelOf(p, talk, w, net, to);
  }

  function NewShown(end: C.ReceiveEnd, text: Bytes): seq<C.Shown> {
    if end.Handled? then [C.Theirs(text)] else if end.SaveUnsure? then [C.DecryptionError] else []
  }

  lemma {:induction false} ReceiveTakes(slot: (Pub, nat) -> string, p: Pair, to: Side, j: nat, end: C.ReceiveEnd,
                                        text: Bytes, next: Session<string>)
    requires !end.Unsaved? && !end.SaveFailed? && p.ViewOf(to).session.Some?
    requires var network := p.ViewOf(Peer(to)).network;
             && j < |network|
             && Decrypt(slot, p.ViewOf(to).session.value, network[j].ct, network[j].header, p.nextId)
                == Accepted(text, next)
    ensures var v := p.ViewOf(to);
            Act(slot, p, ReceiveCall(to, j, end))
            == p.WithView(to, C.View(Some(next), v.network, v.shown + NewShown(end, text), p.nextId + 1))
                .(nextId := p.nextId + 1)
  {
    hide Decrypt;
    assert p.ViewOf(to).shown + [] == p.ViewOf(to).shown;
  }

  /** A receipt that is saved is a delivery of the ratchet run. */
  lemma {:induction false} TakeRel(slot: (Pub, nat) -> string, p: Pair, talk: Talk, w: World<string>, net: Net,
                                   to: Side, j: nat, end: C.ReceiveEnd, next: Session<string>)
    requires Rel(p, talk, w, net) && j < |talk.ChannelTo(to).reached| == |p.ViewOf(Peer(to)).network|
    requires !end.Unsaved? && !end.SaveFailed?
    requires var i := talk.ChannelTo(to).reached[j];
             && CanTake(net.BoxOf(to), i, MAX_SKIP)
             && i < |w.SentBy(Peer(to))|
             && Decrypt(slot, w.SessionOf(to), w.SentBy(Peer(to))[i].ct, w.SentBy(Peer(to))[i].header, w.nextId)
                == Accepted(net.BoxOf(to).log[i], next)
    ensures var i := talk.ChannelTo(to).reached[j];
            Rel(Act(slot, p, ReceiveCall(to, j, end)), TalkAct(talk, ReceiveCall(to, j, end)),
                w.(nextId := w.nextId + 1).WithSession(to, next),
                net.WithBox(to, net.BoxOf(to).(taken := net.BoxOf(to).taken + {i})))
  {
    SavedEnvelope(p, talk, w, net, to, j);
    hide Decrypt, Gap, ChannelRel, Act;
    RelOf(p, talk, w, net, to);
    var ch, i := talk.ChannelTo(to), talk.ChannelTo(to).reached[j];
    var p', talk' := Act(slot, p, ReceiveCall(to, j, end)), TalkAct(talk, ReceiveCall(to, j, end));
    var w' := w.(nextId := w.nextId + 1).WithSession(to, next);
    var net' := net.WithBox(to, net.BoxOf(to).(taken := net.BoxOf(to).taken + {i}));
    ReceiveTakes(slot, p, to, j, end, ch.texts[i], next);
    ChannelTakes(ch, p.ViewOf(Peer(to)).network, w.SentBy(Peer(to)), p.ViewOf(to).shown, i, end);
    RelFrom(p', talk', w', net', to);
  }

  lemma {:induction false} ReceiveStep(slot: (Pub, nat) -> string, p: Pair, talk: Talk, w: World<string>, net: Net,
                                       tr: Trace, to: Side, j: nat, end: C.ReceiveEnd)
    returns (w': World<string>, net': Net, tr': Trace)
    requires Injective(slot) && Inv(slot, w, net, tr) && Rel(p, talk, w, net)
    ensures Inv(slot, w', net', tr')
    ensures Rel(Act(slot, p, ReceiveCall(to, j, end)), TalkAct(talk, ReceiveCall(to, j, end)), w', net')
  {
    hide Decrypt, Inv, Gap;
    RelOf(p, talk, w, net, to);
    var ch := talk.ChannelTo(to);
    if j >= |ch.reached| {
      return w, net, tr;
    }
    var i := ch.reached[j];
    var h, s', next := DeliverDecides(slot, w, net, tr, to, i);
    if CanTake(net.BoxOf(to), i, MAX_SKIP) && !end.Unsaved? && !end.SaveFailed? {
      TakeRel(slot, p, talk, w, net, to, j, end, next);
      return w.(nextId := w.nextId + 1).WithSession(to, next),
             net.WithBox(to, net.BoxOf(to).(taken := net.BoxOf(to).taken + {i})), tr.(g := h);
    }
    DiscardRel(slot, p, talk, w, net, to, j, end);
    RefusedInv(slot, w, net, tr);
    assert TalkAct(talk, ReceiveCall(to, j, end)) == talk;
    return w.(nextId := w.nextId + 1), net, tr;
  }

  lemma {:induction false} OtherRel(slot: (Pub, nat) -> string, p: Pair, talk: Talk, w: World<string>, net: Net,
                                    to: Side, end: C.ReceiveEnd)
    requires Rel(p, talk, w, net)
    ensures Rel(Act(slot, p, OtherCall(to, end)), talk, w, net)
  {
    hide ChannelRel;
    RelOf(p, talk, w, net, to);
    ChannelShows(talk.ChannelTo(to), p.ViewOf(Peer(to)).network, w.SentBy(Peer(to)), p.ViewOf(to).shown,
                 C.DecryptionError);
    RelFrom(Act(slot, p, OtherCall(to, end)), talk, w, net, to);
  }

  lemma {:induction false} RunRel(slot: (Pub, nat) -> string, p: Pair, talk: Talk, w: World<string>, net: Net,
                                  tr: Trace, calls: seq<Call>)
    returns (w': World<string>, net': Net, tr': Trace)
    requires Injective(slot) && Inv(slot, w, net, tr) && Rel(p, talk, w, net)
    ensures Inv(slot, w', net', tr') && Rel(Run(slot, p, calls), TalkRun(talk, calls), w', net')
  {
    hide Inv, Rel, Delivery.Act, NetAct;
    if calls == [] {
      return w, net, tr;
    }
    w', net', tr' := RunRel(slot, p, talk, w, net, tr, calls[..|calls| - 1]);
    var p', talk' := Run(slot, p, calls[..|calls| - 1]), TalkRun(talk, calls[..|calls| - 1]);
    match calls[|calls| - 1]
    case ReceiveCall(to, j, end) =>
      w', net', tr' := ReceiveStep(slot, p', talk', w', net', tr', to, j, end);
    case OtherCall(to, end) => OtherRel(slot, p', talk', w', net', to, end);
    case SendCall(from, text, end) =>
      if end.BeforeSave? {
        NothingSent(slot, p', talk', from, text);
      } else {
        SendRel(slot, p', talk', w', net', from, text, end);
        w', net', tr' := SendInv(slot, w', net', tr', from, text);
      }
  }

  lemma {:induction false} NothingSent(slot: (Pub, nat) -> string, p: Pair, talk: Talk, from: Side, text: Bytes)
    ensures Act(slot, p, SendCall(from, text, C.BeforeSave)) == p
    ensures TalkAct(talk, SendCall(from, text, C.BeforeSave)) == talk
  {
  }

  // ---- What the users see ----

  /** Taken texts are shown once or lost, never both. */
  ghost predicate ShownOnce(ch: Channel) {
    && (forall k, l | 0 <= k < l < |ch.shown| :: ch.shown[k] != ch.shown[l])
    && (forall i :: i in ch.taken <==> i in ch.shown || i in ch.lost)
    && (forall i :: !(i in ch.shown && i in ch.lost))
  }

  lemma {:induction false} TalkShownOnce(calls: seq<Call>, side: Side)
    ensures ShownOnce(TalkRun(QUIET, calls).ChannelTo(side))
  {
    hide Gap;
    if calls != [] {
      TalkShownOnce(calls[..|calls| - 1], side);
    }
  }

  /** In every exchange each user is shown exactly the peer's texts that the channel says, in
      that order; no text twice; and a text taken from the channel is missing exactly if the
      call that took it stopped after saving. */
  lemma {:induction false} ExchangeShows(slot: (Pub, nat) -> string, sk: Key, bobKey: KeyId, aliceKey: KeyId,
                                         nextId: KeyId, calls: seq<Call>, side: Side)
    requires Injective(slot) && bobKey != aliceKey && bobKey < nextId && aliceKey < nextId
    ensures var ch := TalkRun(QUIET, calls).ChannelTo(side);
            && ShownOnce(ch) && InRange(ch)
            && Theirs(Run(slot, Begin(sk, bobKey, aliceKey, nextId), calls).ViewOf(side).shown) == ShownTexts(ch)
  {
    hide Run, TalkRun, Inv, ShownOnce;
    TalkShownOnce(calls, side);
    var tr := StartInv(slot, sk, bobKey, aliceKey, nextId);
    var p, w := Begin(sk, bobKey, aliceKey, nextId), Start<string>(sk, bobKey, aliceKey, nextId);
    BeginRel(sk, bobKey, aliceKey, nextId);
    var w', net', tr' := RunRel(slot, p, QUIET, w, EMPTY_NET, tr, calls);
    RelOf(Run(slot, p, calls), TalkRun(QUIET, calls), w', net', side);
  }

  // ---- Everything the users see ----

  /** What a call shows to `side`, going by the channels: a completed send the user's own text, a
      handled receipt the peer's text if it can be taken, and an error for every other receipt
      that was not stopped. */
  ghost function NowShown(talk: Talk, call: Call, side: Side): seq<C.Shown> {
    match call
    case SendCall(from, text, end) => if from == side && end.Completed? then [C.Mine(text)] else []
    case ReceiveCall(to, j, end) =>
      var ch := talk.ChannelTo(to);
      if to != side || j >= |ch.reached| || end.Unsaved? || end.Unshown? then []
      else if end.Handled? && CanTake(Mailbox(ch.texts, ch.taken), ch.reached[j], MAX_SKIP)
      then [C.Theirs(ch.texts[ch.reached[j]])]
      else [C.DecryptionError]
    case OtherCall(to, end) => if to != side || end.Unsaved? || end.Unshown? then [] else [C.DecryptionError]
  }

  ghost function ShownList(calls: seq<Call>, side: Side): seq<C.Shown> {
    if calls == [] then []
    else
      var before := calls[..|calls| - 1];
      ShownList(before, side) + NowShown(TalkRun(QUIET, before), calls[|calls| - 1], side)
  }

  lemma {:induction false} ReceiveShows(slot: (Pub, nat) -> string, p: Pair, talk: Talk, w: World<string>, net: Net,
                                        tr: Trace, to: Side, j: nat, end: C.ReceiveEnd, side: Side)
    requires Injective(slot) && Inv(slot, w, net, tr) && Rel(p, talk, w, net)
    ensures Act(slot, p, ReceiveCall(to, j, end)).ViewOf(side).shown
         == p.ViewOf(side).shown + NowShown(talk, ReceiveCall(to, j, end), side)
  {
    hide Decrypt, Inv, Gap, C.AfterIncoming;
    RelOf(p, talk, w, net, to);
    assert p.ViewOf(side).shown + [] == p.ViewOf(side).shown;
    var ch := talk.ChannelTo(to);
    if j < |ch.reached| {
      SavedEnvelope(p, talk, w, net, to, j);
      var h, s', next := DeliverDecides(slot, w, net, tr, to, ch.reached[j]);
      var env := p.ViewOf(Peer(to)).network[j];
      C.IncomingShows(slot, p.ViewOf(to).(nextId := p.nextId), C.RatchetMessage(env.header, env.ct), end);
    }
  }

  lemma {:induction false} CallShows(slot: (Pub, nat) -> string, p: Pair, talk: Talk, w: World<string>, net: Net,
                                     tr: Trace, call: Call, side: Side)
    requires Injective(slot) && Inv(slot, w, net, tr) && Rel(p, talk, w, net)
    ensures Act(slot, p, call).ViewOf(side).shown == p.ViewOf(side).shown + NowShown(talk, call, side)
  {
    hide Inv, ChannelRel;
    match call
    case ReceiveCall(to, j, end) => ReceiveShows(slot, p, talk, w, net, tr, to, j, end, side);
    case OtherCall(to, end) =>
      assert p.ViewOf(side).shown + [] == p.ViewOf(side).shown;
      C.IncomingShows(slot, p.ViewOf(to), C.OtherMessage, end);
    case SendCall(from, text, end) =>
      assert p.ViewOf(side).shown + [] == p.ViewOf(side).shown;
      RelOf(p, talk, w, net, from);
  }

  /** In every exchange each user is shown exactly this list: their own texts as their sends
      complete, the peer's texts as they are taken, and an error for each message that is refused,
      is of another kind, or cannot be saved. */
  lemma {:induction false} ExchangeShowsAll(slot: (Pub, nat) -> string, sk: Key, bobKey: KeyId, aliceKey: KeyId,
                                            nextId: KeyId, calls: seq<Call>, side: Side)
    requires Injective(slot) && bobKey != aliceKey && bobKey < nextId && aliceKey < nextId
    ensures Run(slot, Begin(sk, bobKey, aliceKey, nextId), calls).ViewOf(side).shown == ShownList(calls, side)
  {
    hide Inv, Act, NowShown;
    if calls != [] {
      var before := calls[..|calls| - 1];
      ExchangeShowsAll(slot, sk, bobKey, aliceKey, nextId, before, side);
      var tr := StartInv(slot, sk, bobKey, aliceKey, nextId);
      var p, w := Begin(sk, bobKey, aliceKey, nextId), Start<string>(sk, bobKey, aliceKey, nextId);
      BeginRel(sk, bobKey, aliceKey, nextId);
      hide Rel;
      var w', net', tr' := RunRel(slot, p, QUIET, w, EMPTY_NET, tr, before);
      CallShows(slot, Run(slot, p, before), TalkRun(QUIET, before), w', net', tr', calls[|calls| - 1], side);
    }
  }

  lemma {:induction false} BeginRel(sk: Key, bobKey: KeyId, aliceKey: KeyId, nextId: KeyId)
    ensures Rel(Begin(sk, bobKey, aliceKey, nextId), QUIET, Start<string>(sk, bobKey, aliceKey, nextId), EMPTY_NET)
  {
  }
}
