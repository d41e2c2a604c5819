/** One-time prekeys of a device and what the server has published of them:
    `web_sdk/src/crypto/key-generator.ts` and `web_sdk/src/client/otpk-replenisher.ts`. */
module Prekeys {
  import opened Terms
  import opened X3dh

  const REPLENISH_COUNT: nat := 50
  const LOW_OTPK_THRESHOLD: nat := 10

  /** `count` new key pairs, numbered from `startId`, taken from the supply at `newId`. */
  function Otpks(count: nat, startId: nat, newId: KeyId): (r: seq<Otpk>)
    ensures |r| == count
  {
    seq(count, i requires 0 <= i => Otpk(startId + i, newId + i))
  }

  method GenerateOtpks(count: nat, startId: nat, newId: KeyId) returns (results: seq<Otpk>)
    ensures results == Otpks(count, startId, newId)
  {
    results := [];
    for i := 0 to count
      invariant results == Otpks(i, startId, newId)
    {
      results := results + [Otpk(startId + i, newId + i)];
    }
  }

  /** The device record, the rows ever inserted at the server, and the key supply. */
  datatype State = State(otpks: seq<Otpk>, nextOtpkId: nat, published: map<nat, Pub>, newId: KeyId)

  /** Rows inserted with ON CONFLICT DO NOTHING: an id keeps its first key. */
  function Publish(published: map<nat, Pub>, otpks: seq<Otpk>): (r: map<nat, Pub>)
    decreases |otpks|
  {
    if otpks == [] then published
    else
      var before := Publish(published, otpks[..|otpks| - 1]);
      var last := otpks[|otpks| - 1];
      if last.id in before then before else before[last.id := PubOf(last.key)]
  }

  /** `generateKeyBundle` and a completed registration. */
  function Registered(count: nat, newId: KeyId): State {
    var otpks := Otpks(count, 1, newId);
    State(otpks, count + 1, Publish(map[], otpks), newId + count)
  }

  /** Where a replenishment ends: there was no device record, nothing reached the server, the
      server inserted the rows but the record was not saved, or both happened. */
  datatype End = NoRecord | NotPublished | NotSaved | Done

  function Replenished(s: State, count: nat, end: End): State {
    if count >= LOW_OTPK_THRESHOLD || end.NoRecord? then s
    else
      var newOtpks := Otpks(REPLENISH_COUNT, s.nextOtpkId, s.newId);
      var drawn := s.(newId := s.newId + REPLENISH_COUNT);
      if end.NotPublished? then drawn
      else
        var published := drawn.(published := Publish(s.published, newOtpks));
        if end.NotSaved? then published
        else published.(otpks := s.otpks + newOtpks, nextOtpkId := s.nextOtpkId + REPLENISH_COUNT)
  }

  class Device {
    var otpks: seq<Otpk>
    var nextOtpkId: nat
    var published: map<nat, Pub>
    var newId: KeyId

    function Record(): State
      reads this
    {
      State(otpks, nextOtpkId, published, newId)
    }

    constructor (count: nat, newId: KeyId)
      ensures Record() == Registered(count, newId)
    {
      var bundle := GenerateOtpks(count, 1, newId);
      this.otpks, this.nextOtpkId := bundle, count + 1;
      this.published := Publish(map[], bundle);
      this.newId := newId + count;
    }

    /** Lines 31-66: generate from `nextOtpkId`, publish, then overwrite the record. */
    method HandleLowOtpk(count: nat, end: End)
      modifies this
      ensures Record() == Replenished(old(Record()), count, end)
    {
      if count >= LOW_OTPK_THRESHOLD || end.NoRecord? {
        return;
      }
      var newOtpks := GenerateOtpks(REPLENISH_COUNT, nextOtpkId, newId);
      newId := newId + REPLENISH_COUNT;
      if end.NotPublished? {
        return;
      }
      published := Publish(published, newOtpks);
      if end.NotSaved? {
        return;
      }
      otpks := otpks + newOtpks;
      nextOtpkId := nextOtpkId + REPLENISH_COUNT;
    }
  }

  // ---- Any sequence of replenishments ----

  datatype Attempt = Attempt(count: nat, end: End)

  function After(s: State, attempts: seq<Attempt>): State {
    if attempts == [] then s
    else
      var last := attempts[|attempts| - 1];
      Replenished(After(s, attempts[..|attempts| - 1]), last.count, last.end)
  }

  ghost predicate IdsInOrder(s: State) {
    && s.nextOtpkId == |s.otpks| + 1
    && (forall i | 0 <= i < |s.otpks| :: s.otpks[i].id == i + 1 && s.otpks[i].key < s.newId)
  }

  /** Every published key is the one the responder finds under its id. */
  ghost predicate Matched(s: State) {
    forall id | id in s.published :: Find(s.otpks, id).Some? && PubOf(Find(s.otpks, id).value.key) == s.published[id]
  }

  /** The rows at the server are exactly the device record. */
  ghost predicate Mirrored(s: State) {
    && IdsInOrder(s)
    && (forall id :: id in s.published <==> 1 <= id < s.nextOtpkId)
    && (forall i | 0 <= i < |s.otpks| ::
          s.otpks[i].id in s.published && s.published[s.otpks[i].id] == PubOf(s.otpks[i].key))
  }

  /** Some published key is lost: it was drawn, but is not in the record. */
  ghost predicate Lost(s: State, id: nat, key: KeyId) {
    && id in s.published && s.published[id] == PubOf(key) && key < s.newId
    && (forall i | 0 <= i < |s.otpks| :: s.otpks[i].key != key)
  }

  lemma {:induction false} FindAt(otpks: seq<Otpk>, first: nat, i: nat)
    requires forall j | 0 <= j < |otpks| :: otpks[j].id == first + j
    requires i < |otpks|
    ensures Find(otpks, first + i) == Some(otpks[i])
  {
    if i > 0 {
      FindAt(otpks[1..], first + 1, i - 1);
    }
  }

  lemma {:induction false} FindIsMember(otpks: seq<Otpk>, id: nat)
    ensures Find(otpks, id).Some? ==> Find(otpks, id).value in otpks
  {
    if otpks != [] {
      FindIsMember(otpks[1..], id);
    }
  }

  lemma {:induction false} PublishNew(published: map<nat, Pub>, otpks: seq<Otpk>, first: nat)
    requires forall j | 0 <= j < |otpks| :: otpks[j].id == first + j
    requires forall id | id in published :: id < first
    ensures forall id :: id in Publish(published, otpks) <==> id in published || first <= id < first + |otpks|
    ensures forall id | id in published :: Publish(published, otpks)[id] == published[id]
    ensures forall j | 0 <= j < |otpks| ::
              otpks[j].id in Publish(published, otpks) && Publish(published, otpks)[otpks[j].id] == PubOf(otpks[j].key)
  {
    if otpks != [] {
      PublishNew(published, otpks[..|otpks| - 1], first);
    }
  }

  lemma {:induction false} PublishKeeps(published: map<nat, Pub>, otpks: seq<Otpk>, id: nat)
    requires id in published
    ensures id in Publish(published, otpks) && Publish(published, otpks)[id] == published[id]
  {
    if otpks != [] {
      PublishKeeps(published, otpks[..|otpks| - 1], id);
    }
  }

  /** Ids are given out in order whatever happens. */
  lemma {:induction false} IdsStayInOrder(count: nat, newId: KeyId, attempts: seq<Attempt>)
    ensures IdsInOrder(After(Registered(count, newId), attempts))
  {
    if attempts != [] {
      IdsStayInOrder(count, newId, attempts[..|attempts| - 1]);
    }
  }

  /** A finished replenishment below ten prekeys publishes and records exactly fifty new keys with
      the next fifty ids; at ten or more, or without a device record, nothing changes. */
  lemma {:induction false} ReplenishAdds(count: nat, newId: KeyId, attempts: seq<Attempt>, low: nat, i: nat)
    requires forall k | 0 <= k < |attempts| :: !LosesKeys(attempts[k])
    ensures var s := After(Registered(count, newId), attempts);
            var s' := Replenished(s, low, Done);
            && (low >= 10 ==> s' == s) && Replenished(s, low, NoRecord) == s
            && (low < 10 ==>
                  && |s'.otpks| == |s.otpks| + 50 && s'.otpks[..|s.otpks|] == s.otpks
                  && s'.nextOtpkId == s.nextOtpkId + 50
                  && (i in s'.published <==> i in s.published || s.nextOtpkId <= i < s.nextOtpkId + 50)
                  && (i in s.published ==> s'.published[i] == s.published[i])
                  && (i < 50 ==>
                        var otpk := s'.otpks[|s.otpks| + i];
                        && otpk.id == s.nextOtpkId + i
                        && otpk.id in s'.published && s'.published[otpk.id] == PubOf(otpk.key)))
  {
    StaysMirrored(count, newId, attempts);
    var s := After(Registered(count, newId), attempts);
    var drawn := Otpks(REPLENISH_COUNT, s.nextOtpkId, s.newId);
    PublishNew(s.published, drawn, s.nextOtpkId);
    if low < 10 && i < 50 {
      assert drawn[i].id in Publish(s.published, drawn);
    }
  }

  /** No two recorded prekeys share a private key. */
  ghost predicate KeysDistinct(s: State) {
    && (forall i | 0 <= i < |s.otpks| :: s.otpks[i].key < s.newId)
    && (forall i, j | 0 <= i < j < |s.otpks| :: s.otpks[i].key != s.otpks[j].key)
  }

  lemma {:induction false} KeysStayDistinct(count: nat, newId: KeyId, attempts: seq<Attempt>)
    ensures KeysDistinct(After(Registered(count, newId), attempts))
  {
    if attempts != [] {
      KeysStayDistinct(count, newId, attempts[..|attempts| - 1]);
    }
  }

  ghost predicate LosesKeys(a: Attempt) {
    a.count < LOW_OTPK_THRESHOLD && a.end == NotSaved
  }

  lemma {:induction false} StaysMirrored(count: nat, newId: KeyId, attempts: seq<Attempt>)
    requires forall i | 0 <= i < |attempts| :: !LosesKeys(attempts[i])
    ensures Mirrored(After(Registered(count, newId), attempts))
  {
    IdsStayInOrder(count, newId, attempts);
    if attempts == [] {
      PublishNew(map[], Otpks(count, 1, newId), 1);
    } else {
      var before := After(Registered(count, newId), attempts[..|attempts| - 1]);
      var last := attempts[|attempts| - 1];
      assert !LosesKeys(last);
      StaysMirrored(count, newId, attempts[..|attempts| - 1]);
      PublishNew(before.published, Otpks(REPLENISH_COUNT, before.nextOtpkId, before.newId), before.nextOtpkId);
    }
  }

  lemma {:induction false} StaysLost(count: nat, newId: KeyId, attempts: seq<Attempt>, i: nat)
    returns (id: nat, key: KeyId)
    requires i < |attempts| && LosesKeys(attempts[i])
    requires forall j | 0 <= j < i :: !LosesKeys(attempts[j])
    ensures Lost(After(Registered(count, newId), attempts), id, key)
  {
    var before := After(Registered(count, newId), attempts[..|attempts| - 1]);
    IdsStayInOrder(count, newId, attempts[..|attempts| - 1]);
    var drawn := Otpks(REPLENISH_COUNT, before.nextOtpkId, before.newId);
    if i == |attempts| - 1 {
      StaysMirrored(count, newId, attempts[..i]);
      PublishNew(before.published, drawn, before.nextOtpkId);
      assert drawn[0].id == before.nextOtpkId;
      id, key := before.nextOtpkId, before.newId;
    } else {
      id, key := StaysLost(count, newId, attempts[..|attempts| - 1], i);
      PublishKeeps(before.published, drawn, id);
    }
  }

  lemma {:induction false} MirroredMatches(s: State)
    requires Mirrored(s)
    ensures Matched(s)
  {
    forall id | id in s.published
      ensures Find(s.otpks, id).Some? && PubOf(Find(s.otpks, id).value.key) == s.published[id]
    {
      FindAt(s.otpks, 1, id - 1);
    }
  }

  /** After registration and any sequence of replenishments one after the other, the
      responder finds the private key of every published prekey under its id exactly when no
      replenishment stopped between publishing and saving. */
  lemma {:induction false} PrekeysMatch(count: nat, newId: KeyId, attempts: seq<Attempt>)
    ensures Matched(After(Registered(count, newId), attempts))
            <==> forall i | 0 <= i < |attempts| :: !LosesKeys(attempts[i])
  {
    if forall i | 0 <= i < |attempts| :: !LosesKeys(attempts[i]) {
      StaysMirrored(count, newId, attempts);
      MirroredMatches(After(Registered(count, newId), attempts));
    } else {
      var i := FirstLoss(attempts);
      var s := After(Registered(count, newId), attempts);
      var id, key := StaysLost(count, newId, attempts, i);
      FindIsMember(s.otpks, id);
    }
  }

  lemma {:induction false} FirstLoss(attempts: seq<Attempt>) returns (i: nat)
    requires exists j :: 0 <= j < |attempts| && LosesKeys(attempts[j])
    ensures i < |attempts| && LosesKeys(attempts[i]) && forall j | 0 <= j < i :: !LosesKeys(attempts[j])
  {
    i := 0;
    while !LosesKeys(attempts[i])
      invariant i < |attempts| && forall j | 0 <= j < i :: !LosesKeys(attempts[j])
      invariant exists j :: i <= j < |attempts| && LosesKeys(attempts[j])
      decreases |attempts| - i
    {
      i := i + 1;
    }
  }

  /** A bundle made from the published rows of such a device can be agreed on. */
  lemma {:induction false} PublishedPrekeyAgrees(count: nat, newId: KeyId, attempts: seq<Attempt>,
                                                 recipient: PublicBundle, owner: PrivateBundle)
    requires forall i | 0 <= i < |attempts| :: !LosesKeys(attempts[i])
    requires var s := After(Registered(count, newId), attempts);
             && owner.otpks == s.otpks
             && recipient.identityKey == PubOf(owner.identityDh) && recipient.signedPrekey == PubOf(owner.signedPrekey)
             && (recipient.oneTimePrekey.Some? ==>
                   var otpk := recipient.oneTimePrekey.value;
                   otpk.id in s.published && s.published[otpk.id] == otpk.pub)
    ensures Current(recipient, owner)
  {
    PrekeysMatch(count, newId, attempts);
  }
}
