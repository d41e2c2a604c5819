/** What the ratchet is for, said without any cryptography: a numbered mailbox that hands
    out each message at most once, in any order, as long as not too many earlier messages
    are still missing. */
module Mailbox {
  import opened Encoding

  datatype Mailbox = Mailbox(log: seq<Bytes>, taken: set<nat>)

  /** How many of the first `i` messages have not been taken. */
  ghost function Gap(taken: set<nat>, i: nat): nat {
    if i == 0 then 0 else Gap(taken, i - 1) + (if i - 1 in taken then 0 else 1)
  }

  ghost predicate CanTake(m: Mailbox, i: nat, bound: nat) {
    i < |m.log| && i !in m.taken && Gap(m.taken, i) <= bound
  }

  lemma {:induction false} GapMonotone(taken: set<nat>, i: nat, j: nat)
    requires i <= j
    ensures Gap(taken, i) <= Gap(taken, j)
    ensures i < j && i !in taken ==> Gap(taken, i) < Gap(taken, j)
    decreases j - i
  {
    if i < j {
      GapMonotone(taken, i + 1, j);
    }
  }

  /** Past every taken message each further message widens the gap by one. */
  lemma {:induction false} GapBeyond(taken: set<nat>, i: nat, j: nat)
    requires i <= j
    requires forall k | k in taken :: k < i
    ensures Gap(taken, j) == Gap(taken, i) + (j - i)
    decreases j - i
  {
    if i < j {
      GapBeyond(taken, i, j - 1);
    }
  }

  lemma {:induction false} GapTake(taken: set<nat>, i: nat, j: nat)
    requires i !in taken
    ensures Gap(taken + {i}, j) == Gap(taken, j) - (if i < j then 1 else 0)
  {
    if j > 0 {
      GapTake(taken, i, j - 1);
    }
  }

  /** `Gap` counts the set of missing messages. */
  lemma {:induction false} GapCounts(taken: set<nat>, i: nat)
    ensures Gap(taken, i) == |set j: nat | j < i && j !in taken|
  {
    var missing := set j: nat | j < i && j !in taken;
    if i == 0 {
      assert missing == {};
    } else {
      GapCounts(taken, i - 1);
      var fewer := set j: nat | j < i - 1 && j !in taken;
      assert missing == fewer + (if i - 1 in taken then {} else {i - 1});
    }
  }
}
