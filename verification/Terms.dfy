/** Symbolic cryptography: the WebCrypto primitives of the SDK as free constructors.

    A byte string that comes out of a primitive is a term, so two derivations are equal
    exactly when they were made the same way.  A private key is an id from a fresh
    supply, Diffie-Hellman output is an unordered pair of ids (which is what makes it
    commute), and authenticated encryption opens only under the key that sealed it. */
module Terms {
  import opened Encoding

  datatype Option<+T> = None | Some(value: T)

  type KeyId = nat

  /** A public key: the all-zero placeholder, or the public half of a private key. */
  datatype Pub = ZeroPub | PubOf(id: KeyId)

  datatype DhSecret = Shared(lo: KeyId, hi: KeyId) | WithZero(id: KeyId)

  /** Thirty-two byte secrets.  `Zero` is the all-zero placeholder of the two ratchet
      initialisers, `Foreign` stands for any secret made outside the protocol. */
  datatype Key =
    | Zero
    | Foreign(id: nat)
    | X3dhSecret(inputs: seq<DhSecret>)
    | RootOf(root: Key, dh: DhSecret)
    | ChainOf(root: Key, dh: DhSecret)
    | NextChain(chain: Key)
    | MessageKey(chain: Key)
    | SenderMessageKey(chain: Key)

  datatype Ciphertext = Sealed(key: Key, plaintext: Bytes) | Junk(bytes: Bytes)

  function Dh(priv: KeyId, pub: Pub): DhSecret {
    match pub
    case ZeroPub => WithZero(priv)
    case PubOf(id) => if priv <= id then Shared(priv, id) else Shared(id, priv)
  }

  function Open(key: Key, ct: Ciphertext): Option<Bytes> {
    if ct.Sealed? && ct.key == key then Some(ct.plaintext) else None
  }

  /** The chain key `n` symmetric steps after `chain`. */
  function Advance(chain: Key, n: nat): Key {
    if n == 0 then chain else NextChain(Advance(chain, n - 1))
  }

  /** Number of key derivations under a term along its root or chain. */
  ghost function Rank(key: Key): nat {
    match key
    case RootOf(root, _) => 1 + Rank(root)
    case ChainOf(root, _) => 1 + Rank(root)
    case NextChain(chain) => 1 + Rank(chain)
    case MessageKey(chain) => 1 + Rank(chain)
    case SenderMessageKey(chain) => 1 + Rank(chain)
    case _ => 0
  }

  /** The secret a term was derived from. */
  ghost function Origin(key: Key): Key {
    match key
    case RootOf(root, _) => Origin(root)
    case ChainOf(root, _) => Origin(root)
    case NextChain(chain) => Origin(chain)
    case MessageKey(chain) => Origin(chain)
    case SenderMessageKey(chain) => Origin(chain)
    case _ => key
  }

  /** A message key of the chain that starts with the all-zero placeholder: anyone can
      compute it. */
  ghost predicate ZeroKey(key: Key) {
    key.MessageKey? && key.chain == Advance(Zero, Rank(key.chain))
  }

  lemma {:induction false} AdvanceOrigin(chain: Key, n: nat)
    ensures Origin(Advance(chain, n)) == Origin(chain)
    ensures Rank(Advance(chain, n)) == Rank(chain) + n
  {
    if n > 0 {
      AdvanceOrigin(chain, n - 1);
    }
  }

  lemma {:induction false} AdvanceAdd(chain: Key, m: nat, n: nat)
    ensures Advance(Advance(chain, m), n) == Advance(chain, m + n)
  {
    if n > 0 {
      AdvanceAdd(chain, m, n - 1);
    }
  }

  /** Stepping the chain from the front or from the back is the same. */
  lemma {:induction false} AdvanceFront(chain: Key, n: nat)
    ensures Advance(NextChain(chain), n) == Advance(chain, n + 1)
  {
    if n > 0 {
      AdvanceFront(chain, n - 1);
    }
  }

  /** A position in a symmetric chain determines the chain's start and the distance. */
  lemma {:induction false} AdvanceInjective(c: Key, m: nat, d: Key, n: nat)
    requires !c.NextChain? && !d.NextChain?
    requires Advance(c, m) == Advance(d, n)
    ensures c == d && m == n
  {
    if m > 0 && n > 0 {
      AdvanceInjective(c, m - 1, d, n - 1);
    }
  }
}
