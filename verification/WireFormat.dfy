/** A representation of keys as bytes that can be read back: what `Persistence` asks of a wire
    format can be met. */
module WireFormat {
  import opened Encoding
  import opened Terms
  import opened Persistence

  function NatBytes(n: nat): Bytes {
    if n == 0 then [0] else [1] + NatBytes(n - 1)
  }

  function DhBytes(dh: DhSecret): Bytes {
    match dh
    case Shared(lo, hi) => [0] + (NatBytes(lo) + NatBytes(hi))
    case WithZero(id) => [1] + NatBytes(id)
  }

  function ListBytes(list: seq<DhSecret>): Bytes {
    if list == [] then [0] else [1] + (DhBytes(list[0]) + ListBytes(list[1..]))
  }

  function KeyBytes(key: Key): Bytes {
    match key
    case Zero => [0]
    case Foreign(id) => [1] + NatBytes(id)
    case X3dhSecret(inputs) => [2] + ListBytes(inputs)
    case RootOf(root, dh) => [3] + (KeyBytes(root) + DhBytes(dh))
    case ChainOf(root, dh) => [4] + (KeyBytes(root) + DhBytes(dh))
    case NextChain(chain) => [5] + KeyBytes(chain)
    case MessageKey(chain) => [6] + KeyBytes(chain)
    case SenderMessageKey(chain) => [7] + KeyBytes(chain)
  }

  function PubBytes(pub: Pub): Bytes {
    match pub
    case ZeroPub => [0]
    case PubOf(id) => [1] + NatBytes(id)
  }

  // ---- No representation is the beginning of another ----

  /** The rest after a common tag byte. */
  lemma {:induction false} Untagged(tag: byte, a: Bytes, x: Bytes, b: Bytes, y: Bytes)
    requires [tag] + a + x == [tag] + b + y
    ensures a + x == b + y
  {
    assert ([tag] + a + x)[1..] == a + x;
    assert ([tag] + b + y)[1..] == b + y;
  }

  /** The same for a tag before two parts. */
  lemma {:induction false} Parts(tag: byte, a: Bytes, b: Bytes, x: Bytes, c: Bytes, d: Bytes, y: Bytes)
    requires [tag] + (a + b) + x == [tag] + (c + d) + y
    ensures a + (b + x) == c + (d + y)
  {
    Untagged(tag, a + b, x, c + d, y);
    assert (a + b) + x == a + (b + x);
    assert (c + d) + y == c + (d + y);
  }

  lemma {:induction false} NatPrefix(m: nat, x: Bytes, n: nat, y: Bytes)
    requires NatBytes(m) + x == NatBytes(n) + y
    ensures m == n && x == y
  {
    assert (NatBytes(m) + x)[0] == (NatBytes(n) + y)[0];
    if m > 0 {
      Untagged(1, NatBytes(m - 1), x, NatBytes(n - 1), y);
      NatPrefix(m - 1, x, n - 1, y);
    } else {
      assert ([0] + x)[1..] == x && ([0] + y)[1..] == y;
    }
  }

  lemma {:induction false} DhPrefix(a: DhSecret, x: Bytes, b: DhSecret, y: Bytes)
    requires DhBytes(a) + x == DhBytes(b) + y
    ensures a == b && x == y
  {
    assert (DhBytes(a) + x)[0] == (DhBytes(b) + y)[0];
    if a.WithZero? {
      Untagged(1, NatBytes(a.id), x, NatBytes(b.id), y);
      NatPrefix(a.id, x, b.id, y);
    } else {
      Parts(0, NatBytes(a.lo), NatBytes(a.hi), x, NatBytes(b.lo), NatBytes(b.hi), y);
      NatPrefix(a.lo, NatBytes(a.hi) + x, b.lo, NatBytes(b.hi) + y);
      NatPrefix(a.hi, x, b.hi, y);
    }
  }

  lemma {:induction false} ListPrefix(a: seq<DhSecret>, x: Bytes, b: seq<DhSecret>, y: Bytes)
    requires ListBytes(a) + x == ListBytes(b) + y
    ensures a == b && x == y
  {
    assert (ListBytes(a) + x)[0] == (ListBytes(b) + y)[0];
    if a == [] {
      assert ([0] + x)[1..] == x && ([0] + y)[1..] == y;
    } else {
      Parts(1, DhBytes(a[0]), ListBytes(a[1..]), x, DhBytes(b[0]), ListBytes(b[1..]), y);
      DhPrefix(a[0], ListBytes(a[1..]) + x, b[0], ListBytes(b[1..]) + y);
      ListPrefix(a[1..], x, b[1..], y);
      assert a == [a[0]] + a[1..] && b == [b[0]] + b[1..];
    }
  }

  lemma {:induction false} KeyPrefix(a: Key, x: Bytes, b: Key, y: Bytes)
    requires KeyBytes(a) + x == KeyBytes(b) + y
    ensures a == b && x == y
    decreases a, 0
  {
    var tag := KeyBytes(a)[0];
    assert tag == (KeyBytes(a) + x)[0] == (KeyBytes(b) + y)[0];
    match a
    case Zero => assert ([0] + x)[1..] == x && ([0] + y)[1..] == y;
    case Foreign(id) =>
      Untagged(tag, NatBytes(id), x, NatBytes(b.id), y);
      NatPrefix(id, x, b.id, y);
    case X3dhSecret(inputs) =>
      Untagged(tag, ListBytes(inputs), x, ListBytes(b.inputs), y);
      ListPrefix(inputs, x, b.inputs, y);
    case RootOf(root, dh) => DerivedPrefix(tag, root, dh, x, b.root, b.dh, y);
    case ChainOf(root, dh) => DerivedPrefix(tag, root, dh, x, b.root, b.dh, y);
    case NextChain(chain) => SteppedPrefix(tag, chain, x, b.chain, y);
    case MessageKey(chain) => SteppedPrefix(tag, chain, x, b.chain, y);
    case SenderMessageKey(chain) => SteppedPrefix(tag, chain, x, b.chain, y);
  }

  lemma {:induction false} DerivedPrefix(tag: byte, a: Key, dh: DhSecret, x: Bytes, b: Key, eh: DhSecret, y: Bytes)
    requires [tag] + (KeyBytes(a) + DhBytes(dh)) + x == [tag] + (KeyBytes(b) + DhBytes(eh)) + y
    ensures a == b && dh == eh && x == y
    decreases a, 1
  {
    Parts(tag, KeyBytes(a), DhBytes(dh), x, KeyBytes(b), DhBytes(eh), y);
    KeyPrefix(a, DhBytes(dh) + x, b, DhBytes(eh) + y);
    DhPrefix(dh, x, eh, y);
  }

  lemma {:induction false} SteppedPrefix(tag: byte, a: Key, x: Bytes, b: Key, y: Bytes)
    requires [tag] + KeyBytes(a) + x == [tag] + KeyBytes(b) + y
    ensures a == b && x == y
    decreases a, 1
  {
    Untagged(tag, KeyBytes(a), x, KeyBytes(b), y);
    KeyPrefix(a, x, b, y);
  }

  // ---- Reading back ----

  ghost function KeyOf(bytes: Bytes): Key {
    if exists key :: KeyBytes(key) == bytes then var key :| KeyBytes(key) == bytes; key else Zero
  }

  ghost function PubFrom(bytes: Bytes): Pub {
    if exists pub :: PubBytes(pub) == bytes then var pub :| PubBytes(pub) == bytes; pub else ZeroPub
  }

  ghost function IdFrom(bytes: Bytes): KeyId {
    if exists id: nat :: NatBytes(id) == bytes then var id: nat :| NatBytes(id) == bytes; id else 0
  }

  ghost function PlainWire(): Wire {
    Wire(KeyBytes, KeyOf, PubBytes, PubFrom, NatBytes, IdFrom)
  }

  /** There is a wire format as the theorems about stored sessions ask for, and it never
      writes a private key as no bytes at all. */
  lemma {:induction false} PlainWireFaithful()
    ensures Faithful(PlainWire()) && forall id :: PlainWire().privBytes(id) != []
  {
    forall key
      ensures KeyOf(KeyBytes(key)) == key
    {
      var read := KeyOf(KeyBytes(key));
      assert KeyBytes(read) + [] == KeyBytes(key) + [];
      KeyPrefix(read, [], key, []);
    }
    forall id: nat
      ensures IdFrom(NatBytes(id)) == id
    {
      var read := IdFrom(NatBytes(id));
      assert NatBytes(read) + [] == NatBytes(id) + [];
      NatPrefix(read, [], id, []);
    }
    forall pub
      ensures PubFrom(PubBytes(pub)) == pub
    {
      var read := PubFrom(PubBytes(pub));
      assert PubBytes(read) + [] == PubBytes(pub) + [];
      assert PubBytes(read)[0] == PubBytes(pub)[0];
      if pub.PubOf? {
        Untagged(1, NatBytes(read.id), [], NatBytes(pub.id), []);
        NatPrefix(read.id, [], pub.id, []);
      }
    }
  }
}
