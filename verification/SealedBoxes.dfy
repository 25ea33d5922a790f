/** Sealed boxes as a library under contract (backend/network/identity.py): anyone can seal to a public
    key, only the private key opens. Keys are numbers; `coin` is the randomness of one sealing. */
module SealedBoxes {
  import opened Seqs

  datatype Box = Box(publicKey: int -> int, seal: (int, Bytes, nat) -> Bytes, open: (int, Bytes) -> Option<Bytes>)

  /** The holder of the private key gets the message back, and a sealed message is longer than its
      content. */
  ghost predicate Contract(b: Box) {
    && (forall priv, data, coin :: Opens(b, priv, data, coin))
    && (forall pub, data, coin :: Longer(b, pub, data, coin))
    && (forall priv, sealed :: Shorter(b, priv, sealed))
  }

  predicate Opens(b: Box, priv: int, data: Bytes, coin: nat) {
    b.open(priv, b.seal(b.publicKey(priv), data, coin)) == Some(data)
  }

  predicate Longer(b: Box, pub: int, data: Bytes, coin: nat) {
    |b.seal(pub, data, coin)| > |data|
  }

  predicate Shorter(b: Box, priv: int, sealed: Bytes) {
    b.open(priv, sealed).Some? ==> |b.open(priv, sealed).value| < |sealed|
  }

  /** The contract is consistent: a box that only adds the key as a header meets it. */
  lemma ContractIsMet()
    ensures Contract(Box(priv => priv, (pub, data, coin) => [pub] + data,
                         (priv, sealed) => if |sealed| > 0 && sealed[0] == priv then Some(sealed[1..]) else None))
  {
    forall priv: int, data: Bytes ensures ([priv] + data)[1..] == data {
    }
  }
}
