/** Symbolic Noise: statics, ephemerals, handshake transcripts, keys and an AEAD. */
module Noise {
  import opened Wrappers

  newtype byte = b: int | 0 <= b < 256

  type Bytes = seq<byte>

  /** The largest transport nonce; one value above it is kept for rekeying. */
  const MAX_NONCE: Uint64 := 0xFFFF_FFFF_FFFF_FFFE

  type Static(==, !new) = nat

  /** Own ephemerals are drawn by honest peers, each once; Foreign ones by anybody else. */
  datatype Ephemeral = Own(id: nat) | Foreign(id: nat)

  /** The first handshake message: an ephemeral in the clear and an unauthenticated remainder. */
  datatype Hello = Hello(e: Ephemeral, extra: nat)

  /** Everything the handshake hash covers once message 3 is written. */
  datatype Transcript = Transcript(hello: Hello, er: Ephemeral, initiator: Static, responder: Static)

  datatype Direction = ToResponder | ToInitiator

  /** Split yields one root per direction; Rekeyed is the one-way REKEY function. */
  datatype Key = Root(t: Transcript, dir: Direction) | Rekeyed(of: Key)

  function Rekey(k: Key, times: nat): Key {
    if times == 0 then k else Rekeyed(Rekey(k, times - 1))
  }

  datatype CipherState = CipherState(k: Key, n: Uint64)

  /** seal(key, nonce, plaintext) and open(key, nonce, ciphertext), with empty associated data. */
  datatype Aead<!C> = Aead(seal: (Key, nat, Bytes) -> C, open: (Key, nat, C) -> Option<Bytes>)

  /** Whatever was sealed opens again under the same key and nonce. */
  ghost predicate Correct<C(!new)>(a: Aead<C>) {
    forall k, n, p :: a.open(k, n, a.seal(k, n, p)) == Some(p)
  }

  /** The symbolic AEAD: a ciphertext opens only under the key and nonce that sealed it. */
  datatype Box = Sealed(key: Key, nonce: nat, text: Bytes) | Junk(id: nat)

  function SealBox(k: Key, n: nat, p: Bytes): Box { Sealed(k, n, p) }

  function OpenBox(k: Key, n: nat, c: Box): Option<Bytes> {
    if c.Sealed? && c.key == k && c.nonce == n then Some(c.text) else None
  }

  const SYMBOLIC: Aead<Box> := Aead(SealBox, OpenBox)

  lemma {:induction false} RekeyAdd(k: Key, a: nat, b: nat)
    ensures Rekey(Rekey(k, a), b) == Rekey(k, a + b)
  {
    if b > 0 { RekeyAdd(k, a, b - 1); }
  }

  /** Different roots or different numbers of rekeys never meet in one key. */
  lemma {:induction false} RekeyInjective(r1: Key, a: nat, r2: Key, b: nat)
    requires r1.Root? && r2.Root? && Rekey(r1, a) == Rekey(r2, b)
    ensures r1 == r2 && a == b
  {
    if a > 0 && b > 0 { RekeyInjective(r1, a - 1, r2, b - 1); }
  }

  function RootOf(k: Key): (r: Key)
    ensures r.Root?
  {
    match k case Root(_, _) => k case Rekeyed(of) => RootOf(of)
  }

  lemma {:induction false} RootOfRekey(r: Key, times: nat)
    requires r.Root?
    ensures RootOf(Rekey(r, times)) == r
  {
    if times > 0 { RootOfRekey(r, times - 1); }
  }
}
