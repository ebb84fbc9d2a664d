/** Content addressing as free terms.

    `hash_obj` serialises a value canonically and takes SHA-256 of the text.  Here a digest keeps
    the value it was computed from, so equal digests mean equal values and digests of different
    shapes differ.  A record carries the name of its key set, so two dictionaries with different
    keys never share a digest.  A list that the code sorts before hashing is kept as a bag:
    sorting forgets exactly the order. */
module Digests {
  import opened Wrappers
  import opened Models

  datatype Value =
    | Null
    | Flag(flag: bool)
    | Num(num: int)
    | Dec(dec: real)
    | Text(text: string)
    | Hash(digest: Digest)
    | SortedHashes(hashes: multiset<Digest>)
    | SortedIds(ids: multiset<ProofId>)
    | Arr(items: seq<Value>)
    | Rec(name: string, fields: seq<Value>)
    | OfStatus(status: Status)
    | OfReason(reason: ReasonCode)
    | OfTier(tier: VerdictTier)
    | OfKind(kind: ProofKind)
    | OfChain(chain: ChainStatus)

  datatype Digest =
    | Genesis               // the constant "sha256:genesis"
    | Pending               // the constant "sha256:pending"
    | Unset                 // the empty string that stands in before a hash is known
    | Leaf(value: Value)    // {"merkle": "leaf", ...}
    | Node(left: Digest, right: Digest)
    | Sha(payload: Value)   // hash_obj of any other payload

  /** "proof:<kind>:<digest>"; the truncation of the digest to 24 characters is taken as injective. */
  datatype ProofId = ProofId(kind: ProofKind, digest: Digest)

  function HashObj(payload: Value): Digest {
    Sha(payload)
  }

  function OptText(t: Option<string>): Value {
    if t.None? then Null else Text(t.value)
  }

  function OptHash(d: Option<Digest>): Value {
    if d.None? then Null else Hash(d.value)
  }
}
