/** The content-addressed block store both runtimes keep actor state in. */
module Blockstore {
  import opened Types

  /** A content identifier. `EmptyArray` is the CID of the canonical empty
      array encoding, which a freshly created actor has as its state root;
      `Blake2b` is the CID of a DAG-CBOR block whose BLAKE2b-256 digest is
      abstracted to a number; `Identity` is an identity-multihash CID, the
      kind builtin code identifiers use. */
  datatype Cid =
    | EmptyArray
    | Blake2b(digest: nat)
    | Identity(name: string)

  datatype Store<T> = Store(blocks: map<Cid, T>)

  function Get<T>(s: Store<T>, c: Cid): Option<T> {
    if c in s.blocks then Some(s.blocks[c]) else None
  }

  /** The identifier a write of `obj` is stored under; `hash` stands for the
      digest of the object's encoding. */
  function CidOf<T>(obj: T, hash: T -> nat): (c: Cid)
    ensures c.Blake2b? && c != EmptyArray
  {
    Blake2b(hash(obj))
  }

  /** Writes `obj`: it can be read back under its CID and every other block
      stays as it was. */
  function Put<T>(s: Store<T>, obj: T, hash: T -> nat): (r: Store<T>)
    ensures Get(r, CidOf(obj, hash)) == Some(obj)
    ensures forall c :: c != CidOf(obj, hash) ==> Get(r, c) == Get(s, c)
  {
    Store(s.blocks[CidOf(obj, hash) := obj])
  }
}
