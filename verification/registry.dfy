/** The test double's builtin-actor registry: code CIDs made from fixed
    names, and the table relating each code CID to its builtin actor type. */
module Registry {
  import opened Types
  import opened Blockstore

  /** `make_builtin`: the identity CID of a name. */
  function MakeBuiltin(name: string): (c: Cid)
    ensures c.Identity? && c.name == name
  {
    Identity(name)
  }

  /** Records the CID abstraction `make_builtin` relies on: identity CIDs of
      distinct names differ, and an identity CID is never the empty-array
      CID nor the CID any block is written under. Both follow from the
      distinct constructors of `Cid`; nothing about the multihash is proved. */
  lemma MakeBuiltinInjective<T>(a: string, b: string, obj: T, hash: T -> nat)
    ensures MakeBuiltin(a) == MakeBuiltin(b) <==> a == b
    ensures MakeBuiltin(a) != EmptyArray && MakeBuiltin(a) != CidOf(obj, hash)
  {
  }

  /** `ACTOR_TYPES`, as an association list in insertion order. */
  const ActorTypes: seq<(Cid, ActorType)> := [
    (MakeBuiltin("fil/test/system"), System),
    (MakeBuiltin("fil/test/init"), Init),
    (MakeBuiltin("fil/test/cron"), Cron),
    (MakeBuiltin("fil/test/account"), Account),
    (MakeBuiltin("fil/test/storagepower"), Power),
    (MakeBuiltin("fil/test/storageminer"), Miner),
    (MakeBuiltin("fil/test/storagemarket"), Market),
    (MakeBuiltin("fil/test/paymentchannel"), PaymentChannel),
    (MakeBuiltin("fil/test/multisig"), Multisig),
    (MakeBuiltin("fil/test/reward"), Reward),
    (MakeBuiltin("fil/test/verifiedregistry"), VerifiedRegistry)
  ]

  /** The type of the first entry with code `code`. */
  function Lookup(entries: seq<(Cid, ActorType)>, code: Cid): (r: Option<ActorType>)
    ensures r.Some? <==> exists i :: 0 <= i < |entries| && entries[i].0 == code
    ensures r.Some? ==> (code, r.value) in entries
  {
    if |entries| == 0 then None
    else if entries[0].0 == code then Some(entries[0].1)
    else
      var r := Lookup(entries[1..], code);
      assert forall i :: 0 < i < |entries| ==> entries[i] == entries[1..][i - 1];
      r
  }

  /** The code of the first entry with type `t`. */
  function ReverseLookup(entries: seq<(Cid, ActorType)>, t: ActorType): (r: Option<Cid>)
    ensures r.Some? <==> exists i :: 0 <= i < |entries| && entries[i].1 == t
    ensures r.Some? ==> (r.value, t) in entries
  {
    if |entries| == 0 then None
    else if entries[0].1 == t then Some(entries[0].0)
    else
      var r := ReverseLookup(entries[1..], t);
      assert forall i :: 0 < i < |entries| ==> entries[i] == entries[1..][i - 1];
      r
  }

  /** No code and no type appears in two entries. */
  ghost predicate OneToOne(entries: seq<(Cid, ActorType)>) {
    forall i, j :: 0 <= i < j < |entries| ==> entries[i].0 != entries[j].0 && entries[i].1 != entries[j].1
  }

  /** In a one-to-one table the two lookups are inverse to each other. */
  lemma LookupsInverse(entries: seq<(Cid, ActorType)>, code: Cid, t: ActorType)
    requires OneToOne(entries)
    ensures Lookup(entries, code) == Some(t) <==> ReverseLookup(entries, t) == Some(code)
  {
  }

  lemma ActorTypesOneToOne()
    ensures OneToOne(ActorTypes)
  {
  }

  /** `ACTOR_TYPES.get`: the type registered under `code`, if any. */
  function ResolveBuiltin(code: Cid): (r: Option<ActorType>)
    ensures r.Some? ==> (code, r.value) in ActorTypes
    ensures r.None? ==> forall t :: (code, t) !in ActorTypes
  {
    Lookup(ActorTypes, code)
  }

  /** The search `find_by_type` performs over `ACTOR_TYPES`: it always finds
      the code registered for `t`. */
  function FindByType(t: ActorType): (r: Option<Cid>)
    ensures r.Some? && (r.value, t) in ActorTypes
  {
    EveryTypeRegistered(t);
    ReverseLookup(ActorTypes, t)
  }

  /** The registry is a bidirectional table: a code resolves to a type
      exactly when that type is found under that code, and every builtin
      type is registered, so `find_by_type` never fails. */
  lemma RegistryBidirectional(code: Cid, t: ActorType)
    ensures ResolveBuiltin(code) == Some(t) <==> FindByType(t) == Some(code)
    ensures FindByType(t).Some?
  {
    ActorTypesOneToOne();
    LookupsInverse(ActorTypes, code, t);
    EveryTypeRegistered(t);
  }

  lemma EveryTypeRegistered(t: ActorType)
    ensures ReverseLookup(ActorTypes, t).Some?
  {
    var i := match t
      case System => 0 case Init => 1 case Cron => 2 case Account => 3
      case Power => 4 case Miner => 5 case Market => 6 case PaymentChannel => 7
      case Multisig => 8 case Reward => 9 case VerifiedRegistry => 10;
    assert ActorTypes[i].1 == t;
  }
}
