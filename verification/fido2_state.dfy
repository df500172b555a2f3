/** The fido2 plugin's key records: restore, lookup, listing and export (src/plugins/fido2_sign.rs). */
module Fido2State {
  import opened Bytes
  import opened Results
  import opened Keys
  import opened Lifecycle
  import opened Sorting
  import Cbor
  import Utf8

  const P256_COORDINATE_LEN := 32
  const BLS12381_G1_COORDINATE_LEN := 48

  datatype StoredKey = StoredKey(
    kid: Kid,
    credentialId: bytes,
    keyHandle: bytes,
    pubX: bytes,
    pubY: bytes,
    algorithm: int,
    attestationObject: bytes,
    hasDedicatedHardwareChain: bool,
    clientDataHash: bytes,
    arkgKhAndCtx: Option<(bytes, bytes)>,
    createdAt: int)

  datatype State = State(keys: map<Kid, StoredKey>, lifecycle: Contexts)

  /** A state blob by what its JSON reads as; the field `lifecycle` may be missing. */
  datatype Blob = Exported(keys: seq<StoredKey>, lifecycle: Option<Contexts>) | Malformed

  datatype KeyInfo = KeyInfo(kid: Kid, algorithm: Algorithm, createdAt: int)

  /** Both coordinates have the width of one of the two curves. */
  predicate ValidWidths(k: StoredKey) {
    (|k.pubX| == P256_COORDINATE_LEN || |k.pubX| == BLS12381_G1_COORDINATE_LEN) && |k.pubY| == |k.pubX|
  }

  /** The curve, and so the algorithm, is read off the coordinate width. */
  function KeyAlgorithm(k: StoredKey): Algorithm {
    if |k.pubX| == BLS12381_G1_COORDINATE_LEN then Bls12381G1Schnorr else ES256
  }

  function ExportOrder(k: StoredKey): SortKey {
    SortKey(k.createdAt, k.kid)
  }

  function InfoOrder(i: KeyInfo): SortKey {
    SortKey(i.createdAt, i.kid)
  }

  function Info(k: StoredKey): KeyInfo {
    KeyInfo(k.kid, KeyAlgorithm(k), k.createdAt)
  }

  // ------------------------------------------------------------- operations

  /** Records filed under their identifiers, the first for an identifier kept. */
  function FirstWins(records: seq<StoredKey>): map<Kid, StoredKey> {
    if records == [] then map[]
    else
      var earlier, last := FirstWins(records[..|records| - 1]), records[|records| - 1];
      if last.kid in earlier then earlier else earlier[last.kid := last]
  }

  predicate AllValid(records: seq<StoredKey>) {
    forall k | k in records :: ValidWidths(k)
  }

  function Restore(blob: Blob): Result<State> {
    match blob
    case Malformed => Err(Serialization)
    case Exported(records, lifecycle) =>
      if AllValid(records) then Ok(State(FirstWins(records), lifecycle.GetOr(map[]))) else Err(Serialization)
  }

  /** `order` is the order in which the hash map happens to be walked. */
  function Export(s: State, order: seq<Kid>): Blob
    requires IterationOrder(s.keys, order)
  {
    Exported(Sort(ExportOrder, ValuesIn(s.keys, order)), Some(s.lifecycle))
  }

  function Listing(s: State, order: seq<Kid>): seq<KeyInfo>
    requires IterationOrder(s.keys, order)
  {
    Sort(InfoOrder, MapSeq(Info, ValuesIn(s.keys, order)))
  }

  function FindKey(s: State, kid: Kid): Result<StoredKey> {
    if kid in s.keys then Ok(s.keys[kid]) else Err(KeyNotFound)
  }

  function Store(s: State, key: StoredKey): State {
    s.(keys := s.keys[key.kid := key])
  }

  /** Only raw signing can be enrolled; the keys a context held before are purged. */
  function Register(s: State, id: ContextId, factorKind: FactorKind, key: StoredKey, now: int): (State, Result<()>) {
    if factorKind != RawSign then (s, Err(Unsupported))
    else
      var (contexts, stale) := RegisterContext(s.lifecycle, id, factorKind, key.kid, now);
      (State(Without(Store(s, key).keys, stale), contexts), Ok(()))
  }

  function Activate(s: State, id: ContextId, now: int): (State, Result<()>) {
    var (contexts, r) := ActivateContext(s.lifecycle, id, now);
    (s.(lifecycle := contexts), r)
  }

  /** The new key is stored before the context is looked up; rotation asks for a new activation. */
  function Rotate(s: State, id: ContextId, key: StoredKey, now: int): (State, Result<()>) {
    var (contexts, r) := RotatePushKey(s.lifecycle, id, key.kid, now);
    (State(Store(s, key).keys,
           if r.Ok? then contexts[id := contexts[id].(state := Registered)] else contexts), r)
  }

  function Delete(s: State, kid: Kid): (State, Result<()>) {
    if kid in s.keys then (s.(keys := Without(s.keys, [kid])), Ok(())) else (s, Err(KeyNotFound))
  }

  /** Destroying any context clears the whole store. */
  function Destroy(s: State, id: ContextId, now: int): (State, Result<()>) {
    if id !in s.lifecycle then (s, Err(KeyNotFound))
    else
      (State(map[], s.lifecycle[id := s.lifecycle[id].(state := Destroyed, updatedAt := now, keyIds := [])]), Ok(()))
  }

  /** The list-based lookup that the index replaces. */
  function FirstMatch(records: seq<StoredKey>, kid: Kid): Option<StoredKey> {
    if records == [] then None
    else if records[0].kid == kid then Some(records[0])
    else FirstMatch(records[1..], kid)
  }

  class Fido2SignPlugin {
    var keys: map<Kid, StoredKey>
    var lifecycle: Contexts

    function Value(): State
      reads this
    {
      State(keys, lifecycle)
    }

    constructor (keys: map<Kid, StoredKey>, lifecycle: Contexts)
      ensures Value() == State(keys, lifecycle)
    {
      this.keys, this.lifecycle := keys, lifecycle;
    }

    /** A record of any other width refuses the whole blob before anything is filed. */
    static method FromState(blob: Blob) returns (r: Result<Fido2SignPlugin>)
      ensures r.Ok? <==> Restore(blob).Ok?
      ensures r.Ok? ==> fresh(r.value) && r.value.Value() == Restore(blob).value
      ensures r.Err? ==> r.error == Restore(blob).error
    {
      if blob.Malformed? {
        return Err(Serialization);
      }
      for i := 0 to |blob.keys|
        invariant forall j | 0 <= j < i :: ValidWidths(blob.keys[j])
      {
        assert blob.keys[i] in blob.keys;
        var width := |blob.keys[i].pubX|;
        if width != P256_COORDINATE_LEN && width != BLS12381_G1_COORDINATE_LEN {
          return Err(Serialization);
        }
        if |blob.keys[i].pubY| != width {
          return Err(Serialization);
        }
      }
      var filed: map<Kid, StoredKey> := map[];
      for i := 0 to |blob.keys|
        invariant filed == FirstWins(blob.keys[..i])
      {
        var k := blob.keys[i];
        assert blob.keys[..i + 1][..i] == blob.keys[..i];
        if k.kid !in filed {
          filed := filed[k.kid := k];
        }
      }
      assert blob.keys[..|blob.keys|] == blob.keys;
      var plugin := new Fido2SignPlugin(filed, blob.lifecycle.GetOr(map[]));
      r := Ok(plugin);
    }

    method ExportState(order: seq<Kid>) returns (blob: Blob)
      requires IterationOrder(keys, order)
      ensures blob == Export(Value(), order)
      ensures Filed(Value()) ==>
                && OldestFirst(blob.keys)
                && (forall k: StoredKey :: k in blob.keys <==> k.kid in keys && keys[k.kid] == k)
                && (Restore(blob) == Ok(Value()) <==> forall kid | kid in keys :: ValidWidths(keys[kid]))
    {
      blob := Exported(Sort(ExportOrder, ValuesIn(keys, order)), Some(lifecycle));
      if Filed(Value()) {
        ExportIsDeterministic(Value(), order, order);
        AscendingIsOldestFirst(blob.keys);
        RestoreUndoesExport(Value(), order);
      }
    }

    method ListKeys(order: seq<Kid>) returns (infos: seq<KeyInfo>)
      requires IterationOrder(keys, order)
      ensures infos == Listing(Value(), order)
      ensures Filed(Value()) ==>
                && Ascending(InfoOrder, infos)
                && (forall i :: i in infos <==> i.kid in keys && i == Info(keys[i.kid]))
    {
      infos := Sort(InfoOrder, MapSeq(Info, ValuesIn(keys, order)));
      if Filed(Value()) {
        ListingIsExact(Value(), order);
      }
    }

    /** Files a generated key under its thumbprint. */
    method StoreGeneratedKey(key: StoredKey)
      modifies this`keys
      ensures Value() == Store(old(Value()), key)
    {
      keys := keys[key.kid := key];
    }

    /** `key` is what generation yields; only raw signing gets that far. */
    method RegisterLifecycle(id: ContextId, factorKind: FactorKind, key: StoredKey, now: int) returns (r: Result<()>)
      modifies this
      ensures (Value(), r) == Register(old(Value()), id, factorKind, key, now)
    {
      if factorKind != RawSign {
        return Err(Unsupported);
      }
      StoreGeneratedKey(key);
      var stored := keys;
      var stale := if id in lifecycle then lifecycle[id].keyIds else [];
      for i := 0 to |stale|
        invariant keys == Without(stored, stale[..i])
        invariant lifecycle == old(lifecycle)
      {
        assert stale[..i + 1] == stale[..i] + [stale[i]];
        keys := keys - {stale[i]};
      }
      assert stale[..|stale|] == stale;
      lifecycle := lifecycle[id := Context(factorKind, Registered, now, [key.kid])];
      r := Ok(());
    }

    method RotateLifecycle(id: ContextId, key: StoredKey, now: int) returns (r: Result<()>)
      modifies this
      ensures (Value(), r) == Rotate(old(Value()), id, key, now)
    {
      StoreGeneratedKey(key);
      if id !in lifecycle {
        return Err(KeyNotFound);
      }
      var ctx := lifecycle[id];
      lifecycle := lifecycle[id := ctx.(keyIds := ctx.keyIds + [key.kid], updatedAt := now)];
      lifecycle := lifecycle[id := lifecycle[id].(state := Registered)];
      r := Ok(());
    }

    method DestroyLifecycle(id: ContextId, now: int) returns (r: Result<()>)
      modifies this
      ensures (Value(), r) == Destroy(old(Value()), id, now)
    {
      if id !in lifecycle {
        return Err(KeyNotFound);
      }
      keys := map[];
      lifecycle := lifecycle[id := lifecycle[id].(state := Destroyed, updatedAt := now, keyIds := [])];
      r := Ok(());
    }

    method DeleteKey(kid: Kid) returns (r: Result<()>)
      modifies this`keys
      ensures (Value(), r) == Delete(old(Value()), kid)
    {
      if kid !in keys {
        return Err(KeyNotFound);
      }
      keys := keys - {kid};
      assert keys == Without(old(keys), [kid]);
      r := Ok(());
    }
  }

  // ------------------------------------------------------ what calls leave

  lemma RegisterLeaves(s: State, id: ContextId, factorKind: FactorKind, key: StoredKey, now: int)
    requires !Owns(s.lifecycle, id, key.kid)
    ensures var (t, r) := Register(s, id, factorKind, key, now);
            && (factorKind != RawSign ==> r == Err(Unsupported) && t == s)
            && (factorKind == RawSign ==>
                  && r.Ok? && key.kid in t.keys && t.keys[key.kid] == key
                  && id in t.lifecycle && t.lifecycle[id] == Context(RawSign, Registered, now, [key.kid]))
  {
  }

  /** Rotation asks for a new activation, whatever state the context was in. */
  lemma RotateLeaves(s: State, id: ContextId, key: StoredKey, now: int)
    ensures var (t, r) := Rotate(s, id, key, now);
            && key.kid in t.keys && t.keys[key.kid] == key
            && (id in s.lifecycle ==>
                  && r.Ok? && id in t.lifecycle
                  && t.lifecycle[id] == Context(s.lifecycle[id].factorKind, Registered, now, s.lifecycle[id].keyIds + [key.kid]))
            && (id !in s.lifecycle ==> r == Err(KeyNotFound) && t.lifecycle == s.lifecycle)
  {
  }

  lemma ActivateAndDestroyLeave(s: State, id: ContextId, now: int)
    ensures var (t, r) := Activate(s, id, now);
            && t.keys == s.keys
            && (id in s.lifecycle ==> r.Ok? && id in t.lifecycle && t.lifecycle[id].state == Active && t.lifecycle[id].updatedAt == now)
            && (id !in s.lifecycle ==> r == Err(KeyNotFound) && t == s)
    ensures var (t, r) := Destroy(s, id, now);
            && (id in s.lifecycle ==>
                  && r.Ok? && t.keys == map[] && id in t.lifecycle
                  && t.lifecycle[id] == Context(s.lifecycle[id].factorKind, Destroyed, now, []))
            && (id !in s.lifecycle ==> r == Err(KeyNotFound) && t == s)
  {
  }

  /** A blob is accepted exactly when every record's coordinates are 32 or 48 octets, both alike;
      a key is on the BLS curve exactly when they are 48. */
  lemma AcceptedExactly(blob: Blob)
    ensures Restore(blob).Ok? <==>
              && blob.Exported?
              && forall k | k in blob.keys :: (|k.pubX| == 32 && |k.pubY| == 32) || (|k.pubX| == 48 && |k.pubY| == 48)
    ensures Restore(blob).Err? ==> Restore(blob).error == Serialization
    ensures forall k: StoredKey :: KeyAlgorithm(k) == if |k.pubX| == 48 then Bls12381G1Schnorr else ES256
  {
  }

  // ---------------------------------------------------------------- lookup

  lemma {:induction false} FirstMatchGrows(records: seq<StoredKey>, last: StoredKey, kid: Kid)
    ensures FirstMatch(records + [last], kid) ==
            if FirstMatch(records, kid).Some? then FirstMatch(records, kid)
            else if last.kid == kid then Some(last) else None
  {
    if records == [] {
      assert ([] + [last])[1..] == [];
    } else {
      FirstMatchGrows(records[1..], last, kid);
      assert (records + [last])[1..] == records[1..] + [last];
    }
  }

  lemma {:induction false} FirstWinsIsFirstMatch(records: seq<StoredKey>, kid: Kid)
    ensures FirstMatch(records, kid) == if kid in FirstWins(records) then Some(FirstWins(records)[kid]) else None
    ensures kid in FirstWins(records) ==> FirstWins(records)[kid].kid == kid && FirstWins(records)[kid] in records
  {
    if records != [] {
      var n := |records| - 1;
      FirstWinsIsFirstMatch(records[..n], kid);
      FirstMatchGrows(records[..n], records[n], kid);
      assert records == records[..n] + [records[n]];
    }
  }

  /** For every accepted blob, looking a key up finds what searching the blob's list would. */
  lemma RestoredLookupIsFirstMatch(blob: Blob, kid: Kid)
    requires Restore(blob).Ok?
    ensures FindKey(Restore(blob).value, kid) ==
            match FirstMatch(blob.keys, kid) case Some(k) => Ok(k) case None => Err(KeyNotFound)
  {
    FirstWinsIsFirstMatch(blob.keys, kid);
  }

  // ---------------------------------------------------- export and listing

  /** Older keys first; among keys of one age the identifiers' octets ascend. */
  predicate OldestFirst(keys: seq<StoredKey>) {
    forall i, j | 0 <= i < j < |keys| ::
      || keys[i].createdAt < keys[j].createdAt
      || (keys[i].createdAt == keys[j].createdAt && Cbor.LexBefore(Utf8.Encode(keys[i].kid), Utf8.Encode(keys[j].kid)))
  }

  lemma AscendingIsOldestFirst(keys: seq<StoredKey>)
    ensures Ascending(ExportOrder, keys) <==> OldestFirst(keys)
  {
    hide Cbor.LexBefore, Utf8.Encode;
    if OldestFirst(keys) {
      assert forall i, j | 0 <= i < j < |keys| :: Before(ExportOrder(keys[i]), ExportOrder(keys[j]));
    }
    if Ascending(ExportOrder, keys) {
      forall i, j | 0 <= i < j < |keys|
        ensures keys[i].createdAt < keys[j].createdAt
             || (keys[i].createdAt == keys[j].createdAt && Cbor.LexBefore(Utf8.Encode(keys[i].kid), Utf8.Encode(keys[j].kid)))
      {
        assert Before(ExportOrder(keys[i]), ExportOrder(keys[j]));
      }
    }
  }

  /** Every key is filed under its own identifier. */
  predicate Filed(s: State) {
    forall kid | kid in s.keys :: s.keys[kid].kid == kid
  }

  lemma ValuesAreKeys(s: State, order: seq<Kid>)
    requires Filed(s) && IterationOrder(s.keys, order)
    ensures DistinctKeys(ExportOrder, ValuesIn(s.keys, order))
    ensures forall k: StoredKey :: k in ValuesIn(s.keys, order) <==> k.kid in s.keys && s.keys[k.kid] == k
  {
    var values := ValuesIn(s.keys, order);
    forall k: StoredKey | k.kid in s.keys && s.keys[k.kid] == k ensures k in values {
      var i :| 0 <= i < |order| && order[i] == k.kid;
      assert values[i] == k;
    }
  }

  /** Exports list every key once, oldest first, and do not depend on how the map is walked. */
  lemma ExportIsDeterministic(s: State, order: seq<Kid>, order': seq<Kid>)
    requires Filed(s) && IterationOrder(s.keys, order) && IterationOrder(s.keys, order')
    ensures var listed := Export(s, order).keys;
            && Ascending(ExportOrder, listed)
            && (forall k: StoredKey :: k in listed <==> k.kid in s.keys && s.keys[k.kid] == k)
    ensures Export(s, order) == Export(s, order')
  {
    hide Sort, Ascending, DistinctKeys;
    var values, values' := ValuesIn(s.keys, order), ValuesIn(s.keys, order');
    ValuesAreKeys(s, order);
    ValuesAreKeys(s, order');
    SortAscends(ExportOrder, values);
    SortAscends(ExportOrder, values');
    SortHolds(ExportOrder, values);
    SortHolds(ExportOrder, values');
    AscendingIsUnique(ExportOrder, Sort(ExportOrder, values), Sort(ExportOrder, values'));
  }

  /** Listing reports the exported keys, in the exported order, however either walks the map. */
  lemma ListingFollowsExport(s: State, order: seq<Kid>, order': seq<Kid>)
    requires Filed(s) && IterationOrder(s.keys, order) && IterationOrder(s.keys, order')
    ensures Listing(s, order) == MapSeq(Info, Export(s, order').keys)
  {
    hide Sort, KeyAlgorithm;
    SortOfSummaries(ExportOrder, InfoOrder, Info, ValuesIn(s.keys, order));
    ExportIsDeterministic(s, order, order');
  }

  /** A listing names every stored key once, oldest first, and nothing else. */
  lemma ListingIsExact(s: State, order: seq<Kid>)
    requires Filed(s) && IterationOrder(s.keys, order)
    ensures Ascending(InfoOrder, Listing(s, order))
    ensures forall i: KeyInfo :: i in Listing(s, order) <==> i.kid in s.keys && i == Info(s.keys[i.kid])
  {
    hide Listing, Export, Before, KeyAlgorithm, IterationOrder;
    ExportShape(s, order);
    ListingFollowsExport(s, order, order);
    ExportIsDeterministic(s, order, order);
    var listed := Export(s, order).keys;
    forall i: KeyInfo | i.kid in s.keys && i == Info(s.keys[i.kid]) ensures i in Listing(s, order) {
      var k := s.keys[i.kid];
      var at := Position(listed, k);
      assert MapSeq(Info, listed)[at] == i;
    }
    forall i | i in Listing(s, order) ensures i.kid in s.keys && i == Info(s.keys[i.kid]) {
      var at := Position(Listing(s, order), i);
      assert listed[at] in listed;
    }
  }

  /** Restoring an export gives the same state back exactly when every stored key has the width of
      one of the two curves; otherwise the export is refused and every key in it is lost. */
  lemma RestoreUndoesExport(s: State, order: seq<Kid>)
    requires Filed(s) && IterationOrder(s.keys, order)
    ensures var r := Restore(Export(s, order));
            && (r == Ok(s) <==> forall kid | kid in s.keys :: ValidWidths(s.keys[kid]))
            && (r == Ok(s) || r == Err(Serialization))
  {
    hide Ascending, Export, ValidWidths;
    ExportShape(s, order);
    ExportIsDeterministic(s, order, order);
    var listed := Export(s, order).keys;
    forall kid ensures kid in FirstWins(listed) <==> kid in s.keys
               ensures kid in s.keys ==> FirstWins(listed)[kid] == s.keys[kid]
    {
      FirstWinsIsFirstMatch(listed, kid);
      if kid in s.keys {
        assert s.keys[kid] in listed;
        ListedIsFound(listed, s.keys[kid]);
      }
    }
    assert FirstWins(listed) == s.keys;
  }

  lemma ExportShape(s: State, order: seq<Kid>)
    requires IterationOrder(s.keys, order)
    ensures Export(s, order).Exported? && Export(s, order).lifecycle == Some(s.lifecycle)
  {
  }

  lemma {:induction false} ListedIsFound(records: seq<StoredKey>, k: StoredKey)
    requires k in records
    ensures FirstMatch(records, k.kid).Some?
  {
    if records[0].kid != k.kid {
      ListedIsFound(records[1..], k);
    }
  }
}
