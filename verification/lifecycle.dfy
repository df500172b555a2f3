/** Lifecycle contexts and the bookkeeping the plugins share (src/plugins/mod.rs). */
module Lifecycle {
  import opened Results
  import opened Keys

  type ContextId = string

  datatype FactorKind = Opaque | WebAuthn | RawSign
  datatype LifecycleState = Uninitialized | Registered | Active | Suspended | Destroyed

  /** Which keys back a registered context, and when it last changed. */
  datatype Context = Context(factorKind: FactorKind, state: LifecycleState, updatedAt: int, keyIds: seq<Kid>)

  type Contexts = map<ContextId, Context>

  function ActivateContext(contexts: Contexts, id: ContextId, now: int): (Contexts, Result<()>) {
    if id in contexts then
      (contexts[id := contexts[id].(state := Active, updatedAt := now)], Ok(()))
    else (contexts, Err(KeyNotFound))
  }

  /** The context's own state is left to the caller. */
  function RotatePushKey(contexts: Contexts, id: ContextId, kid: Kid, now: int): (Contexts, Result<()>) {
    if id in contexts then
      var ctx := contexts[id];
      (contexts[id := ctx.(keyIds := ctx.keyIds + [kid], updatedAt := now)], Ok(()))
    else (contexts, Err(KeyNotFound))
  }

  /** The contexts after registering `kid` for `id`, and the keys that were there before. */
  function RegisterContext(contexts: Contexts, id: ContextId, factorKind: FactorKind, kid: Kid, now: int): (Contexts, seq<Kid>) {
    (contexts[id := Context(factorKind, Registered, now, [kid])],
     if id in contexts then contexts[id].keyIds else [])
  }

  predicate NoRepeats(kids: seq<Kid>) {
    forall i, j | 0 <= i < j < |kids| :: kids[i] != kids[j]
  }

  predicate Owns(contexts: Contexts, id: ContextId, kid: Kid) {
    id in contexts && kid in contexts[id].keyIds
  }

  /** No key is listed twice, within a context or across two. */
  ghost predicate OwnedOnce(contexts: Contexts) {
    && (forall id | id in contexts :: NoRepeats(contexts[id].keyIds))
    && (forall a, b, kid | Owns(contexts, a, kid) && Owns(contexts, b, kid) :: a == b)
  }

  ghost predicate Owned(contexts: Contexts, kid: Kid) {
    exists id :: Owns(contexts, id, kid)
  }

  /** Only the lists of keys matter to ownership. */
  lemma SameLists(a: Contexts, b: Contexts)
    requires forall id, kid :: Owns(a, id, kid) <==> Owns(b, id, kid)
    requires forall id | id in b :: id in a && a[id].keyIds == b[id].keyIds
    ensures OwnedOnce(a) ==> OwnedOnce(b)
    ensures forall kid :: Owned(a, kid) <==> Owned(b, kid)
  {
    forall kid ensures Owned(a, kid) <==> Owned(b, kid) {
      if Owned(a, kid) {
        var id :| Owns(a, id, kid);
        assert Owns(b, id, kid);
      }
      if Owned(b, kid) {
        var id :| Owns(b, id, kid);
        assert Owns(a, id, kid);
      }
    }
  }

  /** What becomes of ownership when one context's list is replaced. */
  lemma ReplacedList(a: Contexts, id: ContextId, ctx: Context)
    requires OwnedOnce(a) && NoRepeats(ctx.keyIds)
    requires forall kid, c | Owns(a, c, kid) && kid in ctx.keyIds :: c == id
    ensures OwnedOnce(a[id := ctx])
    ensures forall kid :: Owned(a[id := ctx], kid) <==> kid in ctx.keyIds || (Owned(a, kid) && !Owns(a, id, kid))
  {
    var b := a[id := ctx];
    forall x, y, kid | Owns(b, x, kid) && Owns(b, y, kid) ensures x == y {
      assert x != id ==> Owns(a, x, kid);
      assert y != id ==> Owns(a, y, kid);
    }
    forall kid ensures Owned(b, kid) <==> kid in ctx.keyIds || (Owned(a, kid) && !Owns(a, id, kid)) {
      if Owned(b, kid) {
        var c :| Owns(b, c, kid);
        if c != id {
          assert Owns(a, c, kid);
        }
      }
      if kid in ctx.keyIds {
        assert Owns(b, id, kid);
      }
      if Owned(a, kid) && !Owns(a, id, kid) {
        var c :| Owns(a, c, kid);
        assert Owns(b, c, kid);
      }
    }
  }
}
