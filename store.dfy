/**
 * The vuex store both vue apps create (`store.js`): a `crystal` object that
 * starts empty, and the `SSR_INIT` mutation that copies every entry of the
 * context the server rendered with into it.
 */
module CrystalStore {
  import JsonValue

  /** What `Object.entries(context)` followed by `Vue.set` for each entry leaves in `crystal`. */
  function Merged(crystal: map<string, JsonValue.Json>, context: map<string, JsonValue.Json>): (r: map<string, JsonValue.Json>)
    ensures r.Keys == crystal.Keys + context.Keys
    ensures forall k :: k in context ==> r[k] == context[k]
    ensures forall k :: k in crystal && k !in context ==> r[k] == crystal[k]
  {
    crystal + context
  }

  /** Committing the same context twice leaves what committing it once does. */
  lemma MergedIdempotent(crystal: map<string, JsonValue.Json>, context: map<string, JsonValue.Json>)
    ensures Merged(Merged(crystal, context), context) == Merged(crystal, context)
  {
  }

  /** An empty context changes nothing, and merging into the fresh store yields the context. */
  lemma MergedUnits(crystal: map<string, JsonValue.Json>, context: map<string, JsonValue.Json>)
    ensures Merged(crystal, map[]) == crystal
    ensures Merged(map[], context) == context
  {
  }

  class Store {
    var crystal: map<string, JsonValue.Json>

    /** `createStore()`: `state.crystal` is `{}`. */
    constructor()
      ensures crystal == map[]
    {
      crystal := map[];
    }

    /** The `SSR_INIT` mutation: one `Vue.set` per entry of the context. */
    method SsrInit(context: map<string, JsonValue.Json>)
      modifies this
      ensures crystal == Merged(old(crystal), context)
    {
      var pending := context.Keys;
      while pending != {}
        invariant pending <= context.Keys
        invariant crystal.Keys == old(crystal).Keys + (context.Keys - pending)
        invariant forall k :: k in context.Keys - pending ==> crystal[k] == context[k]
        invariant forall k :: k in old(crystal) && k !in context.Keys - pending ==> crystal[k] == old(crystal)[k]
        decreases pending
      {
        var k :| k in pending;
        crystal := crystal[k := context[k]];
        pending := pending - {k};
      }
    }
  }

  /**
   * The server entry's use of a fresh store: after `SSR_INIT` with the
   * request's context the store holds exactly that context.
   */
  method FreshStoreHoldsContext(context: map<string, JsonValue.Json>) returns (store: Store)
    ensures store.crystal == context
  {
    store := new Store();
    store.SsrInit(context);
    MergedUnits(map[], context);
  }
}
