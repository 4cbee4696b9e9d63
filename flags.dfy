/**
 The global switches (`string -> bool`) and variables (`string -> int`) of
 Server/API.go, and what `SetSwitch` and `SetVariable` do to them.
 */
module GlobalFlags {

  /** The loop `for k := range store { if k == id { ...; break } }`: visit
      the keys in some order and stop at `id`. It finds `id` exactly when
      `id` is a key. */
  method ScanForKey<V>(store: map<string, V>, id: string) returns (found: bool)
    ensures found <==> id in store
  {
    found := false;
    var unvisited := store.Keys;
    while exists k :: k in unvisited
      invariant unvisited <= store.Keys
      invariant id in store ==> id in unvisited
      decreases unvisited
    {
      var k :| k in unvisited;
      if k == id {
        found := true;
        break;
      }
      unvisited := unvisited - {k};
    }
  }

  /** Write `value` under `id` only if `id` is already a key: what
      `SetSwitch` does, and what the doc-comment of `SetVariable` promises.
      The key set never changes. */
  function SetExisting<V>(store: map<string, V>, id: string, value: V): (r: map<string, V>)
    ensures r.Keys == store.Keys
    ensures id in store ==> r[id] == value
    ensures forall k :: k in store && k != id ==> r[k] == store[k]
    ensures id !in store ==> r == store
  {
    if id in store then store[id := value] else store
  }

  /** What `SetVariable` does as written: the guarded write, then an
      unconditional `GameVariable[id] = value` after the loop. */
  function SetVariableAsWritten(store: map<string, int>, id: string, value: int): (r: map<string, int>)
    ensures r.Keys == store.Keys + {id}
    ensures r[id] == value
    ensures forall k :: k in store && k != id ==> r[k] == store[k]
  {
    SetExisting(store, id, value)[id := value]
  }

  /** The guarded write is redundant: `SetVariable` amounts to a plain
      insert-or-overwrite. */
  lemma SetVariableIsPlainWrite(store: map<string, int>, id: string, value: int)
    ensures SetVariableAsWritten(store, id, value) == store[id := value]
  {
  }

  /** `SetVariable` on an unknown key adds it, contrary to its doc-comment
      "Can only write to existing keys"; `SetExisting` would not. */
  lemma SetVariableAddsUnknownKey(store: map<string, int>, id: string, value: int)
    requires id !in store
    ensures SetVariableAsWritten(store, id, value).Keys != store.Keys
    ensures SetExisting(store, id, value).Keys == store.Keys
  {
    assert id in SetVariableAsWritten(store, id, value).Keys;
  }
}
