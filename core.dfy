/** The cache coordinator: `cachedQuery` derives a key, consults the
    request-local store, then (for a positive TTL) the persistent store, runs
    the query only on a full miss or a forced refresh, and writes the result
    back to whichever layers are active.

    The request-local store is passed explicitly (null outside any scope)
    instead of being found through async-local storage. The process-wide
    default persistent store lives in a `Runtime` object instead of a module
    variable. The query function is an oracle object that counts its calls. */
module Core {
  import opened Values
  import opened Keys
  import opened InMemoryAdapter

  /** The per-call options other than the query function and the adapter override. */
  datatype Config = Config(
    key: Option<string>,
    autoKey: bool,
    prefix: string,
    args: seq<Value>,
    ttlMs: int,
    forceRefresh: bool)

  /** The key a call with these options uses, or its configuration error. */
  function KeyOf(c: Config, hash: string -> string, serialize: seq<Value> -> string): Result<string, Error> {
    DeriveKey(c.key, c.autoKey, c.prefix, c.args, hash, serialize)
  }

  /** A request-local store: one per scope, no expiry. */
  class RequestStore {
    var entries: map<string, Value>

    constructor ()
      ensures entries == map[]
    {
      entries := map[];
    }
  }

  /** Opens a scope: a fresh, empty request store (the handler body that runs
      inside it is the caller's business). */
  method RunWithCache() returns (scope: RequestStore)
    ensures fresh(scope) && scope.entries == map[]
  {
    scope := new RequestStore();
  }

  /** The query function as an oracle: its n-th invocation (counting from 0)
      with arguments `args` settles as `respond(n, args)`, either a value or a
      rejection reason. */
  class QueryFn {
    var calls: nat
    const respond: (nat, seq<Value>) -> Result<Value, Value>

    constructor (respond: (nat, seq<Value>) -> Result<Value, Value>)
      ensures calls == 0 && this.respond == respond
    {
      calls := 0;
      this.respond := respond;
    }

    method Invoke(args: seq<Value>) returns (r: Result<Value, Value>)
      modifies this`calls
      ensures calls == old(calls) + 1
      ensures r == respond(old(calls), args)
    {
      r := respond(calls, args);
      calls := calls + 1;
    }
  }

  // ---- The coordinator as a function of the state it sees ----

  /** What one `cachedQuery` call does: its result, the request store and the
      persistent table it leaves behind, whether it resolved a persistent
      adapter at all, and whether it ran the query. */
  datatype Effect = Effect(
    result: Result<Value, Error>,
    scope: Option<map<string, Value>>,
    table: map<string, Entry>,
    usesAdapter: bool,
    queried: bool)

  function PutScope(scope: Option<map<string, Value>>, key: string, v: Value): (s: Option<map<string, Value>>)
    ensures s.Some? == scope.Some?
    ensures s.Some? ==> key in s.value && s.value[key] == v
  {
    match scope
    case None => None
    case Some(m) => Some(m[key := v])
  }

  /** The outcome the query's answer gives: its value, or a query failure. */
  function Settle(answer: Result<Value, Value>): Result<Value, Error> {
    match answer
    case Ok(v) => Ok(v)
    case Err(reason) => Err(QueryFailure(reason))
  }

  /** The reference definition of one call. `scope` is the open request store
      (None outside a scope); `table` is the persistent table of the adapter
      the call would resolve; `answer` is what the query would settle as if
      invoked; `getNow` and `setNow` are the clock at the persistent read and
      write. */
  function Coordinate(c: Config, hash: string -> string, serialize: seq<Value> -> string,
                      scope: Option<map<string, Value>>, table: map<string, Entry>,
                      answer: Result<Value, Value>, getNow: nat, setNow: nat): (e: Effect)
    ensures e.scope.Some? == scope.Some?
    ensures e.queried ==> e.result == Settle(answer)
    ensures !e.usesAdapter ==> e.table == table
  {
    match KeyOf(c, hash, serialize)
    case Err(err) => Effect(Err(err), scope, table, false, false)
    case Ok(k) =>
      if scope.Some? && !c.forceRefresh && k in scope.value then
        Effect(Ok(scope.value[k]), scope, table, false, false)
      else if c.ttlMs > 0 && !c.forceRefresh && Lookup(table, k, getNow) != Null then
        var cached := Lookup(table, k, getNow);
        Effect(Ok(cached), PutScope(scope, k, cached), AfterGet(table, k, getNow), true, false)
      else
        var afterRead := if c.ttlMs > 0 && !c.forceRefresh then AfterGet(table, k, getNow) else table;
        match answer
        case Err(reason) =>
          Effect(Err(QueryFailure(reason)), scope, afterRead, c.ttlMs > 0, true)
        case Ok(v) =>
          Effect(Ok(v), PutScope(scope, k, v),
                 if c.ttlMs > 0 then Put(afterRead, k, v, c.ttlMs, setNow) else afterRead,
                 c.ttlMs > 0, true)
  }

  /** The contents of a request store, or None outside a scope. */
  function ScopeOf(scope: RequestStore?): Option<map<string, Value>>
    reads scope
  {
    if scope == null then None else Some(scope.entries)
  }

  /** The module-level state of the library: the lazily created default store. */
  class Runtime {
    var defaultAdapter: InMemoryStore?

    constructor ()
      ensures defaultAdapter == null
    {
      defaultAdapter := null;
    }

    /** The adapter a TTL call uses: the override if given, else the default. */
    function Resolve(storeAdapter: InMemoryStore?): InMemoryStore?
      reads this
    {
      if storeAdapter != null then storeAdapter else defaultAdapter
    }

    /** The table of the adapter a TTL call would use; a default store not yet
        created is as good as an empty one. */
    function ResolvedTable(storeAdapter: InMemoryStore?): map<string, Entry>
      reads this, storeAdapter, defaultAdapter
    {
      if storeAdapter != null then storeAdapter.store
      else if defaultAdapter != null then defaultAdapter.store
      else map[]
    }

    /** Returns the default store, creating it on first use; the same instance
        is returned until it is closed. */
    method GetDefaultAdapter() returns (a: InMemoryStore)
      modifies this`defaultAdapter
      ensures defaultAdapter == a
      ensures old(defaultAdapter) != null ==> a == old(defaultAdapter)
      ensures old(defaultAdapter) == null ==> fresh(a) && a.store == map[] && !a.closed
    {
      if defaultAdapter == null {
        defaultAdapter := new InMemoryStore();
      }
      a := defaultAdapter;
    }

    /** Stops the default store's sweep and forgets it, so the next use
        creates a new one; does nothing when there is none. */
    method CloseDefaultAdapter()
      modifies this, defaultAdapter
      ensures defaultAdapter == null
      ensures old(defaultAdapter) != null ==>
        old(defaultAdapter).closed && old(defaultAdapter).store == old(defaultAdapter.store)
    {
      if defaultAdapter != null {
        defaultAdapter.Close();
        defaultAdapter := null;
      }
    }

    /** One `cachedQuery` call, proved to behave as `Coordinate` says, with
        the default store created only when a TTL call reaches the persistent
        layer without an override. */
    method CachedQuery(c: Config, hash: string -> string, serialize: seq<Value> -> string,
                       query: QueryFn, storeAdapter: InMemoryStore?, scope: RequestStore?,
                       getNow: nat, setNow: nat) returns (r: Result<Value, Error>)
      modifies this, query, scope, storeAdapter, defaultAdapter
      ensures
        var e := Coordinate(c, hash, serialize, old(ScopeOf(scope)), old(ResolvedTable(storeAdapter)),
                            query.respond(old(query.calls), c.args), getNow, setNow);
        && r == e.result
        && ScopeOf(scope) == e.scope
        && query.calls == old(query.calls) + (if e.queried then 1 else 0)
        && (e.usesAdapter ==> Resolve(storeAdapter) != null && ResolvedTable(storeAdapter) == e.table)
        && (e.usesAdapter && storeAdapter == null && old(defaultAdapter) == null ==> fresh(defaultAdapter) && !defaultAdapter.closed)
        && (!e.usesAdapter || storeAdapter != null || old(defaultAdapter) != null ==> defaultAdapter == old(defaultAdapter))
        && (!e.usesAdapter && storeAdapter != null ==> storeAdapter.store == old(storeAdapter.store))
        && (!e.usesAdapter && defaultAdapter != null ==> defaultAdapter.store == old(defaultAdapter.store))
      ensures storeAdapter != null && defaultAdapter != null && defaultAdapter != storeAdapter ==> unchanged(defaultAdapter)
      ensures storeAdapter != null ==> storeAdapter.closed == old(storeAdapter.closed)
      ensures defaultAdapter != null && defaultAdapter == old(defaultAdapter) ==> defaultAdapter.closed == old(defaultAdapter.closed)
    {
      var derived := KeyOf(c, hash, serialize);
      if derived.Err? {
        return Err(derived.error);
      }
      var finalKey := derived.value;

      // request-local layer
      if scope != null && !c.forceRefresh {
        if finalKey in scope.entries {
          return Ok(scope.entries[finalKey]);
        }
      }

      // persistent layer, only for a positive TTL
      var persistent: InMemoryStore? := null;
      if c.ttlMs > 0 {
        if storeAdapter != null {
          persistent := storeAdapter;
        } else {
          persistent := GetDefaultAdapter();
        }
        if !c.forceRefresh {
          var cached := persistent.Get(finalKey, getNow);
          if cached != Null {
            if scope != null {
              scope.entries := scope.entries[finalKey := cached];
            }
            return Ok(cached);
          }
        }
      }

      // full miss or forced refresh: run the query once
      var answer := query.Invoke(c.args);
      if answer.Err? {
        return Err(QueryFailure(answer.error));
      }
      var result := answer.value;
      if scope != null {
        scope.entries := scope.entries[finalKey := result];
      }
      if persistent != null && c.ttlMs > 0 {
        persistent.Set(finalKey, result, c.ttlMs, setNow);
      }
      return Ok(result);
    }
  }
}
