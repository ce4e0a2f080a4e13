/** Properties of the coordinator, stated on its reference definition
    `Core.Coordinate`; `Core.Runtime.CachedQuery` is proved to behave as that
    definition says, so each property holds of the method too. */
module CoreProperties {
  import opened Values
  import opened Keys
  import opened InMemoryAdapter
  import opened Core

  // ---- One call ----

  /** Without a usable key (and auto-keying off) the call fails with a
      configuration error before anything is read, written or queried. */
  lemma MissingKeyFailsFirst(c: Config, hash: string -> string, serialize: seq<Value> -> string,
                             scope: Option<map<string, Value>>, table: map<string, Entry>,
                             answer: Result<Value, Value>, getNow: nat, setNow: nat)
    requires !c.autoKey && (c.key == None || c.key == Some(""))
    ensures Coordinate(c, hash, serialize, scope, table, answer, getNow, setNow)
         == Effect(Err(ConfigurationError(MissingKeyMessage)), scope, table, false, false)
  {
  }

  /** A key already in the open request store is served from it (unless the
      refresh is forced): no query, no persistent adapter, nothing written. */
  lemma ScopeHitShortCircuits(c: Config, hash: string -> string, serialize: seq<Value> -> string,
                              m: map<string, Value>, table: map<string, Entry>,
                              answer: Result<Value, Value>, getNow: nat, setNow: nat, k: string)
    requires KeyOf(c, hash, serialize) == Ok(k) && !c.forceRefresh && k in m
    ensures Coordinate(c, hash, serialize, Some(m), table, answer, getNow, setNow)
         == Effect(Ok(m[k]), Some(m), table, false, false)
  {
  }

  /** With no positive TTL the persistent layer is never resolved, read or
      written, and the result is the request store's or the query's. */
  lemma NoTtlNoPersistentLayer(c: Config, hash: string -> string, serialize: seq<Value> -> string,
                               scope: Option<map<string, Value>>, table: map<string, Entry>,
                               answer: Result<Value, Value>, getNow: nat, setNow: nat)
    requires c.ttlMs <= 0
    ensures var e := Coordinate(c, hash, serialize, scope, table, answer, getNow, setNow);
      !e.usesAdapter && e.table == table
  {
  }

  /** A live, non-null persistent entry is returned and copied into the
      request store; the query is not run and the table is not written. */
  lemma PersistentHit(c: Config, hash: string -> string, serialize: seq<Value> -> string,
                      scope: Option<map<string, Value>>, table: map<string, Entry>,
                      answer: Result<Value, Value>, getNow: nat, setNow: nat, k: string)
    requires KeyOf(c, hash, serialize) == Ok(k) && !c.forceRefresh && c.ttlMs > 0
    requires scope.Some? ==> k !in scope.value
    requires Lookup(table, k, getNow) != Null
    ensures var e := Coordinate(c, hash, serialize, scope, table, answer, getNow, setNow);
      && e.result == Ok(table[k].data)
      && e.scope == PutScope(scope, k, table[k].data)
      && e.table == table
      && e.usesAdapter && !e.queried
  {
  }

  /** A persistent null (stored or absent or expired) is a miss: the query runs. */
  lemma PersistentNullIsMiss(c: Config, hash: string -> string, serialize: seq<Value> -> string,
                             scope: Option<map<string, Value>>, table: map<string, Entry>,
                             answer: Result<Value, Value>, getNow: nat, setNow: nat, k: string)
    requires KeyOf(c, hash, serialize) == Ok(k) && c.ttlMs > 0
    requires scope.Some? && !c.forceRefresh ==> k !in scope.value
    requires Lookup(table, k, getNow) == Null
    ensures var e := Coordinate(c, hash, serialize, scope, table, answer, getNow, setNow);
      e.queried && e.usesAdapter && e.result == Settle(answer)
  {
  }

  /** When the query runs and succeeds, its value is returned unchanged and
      written to the request store and, for a positive TTL, to the persistent
      table with that TTL; no other key of either layer changes. */
  lemma MissWritesBack(c: Config, hash: string -> string, serialize: seq<Value> -> string,
                       scope: Option<map<string, Value>>, table: map<string, Entry>,
                       v: Value, getNow: nat, setNow: nat, k: string)
    requires KeyOf(c, hash, serialize) == Ok(k)
    requires Coordinate(c, hash, serialize, scope, table, Ok(v), getNow, setNow).queried
    ensures var e := Coordinate(c, hash, serialize, scope, table, Ok(v), getNow, setNow);
      && e.result == Ok(v)
      && e.scope == PutScope(scope, k, v)
      && (c.ttlMs > 0 ==> k in e.table && e.table[k] == Entry(v, setNow + c.ttlMs))
      && e.table - {k} == table - {k}
  {
    var e := Coordinate(c, hash, serialize, scope, table, Ok(v), getNow, setNow);
    var afterRead := if c.ttlMs > 0 && !c.forceRefresh then AfterGet(table, k, getNow) else table;
    assert afterRead - {k} == table - {k};
    if c.ttlMs > 0 {
      assert e.table == Put(afterRead, k, v, c.ttlMs, setNow);
      assert e.table - {k} == afterRead - {k};
    }
  }

  /** A forced refresh always runs the query, and on success overwrites the
      key in both active layers. */
  lemma ForceRefreshRunsAndOverwrites(c: Config, hash: string -> string, serialize: seq<Value> -> string,
                                      scope: Option<map<string, Value>>, table: map<string, Entry>,
                                      answer: Result<Value, Value>, getNow: nat, setNow: nat, k: string)
    requires KeyOf(c, hash, serialize) == Ok(k) && c.forceRefresh
    ensures var e := Coordinate(c, hash, serialize, scope, table, answer, getNow, setNow);
      && e.queried
      && e.result == Settle(answer)
      && (answer.Ok? ==> e.scope == PutScope(scope, k, answer.value))
      && (answer.Ok? && c.ttlMs > 0 ==> e.table == Put(table, k, answer.value, c.ttlMs, setNow))
  {
  }

  /** A failed query writes nothing: the request store is untouched and the
      persistent table differs only by the adapter's own lazy expiry. */
  lemma FailureWritesNothing(c: Config, hash: string -> string, serialize: seq<Value> -> string,
                             scope: Option<map<string, Value>>, table: map<string, Entry>,
                             reason: Value, getNow: nat, setNow: nat, k: string)
    requires KeyOf(c, hash, serialize) == Ok(k)
    ensures var e := Coordinate(c, hash, serialize, scope, table, Err(reason), getNow, setNow);
      e.queried ==>
        && e.result == Err(QueryFailure(reason))
        && e.scope == scope
        && (e.table == table || e.table == AfterGet(table, k, getNow))
  {
  }

  /** Inside a scope, a successful call leaves its result in the request
      store under its key, whichever layer answered. */
  lemma SuccessIsRecordedInScope(c: Config, hash: string -> string, serialize: seq<Value> -> string,
                                 m: map<string, Value>, table: map<string, Entry>,
                                 answer: Result<Value, Value>, getNow: nat, setNow: nat, k: string)
    requires KeyOf(c, hash, serialize) == Ok(k)
    ensures var e := Coordinate(c, hash, serialize, Some(m), table, answer, getNow, setNow);
      e.result.Ok? ==> e.scope.Some? && k in e.scope.value && e.scope.value[k] == e.result.value
  {
  }

  /** The query runs exactly when the refresh is forced or both layers miss:
      no open request store holds the key, and either the TTL is not positive
      or the persistent lookup is null. */
  lemma QueryRunsExactlyOnFullMiss(c: Config, hash: string -> string, serialize: seq<Value> -> string,
                                   scope: Option<map<string, Value>>, table: map<string, Entry>,
                                   answer: Result<Value, Value>, getNow: nat, setNow: nat, k: string)
    requires KeyOf(c, hash, serialize) == Ok(k)
    ensures Coordinate(c, hash, serialize, scope, table, answer, getNow, setNow).queried
        <==> c.forceRefresh || ((scope.None? || k !in scope.value) && (c.ttlMs <= 0 || Lookup(table, k, getNow) == Null))
  {
  }

  /** Outside any scope and without a TTL no layer is active: every call with
      a usable key runs the query. The same holds in a freshly opened scope,
      so without a TTL separate scopes never share results. */
  lemma NoLayerAlwaysQueries(c: Config, hash: string -> string, serialize: seq<Value> -> string,
                             scope: Option<map<string, Value>>, table: map<string, Entry>,
                             answer: Result<Value, Value>, getNow: nat, setNow: nat)
    requires KeyOf(c, hash, serialize).Ok? && c.ttlMs <= 0
    requires scope == None || scope == Some(map[])
    ensures var e := Coordinate(c, hash, serialize, scope, table, answer, getNow, setNow);
      e.queried && e.result == Settle(answer)
  {
  }

  // ---- Several calls ----

  /** One call of a sequence: its options, what its query would settle as,
      and the clock at its persistent read and write. */
  datatype Call = Call(config: Config, answer: Result<Value, Value>, getNow: nat, setNow: nat)

  /** The effects of running `calls` one after another inside one scope whose
      store starts as `m`, against a persistent table that starts as `table`. */
  function Session(calls: seq<Call>, hash: string -> string, serialize: seq<Value> -> string,
                   m: map<string, Value>, table: map<string, Entry>): (effects: seq<Effect>)
    ensures |effects| == |calls|
    ensures calls != [] ==> effects[0] == Coordinate(calls[0].config, hash, serialize, Some(m), table,
                                                     calls[0].answer, calls[0].getNow, calls[0].setNow)
    decreases |calls|
  {
    if calls == [] then []
    else
      var e := Coordinate(calls[0].config, hash, serialize, Some(m), table,
                          calls[0].answer, calls[0].getNow, calls[0].setNow);
      [e] + Session(calls[1..], hash, serialize, e.scope.value, e.table)
  }

  /** No call of a sequence that uses key `k` forces a refresh; calls with
      other keys, or without a usable key, may come in between and may force. */
  predicate KeyNeverForced(calls: seq<Call>, hash: string -> string, serialize: seq<Value> -> string, k: string) {
    forall i :: 0 <= i < |calls| && KeyOf(calls[i].config, hash, serialize) == Ok(k) ==> !calls[i].config.forceRefresh
  }

  /** A call whose key is not `k` leaves the request store's entry for `k` as it was. */
  lemma OtherKeyKeepsScopeEntry(c: Config, hash: string -> string, serialize: seq<Value> -> string,
                                m: map<string, Value>, table: map<string, Entry>,
                                answer: Result<Value, Value>, getNow: nat, setNow: nat, k: string)
    requires KeyOf(c, hash, serialize) != Ok(k) && k in m
    ensures var e := Coordinate(c, hash, serialize, Some(m), table, answer, getNow, setNow);
      k in e.scope.value && e.scope.value[k] == m[k]
  {
  }

  /** Once the scope holds `v` under `k`, every later call with that key
      returns `v` and runs no query, whatever calls with other keys come
      in between. */
  lemma {:induction false} ScopeServesLaterCalls(calls: seq<Call>, hash: string -> string, serialize: seq<Value> -> string,
                                                 m: map<string, Value>, table: map<string, Entry>, k: string)
    requires KeyNeverForced(calls, hash, serialize, k)
    requires k in m
    ensures forall j :: 0 <= j < |calls| && KeyOf(calls[j].config, hash, serialize) == Ok(k) ==>
      Session(calls, hash, serialize, m, table)[j].result == Ok(m[k]) &&
      !Session(calls, hash, serialize, m, table)[j].queried
  {
    if calls != [] {
      var e := Coordinate(calls[0].config, hash, serialize, Some(m), table,
                          calls[0].answer, calls[0].getNow, calls[0].setNow);
      if KeyOf(calls[0].config, hash, serialize) == Ok(k) {
        ScopeHitShortCircuits(calls[0].config, hash, serialize, m, table,
                              calls[0].answer, calls[0].getNow, calls[0].setNow, k);
      } else {
        OtherKeyKeepsScopeEntry(calls[0].config, hash, serialize, m, table,
                                calls[0].answer, calls[0].getNow, calls[0].setNow, k);
      }
      assert KeyNeverForced(calls[1..], hash, serialize, k) by {
        forall i | 0 <= i < |calls[1..]| && KeyOf(calls[1..][i].config, hash, serialize) == Ok(k)
          ensures !calls[1..][i].config.forceRefresh
        {
          assert calls[1..][i] == calls[i + 1];
        }
      }
      ScopeServesLaterCalls(calls[1..], hash, serialize, e.scope.value, e.table, k);
      var s := Session(calls, hash, serialize, m, table);
      assert s == [e] + Session(calls[1..], hash, serialize, e.scope.value, e.table);
      forall j | 0 <= j < |calls| && KeyOf(calls[j].config, hash, serialize) == Ok(k)
        ensures s[j].result == Ok(m[k]) && !s[j].queried
      {
        if j > 0 {
          assert calls[1..][j - 1] == calls[j];
          assert s[j] == Session(calls[1..], hash, serialize, e.scope.value, e.table)[j - 1];
        }
      }
    }
  }

  /** Within one scope, calls with key `k` that do not force a refresh run the
      query at most until the first success: every later call with that key
      returns that call's value without running the query, whatever calls
      with other keys come in between. */
  lemma {:induction false} FirstSuccessIsFinal(calls: seq<Call>, hash: string -> string, serialize: seq<Value> -> string,
                                               m: map<string, Value>, table: map<string, Entry>, k: string, i: nat, j: nat)
    requires KeyNeverForced(calls, hash, serialize, k)
    requires i < j < |calls|
    requires KeyOf(calls[i].config, hash, serialize) == Ok(k) && KeyOf(calls[j].config, hash, serialize) == Ok(k)
    requires Session(calls, hash, serialize, m, table)[i].result.Ok?
    ensures Session(calls, hash, serialize, m, table)[j].result == Session(calls, hash, serialize, m, table)[i].result
    ensures !Session(calls, hash, serialize, m, table)[j].queried
  {
    var e := Coordinate(calls[0].config, hash, serialize, Some(m), table,
                        calls[0].answer, calls[0].getNow, calls[0].setNow);
    var rest := Session(calls[1..], hash, serialize, e.scope.value, e.table);
    var s := Session(calls, hash, serialize, m, table);
    assert s == [e] + rest;
    assert KeyNeverForced(calls[1..], hash, serialize, k) by {
      forall n | 0 <= n < |calls[1..]| && KeyOf(calls[1..][n].config, hash, serialize) == Ok(k)
        ensures !calls[1..][n].config.forceRefresh
      {
        assert calls[1..][n] == calls[n + 1];
      }
    }
    assert s[j] == rest[j - 1];
    assert calls[1..][j - 1] == calls[j];
    if i == 0 {
      SuccessIsRecordedInScope(calls[0].config, hash, serialize, m, table,
                               calls[0].answer, calls[0].getNow, calls[0].setNow, k);
      ScopeServesLaterCalls(calls[1..], hash, serialize, e.scope.value, e.table, k);
    } else {
      assert s[i] == rest[i - 1];
      assert calls[1..][i - 1] == calls[i];
      FirstSuccessIsFinal(calls[1..], hash, serialize, e.scope.value, e.table, k, i - 1, j - 1);
    }
  }

  /** Two calls with the same key in one scope: when the first succeeds, the
      second returns its value and does not run the query. */
  lemma SecondCallInScopeIsServed(c1: Config, c2: Config, hash: string -> string, serialize: seq<Value> -> string,
                                  m: map<string, Value>, table: map<string, Entry>,
                                  a1: Result<Value, Value>, a2: Result<Value, Value>,
                                  g1: nat, s1: nat, g2: nat, s2: nat, k: string)
    requires KeyOf(c1, hash, serialize) == Ok(k) && KeyOf(c2, hash, serialize) == Ok(k) && !c2.forceRefresh
    ensures var e1 := Coordinate(c1, hash, serialize, Some(m), table, a1, g1, s1);
      var e2 := Coordinate(c2, hash, serialize, e1.scope, e1.table, a2, g2, s2);
      e1.result.Ok? ==> e2.result == e1.result && !e2.queried && e2.scope == e1.scope && e2.table == e1.table
  {
    var e1 := Coordinate(c1, hash, serialize, Some(m), table, a1, g1, s1);
    SuccessIsRecordedInScope(c1, hash, serialize, m, table, a1, g1, s1, k);
    if e1.result.Ok? {
      ScopeHitShortCircuits(c2, hash, serialize, e1.scope.value, e1.table, a2, g2, s2, k);
    }
  }

  /** Across scopes with a positive TTL: once a call has run the query and
      written a non-null value at time `t`, a call in a new scope with the same
      key reads that value back without a query strictly before `t + ttl`, and
      runs the query again from `t + ttl` on. */
  lemma TtlSharesAcrossScopes(c1: Config, c2: Config, hash: string -> string, serialize: seq<Value> -> string,
                              scope1: Option<map<string, Value>>, table: map<string, Entry>,
                              v: Value, g1: nat, t: nat, a2: Result<Value, Value>, g2: nat, s2: nat, k: string)
    requires KeyOf(c1, hash, serialize) == Ok(k) && KeyOf(c2, hash, serialize) == Ok(k)
    requires c1.ttlMs > 0 && c2.ttlMs > 0 && !c2.forceRefresh && v != Null
    requires Coordinate(c1, hash, serialize, scope1, table, Ok(v), g1, t).queried
    ensures var e1 := Coordinate(c1, hash, serialize, scope1, table, Ok(v), g1, t);
      var e2 := Coordinate(c2, hash, serialize, Some(map[]), e1.table, a2, g2, s2);
      && (g2 < t + c1.ttlMs ==> e2.result == Ok(v) && !e2.queried)
      && (g2 >= t + c1.ttlMs ==> e2.queried && e2.result == Settle(a2))
  {
    var e1 := Coordinate(c1, hash, serialize, scope1, table, Ok(v), g1, t);
    MissWritesBack(c1, hash, serialize, scope1, table, v, g1, t, k);
    assert e1.table[k] == Entry(v, t + c1.ttlMs);
    if g2 < t + c1.ttlMs {
      PersistentHit(c2, hash, serialize, Some(map[]), e1.table, a2, g2, s2, k);
    } else {
      PersistentNullIsMiss(c2, hash, serialize, Some(map[]), e1.table, a2, g2, s2, k);
    }
  }

  // ---- The same, for the stateful coordinator ----

  /** Two `cachedQuery` calls with one configuration inside one freshly opened
      scope: when the first succeeds, the second returns the same value, and
      the query has run at most once between them. */
  method TwoCallsInOneScope(rt: Runtime, c: Config, hash: string -> string, serialize: seq<Value> -> string,
                            query: QueryFn, storeAdapter: InMemoryStore?,
                            g1: nat, s1: nat, g2: nat, s2: nat) returns (r1: Result<Value, Error>, r2: Result<Value, Error>)
    requires !c.forceRefresh
    modifies rt, query, storeAdapter, rt.defaultAdapter
    ensures r1.Ok? ==> r2 == r1 && query.calls <= old(query.calls) + 1
  {
    var scope := RunWithCache();
    r1 := rt.CachedQuery(c, hash, serialize, query, storeAdapter, scope, g1, s1);
    ghost var between := query.calls;
    if r1.Ok? {
      var k := KeyOf(c, hash, serialize).value;
      SuccessIsRecordedInScope(c, hash, serialize, map[], old(rt.ResolvedTable(storeAdapter)),
                               query.respond(old(query.calls), c.args), g1, s1, k);
    }
    r2 := rt.CachedQuery(c, hash, serialize, query, storeAdapter, scope, g2, s2);
    if r1.Ok? {
      assert query.calls == between;
    }
  }

  /** The default store's lifecycle: repeated use returns one instance;
      closing stops it and forgets it; the next use creates a new, empty one. */
  method DefaultAdapterLifecycle(rt: Runtime) returns (a1: InMemoryStore, a2: InMemoryStore, a3: InMemoryStore)
    modifies rt, rt.defaultAdapter
    ensures a1 == a2 && a1.closed
    ensures a3 != a1 && fresh(a3) && a3.store == map[] && !a3.closed
    ensures rt.defaultAdapter == a3
  {
    a1 := rt.GetDefaultAdapter();
    a2 := rt.GetDefaultAdapter();
    rt.CloseDefaultAdapter();
    rt.CloseDefaultAdapter();
    a3 := rt.GetDefaultAdapter();
  }
}
