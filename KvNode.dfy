/**
 * A storage node of the replicated key-value service: a versioned map from
 * keys to values that answers one batch request at a time. Each key of a
 * request names an operation (GET, PUT, TEST_PUT or QUERY) and a version;
 * writes only take effect when they carry a version newer than the stored
 * one. A Go map read of an absent key yields the zero entry ("", version 0).
 */
module KvNode {
  import opened Common

  const GET: int := 0
  const PUT: int := 1
  const TEST_PUT: int := 2
  const QUERY: int := 3

  /** One key's part of a request; `kind` is the Go field `Type`. */
  datatype KeyArg = KeyArg(kind: int, version: nat, testVal: string, newVal: string)

  datatype KvArgs = KvArgs(requestId: nat, keys: map<string, KeyArg>, kill: bool)

  datatype KvValue = KvValue(version: nat, value: string)

  datatype KvResponse = KvResponse(requestId: nat, values: map<string, KvValue>, kill: bool)

  /** The zero entry a Go map read returns for an absent key. */
  const Zero: KvValue := KvValue(0, "")

  /** The stored entry of k, if any. */
  function Get(store: map<string, KvValue>, k: string): (r: Option<KvValue>)
    ensures r.Some? <==> k in store
  {
    if k in store then Some(store[k]) else None
  }

  /** Go's `kvmap[key]`: the stored entry, or the zero entry. */
  function Read(stored: Option<KvValue>): KvValue
  {
    if stored.Some? then stored.value else Zero
  }

  /** What one key argument does: the key's entry afterwards (none: still absent) and its reply, if any. */
  datatype KeyOutcome = KeyOutcome(stored: Option<KvValue>, response: Option<KvValue>)

  function Step(stored: Option<KvValue>, a: KeyArg): KeyOutcome
  {
    var cur := Read(stored);
    if a.kind == GET then KeyOutcome(Some(cur), Some(cur))
    else if a.kind == QUERY then KeyOutcome(stored, Some(cur))
    else if a.kind == PUT then
      var after := if cur.version < a.version then KvValue(a.version, a.newVal) else cur;
      KeyOutcome(Some(after), Some(KvValue(after.version, "")))
    else if a.kind == TEST_PUT then
      var after := if cur.version < a.version
                   then KvValue(a.version, if cur.value == a.testVal then a.newVal else cur.value)
                   else cur;
      KeyOutcome(Some(after), Some(after))
    else KeyOutcome(stored, None)
  }

  /** The entry of k once every key argument of `keys` has been applied to `store`. */
  function After(store: map<string, KvValue>, keys: map<string, KeyArg>, k: string): Option<KvValue>
  {
    if k in keys then Step(Get(store, k), keys[k]).stored else Get(store, k)
  }

  /** The store once every key argument has been applied, each to its own key. */
  function Applied(store: map<string, KvValue>, keys: map<string, KeyArg>): (r: map<string, KvValue>)
    ensures forall k :: Get(r, k) == After(store, keys, k)
  {
    var r := map k | k in store.Keys + keys.Keys && After(store, keys, k).Some? :: After(store, keys, k).value;
    assert forall k :: Get(r, k) == After(store, keys, k) by {
      forall k ensures Get(r, k) == After(store, keys, k) {
        if k !in store.Keys + keys.Keys {
          assert !(k in store) && !(k in keys);
        }
      }
    }
    r
  }

  /** The reply entries: one for every key argument whose kind replies. */
  function Responses(store: map<string, KvValue>, keys: map<string, KeyArg>): (r: map<string, KvValue>)
    ensures forall k :: k in r <==> k in keys && Step(Get(store, k), keys[k]).response.Some?
    ensures forall k :: k in r ==> r[k] == Step(Get(store, k), keys[k]).response.value
  {
    map k | k in keys.Keys && Step(Get(store, k), keys[k]).response.Some? :: Step(Get(store, k), keys[k]).response.value
  }

  /** The key arguments of `keys` whose key lies in s. */
  function Restrict(keys: map<string, KeyArg>, s: set<string>): (r: map<string, KeyArg>)
    ensures forall k :: k in r <==> k in keys && k in s
    ensures forall k :: k in r ==> r[k] == keys[k]
  {
    map k | k in keys.Keys && k in s :: keys[k]
  }

  /** Two stores that agree on every lookup are equal. */
  lemma StoreExt(a: map<string, KvValue>, b: map<string, KvValue>)
    requires forall k :: Get(a, k) == Get(b, k)
    ensures a == b
  {
    forall k | k in a ensures k in b && a[k] == b[k] {
      assert Get(a, k) == Get(b, k);
    }
    forall k | k in b ensures k in a {
      assert Get(a, k) == Get(b, k);
    }
  }

  /** Applying one more key argument changes the store at that key only, as `Step` says. */
  lemma AppliedExtend(store: map<string, KvValue>, keys: map<string, KeyArg>, done: set<string>, key: string)
    requires key in keys && key !in done
    ensures var cur := Applied(store, Restrict(keys, done));
            var o := Step(Get(store, key), keys[key]).stored;
            && Get(cur, key) == Get(store, key)
            && Applied(store, Restrict(keys, done + {key})) == (if o.Some? then cur[key := o.value] else cur - {key})
  {
    var cur := Applied(store, Restrict(keys, done));
    var o := Step(Get(store, key), keys[key]).stored;
    var next := Applied(store, Restrict(keys, done + {key}));
    var wanted := if o.Some? then cur[key := o.value] else cur - {key};
    forall k ensures Get(next, k) == Get(wanted, k) {
      if k == key {
        assert Get(next, k) == o;
      } else {
        assert Get(next, k) == Get(cur, k);
      }
    }
    StoreExt(next, wanted);
  }

  /** Replying to one more key argument adds that key's reply only. */
  lemma ResponsesExtend(store: map<string, KvValue>, keys: map<string, KeyArg>, done: set<string>, key: string)
    requires key in keys && key !in done
    ensures var cur := Responses(store, Restrict(keys, done));
            var o := Step(Get(store, key), keys[key]).response;
            Responses(store, Restrict(keys, done + {key})) == (if o.Some? then cur[key := o.value] else cur)
  {
  }

  lemma RestrictNone(store: map<string, KvValue>, keys: map<string, KeyArg>)
    ensures Applied(store, Restrict(keys, {})) == store
    ensures Responses(store, Restrict(keys, {})) == map[]
  {
    assert Restrict(keys, {}) == map[];
    StoreExt(Applied(store, map[]), store);
  }

  lemma RestrictAll(keys: map<string, KeyArg>)
    ensures Restrict(keys, keys.Keys) == keys
  {
  }

  /** One turn of the request loop keeps the store and the reply map equal to the finished part's. */
  lemma LoopStep(store: map<string, KvValue>, keys: map<string, KeyArg>, done: set<string>, key: string,
                 cur: map<string, KvValue>, o: KeyOutcome)
    requires key in keys && key !in done
    requires cur == Applied(store, Restrict(keys, done))
    requires o == Step(Get(cur, key), keys[key])
    ensures o == Step(Get(store, key), keys[key])
    ensures Applied(store, Restrict(keys, done + {key}))
            == (if o.stored.Some? then cur[key := o.stored.value] else cur - {key})
    ensures var r := Responses(store, Restrict(keys, done));
            Responses(store, Restrict(keys, done + {key})) == (if o.response.Some? then r[key := o.response.value] else r)
  {
    AppliedExtend(store, keys, done, key);
    ResponsesExtend(store, keys, done, key);
  }

  class KvNode {
    var kvmap: map<string, KvValue>

    constructor ()
      ensures kvmap == map[]
    {
      kvmap := map[];
    }

    /** The body of the request loop for one key: `reply` is what goes into the response map. */
    method ApplyKey(key: string, keyarg: KeyArg) returns (reply: Option<KvValue>)
      modifies this
      ensures var o := Step(Get(old(kvmap), key), keyarg);
              && reply == o.response
              && kvmap == (if o.stored.Some? then old(kvmap)[key := o.stored.value] else old(kvmap) - {key})
    {
      reply := None;
      if keyarg.kind == GET {
        var value := Read(Get(kvmap, key));
        reply := Some(value);
        if key !in kvmap {
          kvmap := kvmap[key := Zero];
        }
      } else if keyarg.kind == QUERY {
        reply := Some(Read(Get(kvmap, key)));
      } else if keyarg.kind == PUT {
        if Read(Get(kvmap, key)).version < keyarg.version {
          kvmap := kvmap[key := KvValue(keyarg.version, keyarg.newVal)];
        }
        var value := Read(Get(kvmap, key));
        reply := Some(KvValue(value.version, ""));
        if key !in kvmap {
          kvmap := kvmap[key := Zero];
        }
      } else if keyarg.kind == TEST_PUT {
        if Read(Get(kvmap, key)).version < keyarg.version {
          if Read(Get(kvmap, key)).value == keyarg.testVal {
            kvmap := kvmap[key := KvValue(keyarg.version, keyarg.newVal)];
          } else {
            kvmap := kvmap[key := KvValue(keyarg.version, Read(Get(kvmap, key)).value)];
          }
        }
        var value := Read(Get(kvmap, key));
        reply := Some(value);
        if key !in kvmap {
          kvmap := kvmap[key := Zero];
        }
      }
    }

    /**
     * Answers one request. A kill request is echoed with `kill` set and
     * changes nothing; otherwise every key argument is applied to its own
     * key, in whatever order the map yields them.
     */
    method HandleRequest(arg: KvArgs) returns (resp: KvResponse)
      modifies this
      ensures arg.kill ==> resp == KvResponse(arg.requestId, map[], true) && kvmap == old(kvmap)
      ensures !arg.kill ==> && resp == KvResponse(arg.requestId, Responses(old(kvmap), arg.keys), false)
                            && kvmap == Applied(old(kvmap), arg.keys)
    {
      if arg.kill {
        return KvResponse(arg.requestId, map[], true);
      }
      var responseMap: map<string, KvValue> := map[];
      var todo := arg.keys.Keys;
      ghost var store := kvmap;
      ghost var done: set<string> := {};
      RestrictNone(store, arg.keys);
      while todo != {}
        invariant todo <= arg.keys.Keys && done == arg.keys.Keys - todo
        invariant kvmap == Applied(store, Restrict(arg.keys, done))
        invariant responseMap == Responses(store, Restrict(arg.keys, done))
        decreases |todo|
      {
        var key :| key in todo;
        ghost var before := kvmap;
        var reply := ApplyKey(key, arg.keys[key]);
        ghost var o := Step(Get(before, key), arg.keys[key]);
        LoopStep(store, arg.keys, done, key, before, o);
        match reply {
          case Some(v) => responseMap := responseMap[key := v];
          case None =>
        }
        assert arg.keys.Keys - (todo - {key}) == done + {key};
        todo := todo - {key};
        done := done + {key};
      }
      assert done == arg.keys.Keys;
      RestrictAll(arg.keys);
      assert kvmap == Applied(store, arg.keys) && responseMap == Responses(store, arg.keys);
      resp := KvResponse(arg.requestId, responseMap, false);
    }
  }

  // ---------------------------------------------------------------------------
  // What a request does to the store
  // ---------------------------------------------------------------------------

  /** Keys the request does not name keep their entry, and get no reply. */
  lemma OnlyNamedKeys(store: map<string, KvValue>, keys: map<string, KeyArg>, k: string)
    requires k !in keys
    ensures Get(Applied(store, keys), k) == Get(store, k)
    ensures k !in Responses(store, keys)
  {
  }

  /** GET replies with the stored entry (zero if absent) and leaves the key present with that entry. */
  lemma GetSemantics(store: map<string, KvValue>, keys: map<string, KeyArg>, k: string)
    requires k in keys && keys[k].kind == GET
    ensures var e := if k in store then store[k] else Zero;
            Responses(store, keys)[k] == e && Applied(store, keys)[k] == e
  {
    assert Get(Applied(store, keys), k) == After(store, keys, k);
  }

  /** QUERY replies like GET but never changes the store, not even for an absent key. */
  lemma QueryIsReadOnly(store: map<string, KvValue>, keys: map<string, KeyArg>, k: string)
    requires k in keys && keys[k].kind == QUERY
    ensures Responses(store, keys)[k] == (if k in store then store[k] else Zero)
    ensures Get(Applied(store, keys), k) == Get(store, k)
  {
  }

  /**
   * PUT stores the new value and version exactly when the stored version
   * (0 if absent) is older; the reply carries an empty value and the version
   * now stored.
   */
  lemma PutSemantics(store: map<string, KvValue>, keys: map<string, KeyArg>, k: string)
    requires k in keys && keys[k].kind == PUT
    ensures var old_ := if k in store then store[k] else Zero;
            var a := keys[k];
            var e := Applied(store, keys)[k];
            && (old_.version < a.version ==> e == KvValue(a.version, a.newVal))
            && (old_.version >= a.version ==> e == old_)
            && Responses(store, keys)[k] == KvValue(e.version, "")
  {
    assert Get(Applied(store, keys), k) == After(store, keys, k);
  }

  /**
   * TEST_PUT with a newer version always takes that version, and takes the
   * new value only if the stored value (empty if absent) equals the test
   * value; an older version changes nothing. The reply is the entry now stored.
   */
  lemma TestPutSemantics(store: map<string, KvValue>, keys: map<string, KeyArg>, k: string)
    requires k in keys && keys[k].kind == TEST_PUT
    ensures var old_ := if k in store then store[k] else Zero;
            var a := keys[k];
            var e := Applied(store, keys)[k];
            && (old_.version < a.version && old_.value == a.testVal ==> e == KvValue(a.version, a.newVal))
            && (old_.version < a.version && old_.value != a.testVal ==> e == KvValue(a.version, old_.value))
            && (old_.version >= a.version ==> e == old_)
            && Responses(store, keys)[k] == e
  {
    assert Get(Applied(store, keys), k) == After(store, keys, k);
  }

  /** An argument of any other kind changes nothing and adds no reply. */
  lemma UnknownKindIgnored(store: map<string, KvValue>, keys: map<string, KeyArg>, k: string)
    requires k in keys && keys[k].kind !in {GET, PUT, TEST_PUT, QUERY}
    ensures Get(Applied(store, keys), k) == Get(store, k)
    ensures k !in Responses(store, keys)
  {
  }

  /** Stored versions never decrease, and no key disappears. */
  lemma VersionsNeverDecrease(store: map<string, KvValue>, keys: map<string, KeyArg>)
    ensures forall k :: k in store ==> (k in Applied(store, keys)
                                       && Applied(store, keys)[k].version >= store[k].version)
  {
    forall k | k in store
      ensures k in Applied(store, keys) && Applied(store, keys)[k].version >= store[k].version
    {
      assert Get(Applied(store, keys), k) == After(store, keys, k);
    }
  }

  /** After a GET, PUT or TEST_PUT the key is present. */
  lemma PresentAfterWrite(store: map<string, KvValue>, keys: map<string, KeyArg>, k: string)
    requires k in keys && keys[k].kind in {GET, PUT, TEST_PUT}
    ensures k in Applied(store, keys)
  {
    assert Get(Applied(store, keys), k) == After(store, keys, k);
  }

  /**
   * The result does not depend on the order the keys are visited in:
   * applying one part of a request and then the rest gives the same store
   * as applying the whole request.
   */
  lemma AppliedInParts(store: map<string, KvValue>, keys: map<string, KeyArg>, s: set<string>)
    ensures Applied(Applied(store, Restrict(keys, s)), Restrict(keys, keys.Keys - s)) == Applied(store, keys)
  {
    var first := Applied(store, Restrict(keys, s));
    var both := Applied(first, Restrict(keys, keys.Keys - s));
    var whole := Applied(store, keys);
    forall k ensures Get(both, k) == Get(whole, k) {
      assert Get(first, k) == After(store, Restrict(keys, s), k);
    }
    StoreExt(both, whole);
  }
}
