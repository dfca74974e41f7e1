/**
 * The Astra Monitor settings facade: typed access to the settings store plus
 * the two ownership tables that let a widget release every binding and
 * subscription it holds in one call.
 */
module Settings {
  import opened Wrappers
  import opened Js
  import opened SettingsStore
  import opened Bindings
  import opened Connections

  /** The setter `set(key, value, type)` uses; any type it does not list falls through to the raw setter. */
  function SetterFor(kind: string): (s: Setter)
    ensures s == SetString <==> kind == "string" || kind == "json"
    ensures s == SetValue <==> kind !in {"boolean", "string", "int", "number", "json"}
  {
    if kind == "boolean" then SetBoolean
    else if kind == "string" then SetString
    else if kind == "int" then SetInt
    else if kind == "number" then SetDouble
    else if kind == "json" then SetString
    else SetValue
  }

  /** What `set` hands to the store: the value itself, or its serialised text for `json`. */
  function StoredForm(kind: string, value: Value, stringify: Value -> string): (v: Value)
    ensures kind == "json" ==> v.Str?
    ensures kind != "json" ==> v == value
  {
    if kind == "json" then Str(stringify(value)) else value
  }

  /**
   * What `get_json` makes of a stored value: the parsed text, or `null` when
   * the value is `null`, is not text or does not parse.
   */
  function ReadJson(stored: Value, parse: string -> Option<Value>): Value
  {
    match stored
    case Str(text) =>
      (match parse(text)
       case Some(v) => v
       case None => Null)
    case _ => Null
  }

  /** Storing a value as `json` and reading it back gives the value, when the parser inverts the serialiser on it. */
  lemma JsonRoundTrip(value: Value, stringify: Value -> string, parse: string -> Option<Value>)
    requires parse(stringify(value)) == Some(value)
    ensures ReadJson(StoredForm("json", value, stringify), parse) == value
  {
  }

  /** `get_json` never produces anything but a parse result or `null`. */
  lemma ReadJsonIsParseOrNull(stored: Value, parse: string -> Option<Value>)
    ensures ReadJson(stored, parse) == Null
         || (stored.Str? && parse(stored.s) == Some(ReadJson(stored, parse)))
  {
  }

  /** The stores calls `clear(owner)` makes, in order, given the two tables. */
  function ReleaseCalls(w: Owner, bindMap: map<Owner, Record>, connectMap: map<Owner, seq<Connection>>): (calls: seq<StoreCall>)
    ensures |calls| == (if w in bindMap then |bindMap[w]| else 0) + (if w in connectMap then |connectMap[w]| else 0)
  {
    (if w in bindMap then UnbindCalls(w, bindMap[w]) else [])
      + (if w in connectMap then DisconnectCalls(connectMap[w]) else [])
  }

  /**
   * Releasing an owner unbinds each of its properties once and disconnects
   * each of its subscriptions once, and makes no other call.
   */
  lemma ReleaseCallsExactlyOnce(w: Owner, bindMap: map<Owner, Record>, connectMap: map<Owner, seq<Connection>>, p: string, id: nat)
    requires w in bindMap ==> Unique(bindMap[w])
    ensures multiset(ReleaseCalls(w, bindMap, connectMap))[UnbindCall(w, p)]
         == if w in bindMap && p in Properties(bindMap[w]) then 1 else 0
    ensures multiset(ReleaseCalls(w, bindMap, connectMap))[DisconnectCall(id)]
         == if w in connectMap then multiset(Ids(connectMap[w]))[id] else 0
  {
    if w in connectMap {
      DisconnectCallsCountIds(connectMap[w], id);
    }
    var unbinds := if w in bindMap then UnbindCalls(w, bindMap[w]) else [];
    var disconnects := if w in connectMap then DisconnectCalls(connectMap[w]) else [];
    if w in bindMap {
      UnbindCallsOncePerProperty(w, bindMap[w], p);
      UnbindCallsOncePerProperty(w, bindMap[w], "");
    }
    assert DisconnectCall(id) !in unbinds by {
      if w in bindMap {
        UnbindCallsOncePerProperty(w, bindMap[w], p);
      }
    }
    assert UnbindCall(w, p) !in disconnects;
    assert ReleaseCalls(w, bindMap, connectMap) == unbinds + disconnects;
  }

  /** A second release of the same owner makes no call. */
  lemma ReleaseTwiceCallsNothing(w: Owner, bindMap: map<Owner, Record>, connectMap: map<Owner, seq<Connection>>)
    ensures ReleaseCalls(w, bindMap - {w}, connectMap - {w}) == []
  {
  }

  /** Whether `call` releases a binding or a subscription recorded in the tables. */
  ghost predicate ReleasesFrom(call: StoreCall, bindMap: map<Owner, Record>, connectMap: map<Owner, seq<Connection>>)
  {
    || (call.UnbindCall? && call.owner in bindMap && call.property in Properties(bindMap[call.owner]))
    || (call.DisconnectCall? && exists o, c :: o in connectMap && c in connectMap[o] && c.id == call.id)
  }

  /** `m` holds some of the entries of `m'`, unchanged. */
  ghost predicate SubMap<K, V>(m: map<K, V>, m': map<K, V>)
  {
    forall k :: k in m ==> k in m' && m[k] == m'[k]
  }

  /** Every call a release makes releases something recorded in any larger tables. */
  lemma ReleaseCallsReleaseFrom(w: Owner, bindMap: map<Owner, Record>, connectMap: map<Owner, seq<Connection>>,
                                bindMap0: map<Owner, Record>, connectMap0: map<Owner, seq<Connection>>)
    requires w in bindMap ==> Unique(bindMap[w])
    requires SubMap(bindMap, bindMap0) && SubMap(connectMap, connectMap0)
    ensures forall call :: call in ReleaseCalls(w, bindMap, connectMap) ==> ReleasesFrom(call, bindMap0, connectMap0)
  {
    forall call | call in ReleaseCalls(w, bindMap, connectMap)
      ensures ReleasesFrom(call, bindMap0, connectMap0)
    {
      var unbinds := if w in bindMap then UnbindCalls(w, bindMap[w]) else [];
      var disconnects := if w in connectMap then DisconnectCalls(connectMap[w]) else [];
      assert ReleaseCalls(w, bindMap, connectMap) == unbinds + disconnects;
      if call in unbinds {
        UnbindCallsOncePerProperty(w, bindMap[w], "");
      } else {
        var k :| 0 <= k < |disconnects| && disconnects[k] == call;
        assert connectMap[w][k] in connectMap0[w];
      }
    }
  }

  /** `v` was recorded before and has since left one of the tables. */
  ghost predicate Gone(v: Owner, bindMap: map<Owner, Record>, connectMap: map<Owner, seq<Connection>>,
                          bindMap0: map<Owner, Record>, connectMap0: map<Owner, seq<Connection>>)
  {
    (v in bindMap0 && v !in bindMap) || (v in connectMap0 && v !in connectMap)
  }

  /** `log` unbinds every property and disconnects every subscription recorded for `v`. */
  ghost predicate Logged(log: seq<StoreCall>, v: Owner, bindMap0: map<Owner, Record>, connectMap0: map<Owner, seq<Connection>>)
  {
    && (v in bindMap0 ==> forall p :: p in Properties(bindMap0[v]) ==> UnbindCall(v, p) in log)
    && (v in connectMap0 ==> forall c :: c in connectMap0[v] ==> DisconnectCall(c.id) in log)
  }

  /**
   * Every owner that has left a table has left both, and `log` released
   * everything the original tables recorded for it.
   */
  ghost predicate ReleasedOwners(bindMap: map<Owner, Record>, connectMap: map<Owner, seq<Connection>>, log: seq<StoreCall>,
                                 bindMap0: map<Owner, Record>, connectMap0: map<Owner, seq<Connection>>)
  {
    forall v :: Gone(v, bindMap, connectMap, bindMap0, connectMap0) ==>
      v !in bindMap && v !in connectMap && Logged(log, v, bindMap0, connectMap0)
  }

  /** A release of an owner still in the tables logs everything originally recorded for it. */
  lemma ReleaseCallsLogged(w: Owner, bindMap: map<Owner, Record>, connectMap: map<Owner, seq<Connection>>,
                           bindMap0: map<Owner, Record>, connectMap0: map<Owner, seq<Connection>>)
    requires SubMap(bindMap, bindMap0) && SubMap(connectMap, connectMap0)
    requires w in bindMap0 ==> w in bindMap
    requires w in connectMap0 ==> w in connectMap
    ensures Logged(ReleaseCalls(w, bindMap, connectMap), w, bindMap0, connectMap0)
  {
    var unbinds := if w in bindMap then UnbindCalls(w, bindMap[w]) else [];
    var disconnects := if w in connectMap then DisconnectCalls(connectMap[w]) else [];
    var calls := ReleaseCalls(w, bindMap, connectMap);
    assert calls == unbinds + disconnects;
    if w in bindMap0 {
      forall p | p in Properties(bindMap0[w])
        ensures UnbindCall(w, p) in calls
      {
        var r := bindMap[w];
        if forall k :: 0 <= k < |r| ==> r[k].property != p {
          NotAProperty(r, p);
        }
        var k :| 0 <= k < |r| && r[k].property == p;
        assert unbinds[k] == UnbindCall(w, p);
      }
    }
    if w in connectMap0 {
      forall c | c in connectMap0[w]
        ensures DisconnectCall(c.id) in calls
      {
        var k :| 0 <= k < |connectMap[w]| && connectMap[w][k] == c;
        assert disconnects[k] == DisconnectCall(c.id);
      }
    }
  }

  /** Clearing one more owner keeps `ReleasedOwners`, with its release calls appended to the log. */
  lemma ClearKeepsReleasedOwners(w: Owner, bindMap: map<Owner, Record>, connectMap: map<Owner, seq<Connection>>, log: seq<StoreCall>,
                                 bindMap0: map<Owner, Record>, connectMap0: map<Owner, seq<Connection>>)
    requires w in bindMap || w in connectMap
    requires SubMap(bindMap, bindMap0) && SubMap(connectMap, connectMap0)
    requires ReleasedOwners(bindMap, connectMap, log, bindMap0, connectMap0)
    ensures ReleasedOwners(bindMap - {w}, connectMap - {w}, log + ReleaseCalls(w, bindMap, connectMap), bindMap0, connectMap0)
  {
    var more := ReleaseCalls(w, bindMap, connectMap);
    assert !Gone(w, bindMap, connectMap, bindMap0, connectMap0);
    ReleaseCallsLogged(w, bindMap, connectMap, bindMap0, connectMap0);
    forall v | Gone(v, bindMap - {w}, connectMap - {w}, bindMap0, connectMap0)
      ensures v !in bindMap - {w} && v !in connectMap - {w} && Logged(log + more, v, bindMap0, connectMap0)
    {
      if v != w {
        assert Gone(v, bindMap, connectMap, bindMap0, connectMap0);
      }
    }
  }

  /**
   * The process-wide facade. `store` is the attached settings handle, if
   * any; `calls` is every call the facade has made into the store, in order.
   */
  class Config {
    var store: Option<Store>
    var bindMap: map<Owner, Record>
    var connectMap: map<Owner, seq<Connection>>
    var calls: seq<StoreCall>

    /** Every owner's record names each property at most once. */
    ghost predicate Valid()
      reads this
    {
      forall w :: w in bindMap ==> Unique(bindMap[w])
    }

    /** Both tables start empty, before any store is attached. */
    constructor ()
      ensures Valid()
      ensures store == None && bindMap == map[] && connectMap == map[] && calls == []
    {
      store := None;
      bindMap := map[];
      connectMap := map[];
      calls := [];
    }

    /**
     * Stands for the extension assigning `Config.settings` when it is
     * enabled; that code lies outside the settings facade.
     */
    method Attach(s: Store)
      modifies this`store
      ensures store == Some(s)
    {
      store := Some(s);
    }

    /** Stands for the extension clearing `Config.settings` when it is disabled. */
    method Detach()
      modifies this`store
      ensures store == None
    {
      store := None;
    }

    /** `set(key, value, type)`. */
    method Set(key: string, value: Value, kind: string, stringify: Value -> string) returns (r: Outcome<ConfigError>)
      modifies this
      ensures bindMap == old(bindMap) && connectMap == old(connectMap)
      ensures r == (if old(store).None? then Fail(SettingsNotValid)
                    else if key !in old(store).value.values then Fail(UnknownKey(key))
                    else Pass)
      ensures r.Fail? ==> store == old(store) && calls == old(calls)
      ensures r.Pass? ==>
        var stored := StoredForm(kind, value, stringify);
        && store == Some(old(store).value.(values := old(store).value.values[key := stored]))
        && calls == old(calls) + [SetCall(SetterFor(kind), key, stored)]
    {
      if store.None? {
        return Fail(SettingsNotValid);
      }
      if key !in store.value.values {
        return Fail(UnknownKey(key));
      }
      var stored := StoredForm(kind, value, stringify);
      store := Some(store.value.(values := store.value.values[key := stored]));
      calls := calls + [SetCall(SetterFor(kind), key, stored)];
      return Pass;
    }

    /** `get_value`, `get_boolean`, `get_string`, `get_int` and `get_double`: a read through to the store. */
    method Get(key: string) returns (r: Result<Value, ConfigError>)
      ensures store.None? ==> r == Err(SettingsNotValid)
      ensures store.Some? && key !in store.value.values ==> r == Err(UnknownKey(key))
      ensures store.Some? && key in store.value.values ==> r == Ok(store.value.values[key])
    {
      if store.None? {
        return Err(SettingsNotValid);
      }
      if key !in store.value.values {
        return Err(UnknownKey(key));
      }
      return Ok(store.value.values[key]);
    }

    /**
     * `get_json(key)`: fails only when no store is attached; a missing key,
     * a non-text value or text that does not parse reads as `null`.
     */
    method GetJson(key: string, parse: string -> Option<Value>) returns (r: Result<Value, ConfigError>)
      ensures r.Err? <==> store.None?
      ensures r.Err? ==> r.error == SettingsNotValid
      ensures r.Ok? && key in store.value.values ==> r.value == ReadJson(store.value.values[key], parse)
      ensures r.Ok? && key !in store.value.values ==> r.value == Null
    {
      if store.None? {
        return Err(SettingsNotValid);
      }
      var text := Get(key);
      if text.Err? {
        return Ok(Null);
      }
      if text.value.Str? {
        var parsed := parse(text.value.s);
        if parsed.Some? {
          return Ok(parsed.value);
        }
      }
      return Ok(Null);
    }

    /** `bind(key, widget, property, flags)`. */
    method Bind(key: string, w: Owner, p: string, flags: nat) returns (r: Outcome<ConfigError>)
      requires Valid()
      modifies this
      ensures Valid()
      ensures store == old(store) && connectMap == old(connectMap)
      ensures r == (if old(store).None? then Fail(SettingsNotValid)
                    else if key !in old(store).value.values then Fail(UnknownKey(key))
                    else Pass)
      ensures r.Fail? ==> bindMap == old(bindMap) && calls == old(calls)
      ensures r.Pass? ==> calls == old(calls) + [BindCall(key, w, p, flags)]
      ensures r.Pass? ==>
        var before := if w in old(bindMap) then old(bindMap)[w] else [];
        bindMap == old(bindMap)[w := Assign(before, p, key)]
    {
      if store.None? {
        return Fail(SettingsNotValid);
      }
      if key !in store.value.values {
        return Fail(UnknownKey(key));
      }
      calls := calls + [BindCall(key, w, p, flags)];
      if w !in bindMap {
        bindMap := bindMap[w := []];
      }
      AssignKeepsUnique(bindMap[w], p, key);
      bindMap := bindMap[w := Assign(bindMap[w], p, key)];
      return Pass;
    }

    /** `unbind(widget, property)`: needs no store, and keeps the owner's (possibly empty) record. */
    method Unbind(w: Owner, p: string)
      requires Valid()
      modifies this
      ensures Valid()
      ensures store == old(store) && connectMap == old(connectMap)
      ensures calls == old(calls) + [UnbindCall(w, p)]
      ensures w in old(bindMap) ==> bindMap == old(bindMap)[w := Delete(old(bindMap)[w], p)]
      ensures w !in old(bindMap) ==> bindMap == old(bindMap)
    {
      calls := calls + [UnbindCall(w, p)];
      if w in bindMap {
        DeleteKeepsUnique(bindMap[w], p);
        bindMap := bindMap[w := Delete(bindMap[w], p)];
      }
    }

    /** `connect(object, signal, callback)`: returns the id the store issued. */
    method Connect(o: Owner, signal: string) returns (r: Result<nat, ConfigError>)
      requires Valid()
      modifies this
      ensures Valid()
      ensures bindMap == old(bindMap)
      ensures r.Err? <==> old(store).None?
      ensures r.Err? ==> r.error == SettingsNotValid && store == old(store) && connectMap == old(connectMap) && calls == old(calls)
      ensures r.Ok? ==>
        && r.value == old(store).value.nextId
        && store == Some(old(store).value.(nextId := r.value + 1))
        && calls == old(calls) + [ConnectCall(signal, r.value)]
        && connectMap == old(connectMap)[o := (if o in old(connectMap) then old(connectMap)[o] else []) + [Connection(r.value, signal)]]
    {
      if store.None? {
        return Err(SettingsNotValid);
      }
      var id := store.value.nextId;
      store := Some(store.value.(nextId := id + 1));
      calls := calls + [ConnectCall(signal, id)];
      if o !in connectMap {
        connectMap := connectMap[o := []];
      }
      connectMap := connectMap[o := connectMap[o] + [Connection(id, signal)]];
      return Ok(id);
    }

    /**
     * `disconnect(object, signal)`, as written: the walk of `SpliceSweep`
     * over the owner's list, which stays in the table even when emptied.
     */
    method Disconnect(o: Owner, signal: Option<string>) returns (r: Outcome<ConfigError>)
      modifies this
      ensures store == old(store) && bindMap == old(bindMap)
      ensures r == (if old(store).None? then Fail(SettingsNotValid) else Pass)
      ensures r.Fail? || o !in old(connectMap) ==> connectMap == old(connectMap) && calls == old(calls)
      ensures r.Pass? && o in old(connectMap) ==>
        var sweep := SpliceSweep(old(connectMap)[o], signal);
        && connectMap == old(connectMap)[o := sweep.kept]
        && calls == old(calls) + DisconnectCalls(sweep.removed)
    {
      if store.None? {
        return Fail(SettingsNotValid);
      }
      if o !in connectMap {
        return Pass;
      }
      var connections, disconnected := SpliceWalk(connectMap[o], signal);
      calls := calls + DisconnectCalls(disconnected);
      // The splices act on the very list the table holds.
      connectMap := connectMap[o := connections];
      return Pass;
    }

    /**
     * `disconnect` as it was meant to work: every selected entry is
     * disconnected and removed, every other entry stays, in order.
     */
    method DisconnectEvery(o: Owner, signal: Option<string>) returns (r: Outcome<ConfigError>)
      modifies this
      ensures store == old(store) && bindMap == old(bindMap)
      ensures r == (if old(store).None? then Fail(SettingsNotValid) else Pass)
      ensures r.Fail? || o !in old(connectMap) ==> connectMap == old(connectMap) && calls == old(calls)
      ensures r.Pass? && o in old(connectMap) ==>
        && connectMap == old(connectMap)[o := Retain(old(connectMap)[o], signal)]
        && calls == old(calls) + DisconnectCalls(Released(old(connectMap)[o], signal))
    {
      if store.None? {
        return Fail(SettingsNotValid);
      }
      if o !in connectMap {
        return Pass;
      }
      var connections, disconnected := RemoveEvery(connectMap[o], signal);
      calls := calls + DisconnectCalls(disconnected);
      connectMap := connectMap[o := connections];
      return Pass;
    }

    /** `disconnectAll(object)`: `disconnect` with no signal, as written. */
    method DisconnectAll(o: Owner) returns (r: Outcome<ConfigError>)
      modifies this
      ensures store == old(store) && bindMap == old(bindMap)
      ensures r == (if old(store).None? then Fail(SettingsNotValid) else Pass)
      ensures r.Fail? || o !in old(connectMap) ==> connectMap == old(connectMap) && calls == old(calls)
      ensures r.Pass? && o in old(connectMap) ==>
        && connectMap == old(connectMap)[o := Odds(old(connectMap)[o])]
        && calls == old(calls) + DisconnectCalls(Evens(old(connectMap)[o]))
    {
      r := Disconnect(o, None);
      if r.Pass? && o in old(connectMap) {
        SweepAllAlternates(old(connectMap)[o], None);
      }
    }

    /**
     * `clear(widget)`: unbinds every recorded property, disconnects every
     * recorded subscription, and drops the owner from both tables.
     */
    method Clear(w: Owner) returns (r: Outcome<ConfigError>)
      requires Valid()
      modifies this
      ensures Valid()
      ensures store == old(store)
      ensures r == (if old(store).None? then Fail(SettingsNotValid) else Pass)
      ensures r.Fail? ==> bindMap == old(bindMap) && connectMap == old(connectMap) && calls == old(calls)
      ensures r.Pass? ==> bindMap == old(bindMap) - {w} && connectMap == old(connectMap) - {w}
      ensures r.Pass? ==> calls == old(calls) + ReleaseCalls(w, old(bindMap), old(connectMap))
    {
      if store.None? {
        return Fail(SettingsNotValid);
      }
      UnbindOwner(w);
      DisconnectOwner(w);
      return Pass;
    }

    /** The first half of `clear`: unbind each recorded property of the owner, in order, then forget the record. */
    method UnbindOwner(w: Owner)
      requires Valid()
      modifies this`bindMap, this`calls
      ensures Valid()
      ensures bindMap == old(bindMap) - {w}
      ensures calls == old(calls) + (if w in old(bindMap) then UnbindCalls(w, old(bindMap)[w]) else [])
    {
      if w !in bindMap {
        assert bindMap == bindMap - {w};
        return;
      }
      var widgetBindings := bindMap[w];
      var i := 0;
      while i < |widgetBindings|
        invariant i <= |widgetBindings|
        invariant bindMap == old(bindMap)
        invariant calls == old(calls) + UnbindCalls(w, widgetBindings[..i])
      {
        calls := calls + [UnbindCall(w, widgetBindings[i].property)];
        assert widgetBindings[..i + 1][..i] == widgetBindings[..i];
        i := i + 1;
      }
      assert widgetBindings[..i] == widgetBindings;
      bindMap := bindMap - {w};
    }

    /** The second half of `clear`: disconnect each recorded subscription of the owner, in order, then forget the list. */
    method DisconnectOwner(w: Owner)
      modifies this`connectMap, this`calls
      ensures connectMap == old(connectMap) - {w}
      ensures calls == old(calls) + (if w in old(connectMap) then DisconnectCalls(old(connectMap)[w]) else [])
    {
      if w !in connectMap {
        assert connectMap == connectMap - {w};
        return;
      }
      var widgetConnections := connectMap[w];
      var i := 0;
      while i < |widgetConnections|
        invariant i <= |widgetConnections|
        invariant connectMap == old(connectMap)
        invariant calls == old(calls) + DisconnectCalls(widgetConnections[..i])
      {
        calls := calls + [DisconnectCall(widgetConnections[i].id)];
        assert widgetConnections[..i + 1][..i] == widgetConnections[..i];
        i := i + 1;
      }
      assert widgetConnections[..i] == widgetConnections;
      connectMap := connectMap - {w};
    }

    /**
     * `clearAll()`: clears every owner of the bind-map, then every owner left
     * in the connect-map. It throws only if there is something to clear and
     * no store.
     */
    method ClearAll() returns (r: Outcome<ConfigError>, ghost order: seq<Owner>)
      requires Valid()
      modifies this
      ensures Valid()
      ensures store == old(store)
      ensures r.Fail? <==> old(store).None? && (old(bindMap) != map[] || old(connectMap) != map[])
      ensures r.Fail? ==> r.error == SettingsNotValid
      ensures old(store).None? ==> bindMap == old(bindMap) && connectMap == old(connectMap) && calls == old(calls)
      ensures r.Pass? ==> bindMap == map[] && connectMap == map[]
      ensures |calls| >= |old(calls)| && calls[..|old(calls)|] == old(calls)
      ensures forall k :: |old(calls)| <= k < |calls| ==> ReleasesFrom(calls[k], old(bindMap), old(connectMap))
      ensures r.Pass? ==> forall w, p :: w in old(bindMap) && p in Properties(old(bindMap)[w]) ==> UnbindCall(w, p) in calls[|old(calls)|..]
      ensures r.Pass? ==> forall w, c :: w in old(connectMap) && c in old(connectMap)[w] ==> DisconnectCall(c.id) in calls[|old(calls)|..]
      ensures r.Pass? ==> Distinct(order) && forall w :: w in order <==> w in old(bindMap) || w in old(connectMap)
      ensures r.Pass? ==> calls == old(calls) + ReleaseAll(order, old(bindMap), old(connectMap))
      ensures r.Pass? ==> forall w, p :: multiset(calls[|old(calls)|..])[UnbindCall(w, p)]
                                         == if w in old(bindMap) && p in Properties(old(bindMap)[w]) then 1 else 0
      ensures r.Pass? ==> forall id :: multiset(calls[|old(calls)|..])[DisconnectCall(id)] == IdCount(order, old(connectMap), id)
    {
      r, order := Pass, [];
      if store.None? {
        // The first `clear` throws before changing anything; with nothing to clear none is made.
        if bindMap != map[] || connectMap != map[] {
          r := Fail(SettingsNotValid);
        }
        return;
      }
      while bindMap != map[]
        invariant Valid() && store == old(store) && r == Pass
        invariant ClearAllInvariant(order, bindMap, connectMap, calls, old(calls), old(bindMap), old(connectMap))
        decreases bindMap.Keys
      {
        var w :| w in bindMap;
        ghost var (calls0, bindMap0, connectMap0) := (calls, bindMap, connectMap);
        r := Clear(w);
        ClearAllInvariantStep(w, order, bindMap0, connectMap0, calls0, old(calls), old(bindMap), old(connectMap));
        order := order + [w];
      }
      while connectMap != map[]
        invariant Valid() && store == old(store) && r == Pass
        invariant bindMap == map[]
        invariant ClearAllInvariant(order, bindMap, connectMap, calls, old(calls), old(bindMap), old(connectMap))
        decreases connectMap.Keys
      {
        var o :| o in connectMap;
        ghost var (calls0, bindMap0, connectMap0) := (calls, bindMap, connectMap);
        r := Clear(o);
        ClearAllInvariantStep(o, order, bindMap0, connectMap0, calls0, old(calls), old(bindMap), old(connectMap));
        order := order + [o];
      }
      ClearAllDone(order, calls, old(calls), old(bindMap), old(connectMap));
    }
  }

  /**
   * What `clearAll` has achieved so far: the tables are what is left of the
   * original ones, every call logged since `from` releases something they
   * recorded, and every owner cleared so far has had everything released.
   */
  ghost predicate ClearAllProgress(bindMap: map<Owner, Record>, connectMap: map<Owner, seq<Connection>>,
                                   calls: seq<StoreCall>, from: nat,
                                   bindMap0: map<Owner, Record>, connectMap0: map<Owner, seq<Connection>>)
  {
    && SubMap(bindMap, bindMap0) && SubMap(connectMap, connectMap0)
    && from <= |calls|
    && (forall k :: from <= k < |calls| ==> ReleasesFrom(calls[k], bindMap0, connectMap0))
    && ReleasedOwners(bindMap, connectMap, calls[from..], bindMap0, connectMap0)
  }

  /** One `clear` inside `clearAll` keeps its progress. */
  lemma ClearAllStep(w: Owner, bindMap: map<Owner, Record>, connectMap: map<Owner, seq<Connection>>,
                     calls: seq<StoreCall>, from: nat,
                     bindMap0: map<Owner, Record>, connectMap0: map<Owner, seq<Connection>>)
    requires w in bindMap || w in connectMap
    requires w in bindMap ==> Unique(bindMap[w])
    requires ClearAllProgress(bindMap, connectMap, calls, from, bindMap0, connectMap0)
    ensures var calls' := calls + ReleaseCalls(w, bindMap, connectMap);
            && calls'[..from] == calls[..from]
            && ClearAllProgress(bindMap - {w}, connectMap - {w}, calls', from, bindMap0, connectMap0)
  {
    var more := ReleaseCalls(w, bindMap, connectMap);
    ReleaseCallsReleaseFrom(w, bindMap, connectMap, bindMap0, connectMap0);
    AppendedCallsReleaseFrom(calls, more, from, bindMap0, connectMap0);
    ClearKeepsReleasedOwners(w, bindMap, connectMap, calls[from..], bindMap0, connectMap0);
    assert (calls + more)[from..] == calls[from..] + more;
  }

  /** The calls that releasing each owner of `order` in turn makes, given the two tables. */
  function ReleaseAll(order: seq<Owner>, bindMap: map<Owner, Record>, connectMap: map<Owner, seq<Connection>>): (calls: seq<StoreCall>)
    ensures order == [] ==> calls == []
  {
    if order == [] then []
    else ReleaseAll(order[..|order| - 1], bindMap, connectMap) + ReleaseCalls(order[|order| - 1], bindMap, connectMap)
  }

  /** How many subscriptions of the owners in `order` carry `id`. */
  ghost function IdCount(order: seq<Owner>, connectMap: map<Owner, seq<Connection>>, id: nat): nat
  {
    if order == [] then 0
    else
      var w := order[|order| - 1];
      IdCount(order[..|order| - 1], connectMap, id) + (if w in connectMap then multiset(Ids(connectMap[w]))[id] else 0)
  }

  /** No owner occurs twice in `order`. */
  ghost predicate Distinct(order: seq<Owner>)
  {
    forall i, j :: 0 <= i < j < |order| ==> order[i] != order[j]
  }

  /** A release of one owner makes no unbind call for another. */
  lemma ReleaseCallsOtherOwner(v: Owner, w: Owner, bindMap: map<Owner, Record>, connectMap: map<Owner, seq<Connection>>, p: string)
    requires v != w
    ensures multiset(ReleaseCalls(v, bindMap, connectMap))[UnbindCall(w, p)] == 0
  {
    var unbinds := if v in bindMap then UnbindCalls(v, bindMap[v]) else [];
    var disconnects := if v in connectMap then DisconnectCalls(connectMap[v]) else [];
    assert ReleaseCalls(v, bindMap, connectMap) == unbinds + disconnects;
    assert UnbindCall(w, p) !in unbinds;
    assert UnbindCall(w, p) !in disconnects;
  }

  /** `ReleaseAll` of a longer order is the release of the shorter one followed by the last owner's. */
  lemma ReleaseAllSplit(order: seq<Owner>, bindMap: map<Owner, Record>, connectMap: map<Owner, seq<Connection>>)
    requires order != []
    ensures multiset(ReleaseAll(order, bindMap, connectMap))
         == multiset(ReleaseAll(order[..|order| - 1], bindMap, connectMap)) + multiset(ReleaseCalls(order[|order| - 1], bindMap, connectMap))
  {
  }

  /**
   * Releasing distinct owners one after another unbinds each of their
   * recorded properties exactly once, and unbinds nothing else.
   */
  lemma {:induction false} ReleaseAllUnbindsOnce(order: seq<Owner>, bindMap: map<Owner, Record>, connectMap: map<Owner, seq<Connection>>,
                                                 w: Owner, p: string)
    requires Distinct(order)
    requires forall v :: v in order && v in bindMap ==> Unique(bindMap[v])
    ensures multiset(ReleaseAll(order, bindMap, connectMap))[UnbindCall(w, p)]
         == if w in order && w in bindMap && p in Properties(bindMap[w]) then 1 else 0
  {
    if order != [] {
      var front, v := order[..|order| - 1], order[|order| - 1];
      assert forall u :: u in order <==> u in front || u == v;
      ReleaseAllUnbindsOnce(front, bindMap, connectMap, w, p);
      ReleaseAllSplit(order, bindMap, connectMap);
      if v != w {
        ReleaseCallsOtherOwner(v, w, bindMap, connectMap, p);
      } else {
        ReleaseCallsExactlyOnce(v, bindMap, connectMap, p, 0);
      }
    }
  }

  /** Releasing owners one after another calls `disconnect(id)` once per subscription of theirs that carries `id`. */
  lemma {:induction false} ReleaseAllDisconnects(order: seq<Owner>, bindMap: map<Owner, Record>, connectMap: map<Owner, seq<Connection>>,
                                                 id: nat)
    requires forall v :: v in order && v in bindMap ==> Unique(bindMap[v])
    ensures multiset(ReleaseAll(order, bindMap, connectMap))[DisconnectCall(id)] == IdCount(order, connectMap, id)
  {
    if order != [] {
      var front, v := order[..|order| - 1], order[|order| - 1];
      assert forall u :: u in front ==> u in order;
      ReleaseAllDisconnects(front, bindMap, connectMap, id);
      ReleaseAllSplit(order, bindMap, connectMap);
      ReleaseCallsExactlyOnce(v, bindMap, connectMap, "", id);
    }
  }

  /** `order` lists, once each, exactly the originally recorded owners that have left both tables. */
  ghost predicate ClearedOrder(order: seq<Owner>, bindMap: map<Owner, Record>, connectMap: map<Owner, seq<Connection>>,
                               bindMap0: map<Owner, Record>, connectMap0: map<Owner, seq<Connection>>)
  {
    && Distinct(order)
    && forall v :: v in order <==> (v in bindMap0 || v in connectMap0) && v !in bindMap && v !in connectMap
  }

  /**
   * The log of `clearAll` so far: the earlier log followed by the releases
   * of the owners cleared so far, in the order they were cleared, each as
   * the original tables record it.
   */
  ghost predicate ClearAllLog(order: seq<Owner>, bindMap: map<Owner, Record>, connectMap: map<Owner, seq<Connection>>,
                              calls: seq<StoreCall>, calls0: seq<StoreCall>,
                              bindMap0: map<Owner, Record>, connectMap0: map<Owner, seq<Connection>>)
  {
    && ClearedOrder(order, bindMap, connectMap, bindMap0, connectMap0)
    && calls == calls0 + ReleaseAll(order, bindMap0, connectMap0)
  }

  /** An owner still in every table it was recorded in is released as the original tables record it. */
  lemma ReleaseCallsUnchanged(w: Owner, bindMap: map<Owner, Record>, connectMap: map<Owner, seq<Connection>>,
                              bindMap0: map<Owner, Record>, connectMap0: map<Owner, seq<Connection>>)
    requires SubMap(bindMap, bindMap0) && SubMap(connectMap, connectMap0)
    requires w in bindMap0 ==> w in bindMap
    requires w in connectMap0 ==> w in connectMap
    ensures ReleaseCalls(w, bindMap, connectMap) == ReleaseCalls(w, bindMap0, connectMap0)
  {
  }

  /** Clearing an owner still in the tables extends the order of cleared owners by it. */
  lemma ClearedOrderStep(w: Owner, order: seq<Owner>, bindMap: map<Owner, Record>, connectMap: map<Owner, seq<Connection>>,
                         bindMap0: map<Owner, Record>, connectMap0: map<Owner, seq<Connection>>)
    requires w in bindMap || w in connectMap
    requires SubMap(bindMap, bindMap0) && SubMap(connectMap, connectMap0)
    requires ClearedOrder(order, bindMap, connectMap, bindMap0, connectMap0)
    ensures ClearedOrder(order + [w], bindMap - {w}, connectMap - {w}, bindMap0, connectMap0)
  {
    assert w !in order;
    forall i, j | 0 <= i < j < |order + [w]| ensures (order + [w])[i] != (order + [w])[j] {
      if j == |order| {
        assert order[i] in order;
      }
    }
    forall v ensures v in order + [w] <==> (v in bindMap0 || v in connectMap0) && v !in bindMap - {w} && v !in connectMap - {w} {
      assert v in order + [w] <==> v in order || v == w;
    }
  }

  /** An owner still in one table has not been cleared, so it is still in every table it was recorded in. */
  lemma NotYetGone(w: Owner, bindMap: map<Owner, Record>, connectMap: map<Owner, seq<Connection>>, log: seq<StoreCall>,
                   bindMap0: map<Owner, Record>, connectMap0: map<Owner, seq<Connection>>)
    requires w in bindMap || w in connectMap
    requires ReleasedOwners(bindMap, connectMap, log, bindMap0, connectMap0)
    ensures w in bindMap0 ==> w in bindMap
    ensures w in connectMap0 ==> w in connectMap
  {
    assert !Gone(w, bindMap, connectMap, bindMap0, connectMap0);
  }

  /** One `clear` inside `clearAll` extends its log by the owner's original releases. */
  lemma ClearAllLogStep(w: Owner, order: seq<Owner>, bindMap: map<Owner, Record>, connectMap: map<Owner, seq<Connection>>,
                        calls: seq<StoreCall>, calls0: seq<StoreCall>,
                        bindMap0: map<Owner, Record>, connectMap0: map<Owner, seq<Connection>>)
    requires w in bindMap || w in connectMap
    requires SubMap(bindMap, bindMap0) && SubMap(connectMap, connectMap0)
    requires w in bindMap0 ==> w in bindMap
    requires w in connectMap0 ==> w in connectMap
    requires ClearAllLog(order, bindMap, connectMap, calls, calls0, bindMap0, connectMap0)
    ensures ClearAllLog(order + [w], bindMap - {w}, connectMap - {w}, calls + ReleaseCalls(w, bindMap, connectMap),
                        calls0, bindMap0, connectMap0)
  {
    ReleaseCallsUnchanged(w, bindMap, connectMap, bindMap0, connectMap0);
    ClearedOrderStep(w, order, bindMap, connectMap, bindMap0, connectMap0);
    ReleaseAllAppend(order, w, calls, calls0, bindMap0, connectMap0);
  }

  /** Releasing one more owner appends its release calls to the log. */
  lemma ReleaseAllAppend(order: seq<Owner>, w: Owner, calls: seq<StoreCall>, calls0: seq<StoreCall>,
                         bindMap: map<Owner, Record>, connectMap: map<Owner, seq<Connection>>)
    requires calls == calls0 + ReleaseAll(order, bindMap, connectMap)
    ensures calls + ReleaseCalls(w, bindMap, connectMap) == calls0 + ReleaseAll(order + [w], bindMap, connectMap)
  {
    ReleaseAllLast(order, w, bindMap, connectMap);
  }

  /** `ReleaseAll` of an order ending in `w` ends in `w`'s release calls. */
  lemma ReleaseAllLast(order: seq<Owner>, w: Owner, bindMap: map<Owner, Record>, connectMap: map<Owner, seq<Connection>>)
    ensures ReleaseAll(order + [w], bindMap, connectMap) == ReleaseAll(order, bindMap, connectMap) + ReleaseCalls(w, bindMap, connectMap)
  {
    var longer := order + [w];
    assert longer[..|longer| - 1] == order && longer[|longer| - 1] == w;
  }

  /** All `clearAll` keeps track of between two `clear` calls. */
  ghost predicate ClearAllInvariant(order: seq<Owner>, bindMap: map<Owner, Record>, connectMap: map<Owner, seq<Connection>>,
                                    calls: seq<StoreCall>, calls0: seq<StoreCall>,
                                    bindMap0: map<Owner, Record>, connectMap0: map<Owner, seq<Connection>>)
  {
    && |calls| >= |calls0| && calls[..|calls0|] == calls0
    && ClearAllProgress(bindMap, connectMap, calls, |calls0|, bindMap0, connectMap0)
    && ClearAllLog(order, bindMap, connectMap, calls, calls0, bindMap0, connectMap0)
  }

  /** One `clear` inside `clearAll` keeps its invariant, with the owner appended to the order. */
  lemma ClearAllInvariantStep(w: Owner, order: seq<Owner>, bindMap: map<Owner, Record>, connectMap: map<Owner, seq<Connection>>,
                              calls: seq<StoreCall>, calls0: seq<StoreCall>,
                              bindMap0: map<Owner, Record>, connectMap0: map<Owner, seq<Connection>>)
    requires w in bindMap || w in connectMap
    requires w in bindMap ==> Unique(bindMap[w])
    requires ClearAllInvariant(order, bindMap, connectMap, calls, calls0, bindMap0, connectMap0)
    ensures ClearAllInvariant(order + [w], bindMap - {w}, connectMap - {w}, calls + ReleaseCalls(w, bindMap, connectMap),
                              calls0, bindMap0, connectMap0)
  {
    ClearAllStep(w, bindMap, connectMap, calls, |calls0|, bindMap0, connectMap0);
    NotYetGone(w, bindMap, connectMap, calls[|calls0|..], bindMap0, connectMap0);
    ClearAllLogStep(w, order, bindMap, connectMap, calls, calls0, bindMap0, connectMap0);
  }

  /**
   * Once both tables are empty, every originally recorded owner has been
   * cleared exactly once, in `order`, and everything it held was released.
   */
  lemma ClearAllDone(order: seq<Owner>, calls: seq<StoreCall>, calls0: seq<StoreCall>,
                     bindMap0: map<Owner, Record>, connectMap0: map<Owner, seq<Connection>>)
    requires ClearAllInvariant(order, map[], map[], calls, calls0, bindMap0, connectMap0)
    requires forall v :: v in bindMap0 ==> Unique(bindMap0[v])
    ensures |calls| >= |calls0| && calls[..|calls0|] == calls0
    ensures forall k :: |calls0| <= k < |calls| ==> ReleasesFrom(calls[k], bindMap0, connectMap0)
    ensures forall w :: w in bindMap0 || w in connectMap0 ==> Logged(calls[|calls0|..], w, bindMap0, connectMap0)
    ensures Distinct(order) && forall w :: w in order <==> w in bindMap0 || w in connectMap0
    ensures calls == calls0 + ReleaseAll(order, bindMap0, connectMap0)
    ensures forall w, p :: multiset(calls[|calls0|..])[UnbindCall(w, p)]
                         == if w in bindMap0 && p in Properties(bindMap0[w]) then 1 else 0
    ensures forall id :: multiset(calls[|calls0|..])[DisconnectCall(id)] == IdCount(order, connectMap0, id)
  {
    forall w | w in bindMap0 || w in connectMap0
      ensures Logged(calls[|calls0|..], w, bindMap0, connectMap0)
    {
      assert Gone(w, map[], map[], bindMap0, connectMap0);
    }
    assert calls[|calls0|..] == ReleaseAll(order, bindMap0, connectMap0);
    ClearAllCounts(order, bindMap0, connectMap0);
  }

  /**
   * A finished `clearAll` log unbinds each originally recorded property
   * exactly once and nothing else, and calls `disconnect(id)` once per
   * original subscription carrying `id`.
   */
  lemma ClearAllCounts(order: seq<Owner>, bindMap0: map<Owner, Record>, connectMap0: map<Owner, seq<Connection>>)
    requires Distinct(order)
    requires forall v :: v in order <==> v in bindMap0 || v in connectMap0
    requires forall v :: v in bindMap0 ==> Unique(bindMap0[v])
    ensures forall w, p :: multiset(ReleaseAll(order, bindMap0, connectMap0))[UnbindCall(w, p)]
                         == if w in bindMap0 && p in Properties(bindMap0[w]) then 1 else 0
    ensures forall id :: multiset(ReleaseAll(order, bindMap0, connectMap0))[DisconnectCall(id)] == IdCount(order, connectMap0, id)
  {
    forall w, p
      ensures multiset(ReleaseAll(order, bindMap0, connectMap0))[UnbindCall(w, p)]
           == if w in bindMap0 && p in Properties(bindMap0[w]) then 1 else 0
    {
      ReleaseAllUnbindsOnce(order, bindMap0, connectMap0, w, p);
    }
    forall id: nat
      ensures multiset(ReleaseAll(order, bindMap0, connectMap0))[DisconnectCall(id)] == IdCount(order, connectMap0, id)
    {
      ReleaseAllDisconnects(order, bindMap0, connectMap0, id);
    }
  }

  /** Appending release calls to a log whose tail holds only release calls keeps it so. */
  lemma AppendedCallsReleaseFrom(log: seq<StoreCall>, more: seq<StoreCall>, from: nat,
                                 bindMap: map<Owner, Record>, connectMap: map<Owner, seq<Connection>>)
    requires from <= |log|
    requires forall k :: from <= k < |log| ==> ReleasesFrom(log[k], bindMap, connectMap)
    requires forall call :: call in more ==> ReleasesFrom(call, bindMap, connectMap)
    ensures (log + more)[..from] == log[..from]
    ensures forall k :: from <= k < |log + more| ==> ReleasesFrom((log + more)[k], bindMap, connectMap)
  {
    forall k | from <= k < |log + more| ensures ReleasesFrom((log + more)[k], bindMap, connectMap) {
      if k >= |log| {
        assert (log + more)[k] == more[k - |log|];
      }
    }
  }
}
