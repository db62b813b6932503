/** What any import, sanitised or hand-made, does to stored credentials (internal/db/backup.go). */
module BackupCredentials {
  import opened Wrappers
  import opened RestoreTables
  import opened BackupModel
  import opened Backup

  /** The payload row that decides the row under id: the last one with it, if id is not empty. */
  ghost predicate Decides<R>(id: R -> string, rows: seq<R>, wanted: string, last: int) {
    && -1 <= last < |rows|
    && (last >= 0 ==> wanted != "" && id(rows[last]) == wanted)
    && (forall i :: last < i < |rows| ==> wanted == "" || id(rows[i]) != wanted)
  }

  lemma {:induction false} NeverRefused<K, R>(rules: Rules<K, R>, table: map<K, R>, rows: seq<R>)
    requires forall row :: row in rows ==> rules.unique(rules.restored(row)).None?
    ensures RestoredTable(rules, table, rows).Some?
  {
    if rows != [] { NeverRefused(rules, table, rows[..|rows| - 1]); }
  }

  /** A given text that is not empty wins; an empty one gives way to what is stored, if anything is. */
  predicate Wins(given: string, stored: Option<string>, after: string) {
    && (given != "" ==> after == given)
    && (given == "" && stored.Some? ==> after == stored.value)
    && (given == "" && stored.None? ==> after == "")
  }

  predicate CredentialsWin(given: ConnectionData, stored: Option<ConnectionData>, after: ConnectionData) {
    && Wins(given.apiKey, if stored.Some? then Some(stored.value.apiKey) else None, after.apiKey)
    && Wins(given.accessToken, if stored.Some? then Some(stored.value.accessToken) else None, after.accessToken)
    && Wins(given.refreshToken, if stored.Some? then Some(stored.value.refreshToken) else None, after.refreshToken)
  }

  /**
   * After an import each connection named in the payload has the payload's credentials where those are
   * not empty and the stored ones elsewhere; connections that are not named are those of the start.
   */
  lemma ConnectionAfter(existing: map<string, Connection>, start: map<string, Connection>, rows: seq<Connection>, now: int, id: string)
    returns (last: int)
    ensures Decides(CONNECTION_ID, rows, id, last)
    ensures var t := RestoredTable(ConnectionRules(existing, now), start, rows);
      && t.Some?
      && (last < 0 ==> (id in t.value <==> id in start) && (id in t.value ==> t.value[id] == start[id]))
      && (last >= 0 ==> id in t.value && t.value[id].data == Marshalled(
            if id in existing then RestoredConnectionData(existing[id].data, rows[last].data) else rows[last].data))
      && (last >= 0 ==> CredentialsWin(rows[last].data, if id in existing then Some(existing[id].data) else None, t.value[id].data))
  {
    hide RestoredTable, Marshalled, RestoredConnectionData, CredentialsWin;
    var rules := ConnectionRules(existing, now);
    last := LastWrite(rules, start, rows, id);
    NeverRefused(rules, start, rows);
    if last >= 0 {
      GivenCredentialsWin(if id in existing then Some(existing[id].data) else None, rows[last].data);
    }
  }

  lemma GivenCredentialsWin(stored: Option<ConnectionData>, given: ConnectionData)
    ensures CredentialsWin(given, stored,
      Marshalled(if stored.Some? then RestoredConnectionData(stored.value, given) else given))
  {
  }

  lemma NodeAfter(existing: map<string, Node>, start: map<string, Node>, rows: seq<Node>, now: int, id: string)
    returns (last: int)
    ensures Decides(NODE_ID, rows, id, last)
    ensures var t := RestoredTable(NodeRules(existing, now), start, rows);
      && t.Some?
      && (last < 0 ==> (id in t.value <==> id in start) && (id in t.value ==> t.value[id] == start[id]))
      && (last >= 0 ==> id in t.value)
      && (last >= 0 && id in existing ==> t.value[id].data == rows[last].data.(apiKey :=
            if rows[last].data.apiKey != "" then rows[last].data.apiKey else existing[id].data.apiKey))
      && (last >= 0 && id !in existing ==> t.value[id].data == rows[last].data)
  {
    hide RestoredTable;
    var rules := NodeRules(existing, now);
    last := LastWrite(rules, start, rows, id);
    NeverRefused(rules, start, rows);
  }

  lemma PoolAfter(strip: Strip, existing: map<string, ProxyPool>, start: map<string, ProxyPool>, rows: seq<ProxyPool>, now: int, id: string)
    returns (last: int)
    ensures Decides(POOL_ID, rows, id, last)
    ensures var t := RestoredTable(PoolRules(strip, existing, now), start, rows);
      && t.Some?
      && (last < 0 ==> (id in t.value <==> id in start) && (id in t.value ==> t.value[id] == start[id]))
      && (last >= 0 ==> id in t.value)
      && (last >= 0 && id in existing ==>
            t.value[id].data.proxyURL == RestoredURL(strip, existing[id].data.proxyURL, rows[last].data.proxyURL))
      && (last >= 0 && id !in existing ==> t.value[id].data == rows[last].data)
  {
    hide RestoredTable, RestoredURL;
    var rules := PoolRules(strip, existing, now);
    last := LastWrite(rules, start, rows, id);
    NeverRefused(rules, start, rows);
  }

  /** A row that names a key with a stored text is never skipped, and what it stores is not empty. */
  lemma KeyAfter(existing: map<string, APIKey>, start: map<string, APIKey>, rows: seq<APIKey>, now: int, i: nat)
    requires i < |rows| && rows[i].id != ""
    requires rows[i].id in existing && existing[rows[i].id].key != ""
    ensures var t := RestoredTable(KeyRules(existing, now), start, rows);
      t.Some? ==> rows[i].id in t.value && t.value[rows[i].id].key != ""
  {
    hide RestoredTable;
    var rules := KeyRules(existing, now);
    assert Writes(rules, rows[i], rows[i].id);
    var last := LastWrite(rules, start, rows, rows[i].id);
  }

  /** No credential of a connection goes missing. */
  ghost predicate Survive(was: ConnectionData, after: ConnectionData) {
    && (was.apiKey != "" ==> after.apiKey != "")
    && (was.accessToken != "" ==> after.accessToken != "")
    && (was.refreshToken != "" ==> after.refreshToken != "")
  }

  /**
   * For any payload and mode: no stored non-empty credential becomes empty for an id the payload names.
   */
  lemma NoCredentialIsWiped(strip: Strip, s: Store, snapshot: map<string, string>, p: Payload, replace: bool, now: int)
    requires Imported(strip, s, snapshot, p, replace, now).Some?
    ensures var t := Imported(strip, s, snapshot, p, replace, now).value;
      && (forall i :: 0 <= i < |p.connections| && p.connections[i].id != "" && p.connections[i].id in s.connections ==>
            p.connections[i].id in t.connections
            && Survive(s.connections[p.connections[i].id].data, t.connections[p.connections[i].id].data))
      && (forall i :: 0 <= i < |p.nodes| && p.nodes[i].id != "" && p.nodes[i].id in s.nodes ==>
            p.nodes[i].id in t.nodes
            && (s.nodes[p.nodes[i].id].data.apiKey != "" ==> t.nodes[p.nodes[i].id].data.apiKey != ""))
      && (forall i :: 0 <= i < |p.pools| && p.pools[i].id != "" && p.pools[i].id in s.pools ==>
            p.pools[i].id in t.pools
            && (s.pools[p.pools[i].id].data.proxyURL != "" ==> t.pools[p.pools[i].id].data.proxyURL != ""))
      && (forall i :: 0 <= i < |p.keys| && p.keys[i].id != "" && p.keys[i].id in s.keys && s.keys[p.keys[i].id].key != "" ==>
            p.keys[i].id in t.keys && t.keys[p.keys[i].id].key != "")
  {
    hide RestoredTable, ConnectionRules, NodeRules, PoolRules, KeyRules, ComboRules, KVRules, RedactProxyURL, Survive;
    hide RestoredConnectionData, Marshalled;
    forall i | 0 <= i < |p.connections| && p.connections[i].id != "" && p.connections[i].id in s.connections
      ensures var t, id := Imported(strip, s, snapshot, p, replace, now).value, p.connections[i].id;
        id in t.connections && Survive(s.connections[id].data, t.connections[id].data)
    {
      var id := p.connections[i].id;
      var last := ConnectionAfter(s.connections, if replace then map[] else s.connections, p.connections, now, id);
      DataSurvives(s.connections[id].data, p.connections[last].data);
    }
    forall i | 0 <= i < |p.nodes| && p.nodes[i].id != "" && p.nodes[i].id in s.nodes
      ensures var t, id := Imported(strip, s, snapshot, p, replace, now).value, p.nodes[i].id;
        id in t.nodes && (s.nodes[id].data.apiKey != "" ==> t.nodes[id].data.apiKey != "")
    {
      var last := NodeAfter(s.nodes, if replace then map[] else s.nodes, p.nodes, now, p.nodes[i].id);
    }
    forall i | 0 <= i < |p.pools| && p.pools[i].id != "" && p.pools[i].id in s.pools
      ensures var t, id := Imported(strip, s, snapshot, p, replace, now).value, p.pools[i].id;
        id in t.pools && (s.pools[id].data.proxyURL != "" ==> t.pools[id].data.proxyURL != "")
    {
      var last := PoolAfter(strip, s.pools, if replace then map[] else s.pools, p.pools, now, p.pools[i].id);
    }
    forall i | 0 <= i < |p.keys| && p.keys[i].id != "" && p.keys[i].id in s.keys && s.keys[p.keys[i].id].key != ""
      ensures var t, id := Imported(strip, s, snapshot, p, replace, now).value, p.keys[i].id;
        id in t.keys && t.keys[id].key != ""
    {
      KeyAfter(s.keys, if replace then map[] else s.keys, p.keys, now, i);
    }
  }

  lemma DataSurvives(stored: ConnectionData, given: ConnectionData)
    ensures Survive(stored, Marshalled(RestoredConnectionData(stored, given)))
  {
  }

  /**
   * Provider-specific data is the exception: what is stored is dropped exactly when the row that decides
   * carries an empty map of its own.
   */
  lemma WhenSpecificDataIsWiped(existing: map<string, Connection>, start: map<string, Connection>, rows: seq<Connection>, now: int, id: string)
    returns (last: int)
    ensures Decides(CONNECTION_ID, rows, id, last)
    ensures var t := RestoredTable(ConnectionRules(existing, now), start, rows);
      t.Some? && (last >= 0 && id in existing && Marshalled(existing[id].data).providerSpecificData.Some? ==>
        id in t.value
        && (t.value[id].data.providerSpecificData.None? <==> rows[last].data.providerSpecificData == Some(map[])))
  {
    hide RestoredTable, ConnectionRules, Decides;
    last := ConnectionAfter(existing, start, rows, now, id);
  }

  /** Every store that an import leaves is well formed again. */
  lemma ImportKeepsValid(strip: Strip, s: Store, snapshot: map<string, string>, p: Payload, replace: bool, now: int)
    requires s.Valid() && Imported(strip, s, snapshot, p, replace, now).Some?
    ensures Imported(strip, s, snapshot, p, replace, now).value.Valid()
  {
    hide RestoredTable, KeyRules, ComboRules, ConnectionRules, NodeRules, PoolRules, KVRules;
    RowsStayKeyed(strip, s, snapshot, p, replace, now);
    hide Keyed;
    NothingIsDistinct();
    hide DistinctKeys, DistinctNames;
    KeysStayUnique(s.keys, if replace then map[] else s.keys, p.keys, now);
    CombosStayUnique(if replace then map[] else s.combos, p.combos, now);
  }

  lemma NothingIsDistinct()
    ensures DistinctKeys(map[]) && DistinctNames(map[])
  {
  }

  lemma KeysStayUnique(existing: map<string, APIKey>, start: map<string, APIKey>, rows: seq<APIKey>, now: int)
    requires DistinctKeys(start)
    ensures var t := RestoredTable(KeyRules(existing, now), start, rows); t.Some? ==> DistinctKeys(t.value)
  {
    hide RestoredTable;
    RestoreKeepsUnique(KeyRules(existing, now), start, rows);
  }

  lemma CombosStayUnique(start: map<string, Combo>, rows: seq<Combo>, now: int)
    requires DistinctNames(start)
    ensures var t := RestoredTable(ComboRules(now), start, rows); t.Some? ==> DistinctNames(t.value)
  {
    hide RestoredTable;
    RestoreKeepsUnique(ComboRules(now), start, rows);
  }

  lemma RowsStayKeyed(strip: Strip, s: Store, snapshot: map<string, string>, p: Payload, replace: bool, now: int)
    requires s.Valid() && Imported(strip, s, snapshot, p, replace, now).Some?
    ensures var t := Imported(strip, s, snapshot, p, replace, now).value;
      && Keyed(CONNECTION_ID, t.connections) && Keyed(NODE_ID, t.nodes) && Keyed(POOL_ID, t.pools)
      && Keyed(KEY_ID, t.keys) && Keyed(COMBO_ID, t.combos) && Keyed(KV_ID, t.kv)
  {
    hide RestoredTable;
    RestoreKeepsKeyed(ConnectionRules(s.connections, now), if replace then map[] else s.connections, p.connections);
    RestoreKeepsKeyed(NodeRules(s.nodes, now), if replace then map[] else s.nodes, p.nodes);
    RestoreKeepsKeyed(PoolRules(strip, s.pools, now), if replace then map[] else s.pools, p.pools);
    RestoreKeepsKeyed(KeyRules(s.keys, now), if replace then map[] else s.keys, p.keys);
    RestoreKeepsKeyed(ComboRules(now), if replace then map[] else s.combos, p.combos);
    RestoreKeepsKeyed(KVRules(snapshot), if replace then map[] else s.kv, p.kv);
  }
}
