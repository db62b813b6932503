/** ExportData and ImportData as map transformations (internal/db/backup.go), without the usage tables. */
module Backup {
  import opened Wrappers
  import opened RestoreTables
  import opened BackupModel

  const CURRENT_EXPORT_VERSION := 1

  datatype Payload = Payload(
    version: int,
    settings: Option<Settings>,
    connections: seq<Connection>,
    nodes: seq<Node>,
    pools: seq<ProxyPool>,
    keys: seq<APIKey>,
    combos: seq<Combo>,
    kv: seq<KVEntry>)

  datatype Store = Store(
    settings: Option<Settings>,
    connections: map<string, Connection>,
    nodes: map<string, Node>,
    pools: map<string, ProxyPool>,
    keys: map<string, APIKey>,
    combos: map<string, Combo>,
    kv: map<(string, string), KVEntry>)
  {
    /** Rows under their primary keys, and the two UNIQUE columns. */
    ghost predicate Valid() {
      && Keyed(CONNECTION_ID, connections) && Keyed(NODE_ID, nodes) && Keyed(POOL_ID, pools)
      && Keyed(KEY_ID, keys) && Keyed(COMBO_ID, combos) && Keyed(KV_ID, kv)
      && DistinctKeys(keys) && DistinctNames(combos)
    }
  }

  ghost predicate DistinctKeys(keys: map<string, APIKey>) {
    forall a, b :: a in keys && b in keys && a != b ==> keys[a].key != keys[b].key
  }

  ghost predicate DistinctNames(combos: map<string, Combo>) {
    forall a, b :: a in combos && b in combos && a != b ==> combos[a].name != combos[b].name
  }

  type Strip = string -> Option<string>

  // ---------------------------------------------------------------- specification

  /** p is an export of s: every row of every table once, redacted unless secrets are included. */
  ghost predicate Exports(strip: Strip, s: Store, defaults: Settings, secrets: bool, p: Payload) {
    && p.version == CURRENT_EXPORT_VERSION
    && p.settings == Some(ExportedSettings(s.settings, defaults, secrets))
    && Lists(CONNECTION_ID, s.connections, ConnectionView(secrets), p.connections)
    && Lists(NODE_ID, s.nodes, NodeView(secrets), p.nodes)
    && Lists(POOL_ID, s.pools, PoolView(strip, secrets), p.pools)
    && Lists(KEY_ID, s.keys, KeyView(secrets), p.keys)
    && Lists(COMBO_ID, s.combos, ComboView(), p.combos)
    && Lists(KV_ID, s.kv, KVView(secrets), p.kv)
  }

  /** Without a settings row the defaults are exported. */
  function ExportedSettings(stored: Option<Settings>, defaults: Settings, secrets: bool): Settings {
    var settings := match stored { case Some(row) => row case None => defaults };
    if secrets then settings else settings.(passwordHash := "")
  }

  function Accepts(p: Payload): bool { 0 < p.version <= CURRENT_EXPORT_VERSION }

  /** The tables after the import; None when a UNIQUE column refuses a row. */
  function Imported(strip: Strip, s: Store, snapshot: map<string, string>, p: Payload, replace: bool, now: int): Option<Store> {
    var keys := RestoredTable(KeyRules(s.keys, now), if replace then map[] else s.keys, p.keys);
    var combos := RestoredTable(ComboRules(now), if replace then map[] else s.combos, p.combos);
    var connections := RestoredTable(ConnectionRules(s.connections, now), if replace then map[] else s.connections, p.connections);
    var nodes := RestoredTable(NodeRules(s.nodes, now), if replace then map[] else s.nodes, p.nodes);
    var pools := RestoredTable(PoolRules(strip, s.pools, now), if replace then map[] else s.pools, p.pools);
    var kv := RestoredTable(KVRules(snapshot), if replace then map[] else s.kv, p.kv);
    if keys.None? || combos.None? || connections.None? || nodes.None? || pools.None? || kv.None? then None
    else Some(Store(
      match p.settings { case Some(given) => Some(RestoredSettings(s.settings, given)) case None => s.settings },
      connections.value, nodes.value, pools.value, keys.value, combos.value, kv.value))
  }

  // ---------------------------------------------------------------- the store

  lemma Start<K, R>(rules: Rules<K, R>, start: map<K, R>)
    ensures RestoredTable(rules, start, []) == Some(start)
  {
  }

  /** One more row. */
  lemma Next<K, R>(rules: Rules<K, R>, start: map<K, R>, rows: seq<R>, i: nat, table: map<K, R>)
    requires i < |rows| && RestoredTable(rules, start, rows[..i]) == Some(table)
    ensures RestoredTable(rules, start, rows[..i + 1]) == RestoredRow(rules, table, rows[i])
  {
    assert rows[..i + 1][..|rows[..i + 1]| - 1] == rows[..i];
  }

  lemma ConnectionRow(existing: map<string, Connection>, now: int, table: map<string, Connection>, c: Connection)
    ensures var data := if c.id in existing then RestoredConnectionData(existing[c.id].data, c.data) else c.data;
      var row := c.(data := Marshalled(data), createdAt := Stamp(c.createdAt, now), updatedAt := now);
      RestoredRow(ConnectionRules(existing, now), table, c) == Some(
        if c.id == "" then table
        else table[c.id := if c.id in table then row.(createdAt := table[c.id].createdAt) else row])
  {
    hide RestoredConnectionData, Marshalled, Stamp;
  }

  lemma NodeRow(existing: map<string, Node>, now: int, table: map<string, Node>, n: Node)
    ensures var data := if n.id in existing then n.data.(apiKey := Kept(n.data.apiKey, existing[n.id].data.apiKey)) else n.data;
      var row := n.(data := data, createdAt := Stamp(n.createdAt, now), updatedAt := now);
      RestoredRow(NodeRules(existing, now), table, n) == Some(
        if n.id == "" then table
        else table[n.id := if n.id in table then row.(createdAt := table[n.id].createdAt) else row])
  {
    hide Kept, Stamp;
  }

  lemma PoolRow(strip: Strip, existing: map<string, ProxyPool>, now: int, table: map<string, ProxyPool>, p: ProxyPool)
    ensures var data := if p.id in existing
        then p.data.(proxyURL := RestoredURL(strip, existing[p.id].data.proxyURL, p.data.proxyURL)) else p.data;
      var row := p.(data := data, createdAt := Stamp(p.createdAt, now), updatedAt := now);
      RestoredRow(PoolRules(strip, existing, now), table, p) == Some(
        if p.id == "" then table
        else table[p.id := if p.id in table then row.(createdAt := table[p.id].createdAt) else row])
  {
    hide RestoredURL, Stamp;
  }

  lemma KeyRow(existing: map<string, APIKey>, now: int, table: map<string, APIKey>, k: APIKey)
    ensures var text := RestoredKeyText(existing, k);
      var row := k.(key := text, createdAt := Stamp(k.createdAt, now));
      RestoredRow(KeyRules(existing, now), table, k) ==
        if k.id == "" || text == "" then Some(table)
        else if exists other :: other in table && other != k.id && table[other].key == text then None
        else Some(table[k.id := if k.id in table then row.(createdAt := table[k.id].createdAt) else row])
  {
    hide RestoredKeyText, Stamp;
  }

  lemma ComboRow(now: int, table: map<string, Combo>, c: Combo)
    ensures var row := c.(createdAt := Stamp(c.createdAt, now), updatedAt := now);
      RestoredRow(ComboRules(now), table, c) ==
        if c.id == "" || c.name == "" then Some(table)
        else if exists other :: other in table && other != c.id && table[other].name == c.name then None
        else Some(table[c.id := if c.id in table then row.(createdAt := table[c.id].createdAt) else row])
  {
    hide Stamp;
  }

  lemma KVRow(snapshot: map<string, string>, table: map<(string, string), KVEntry>, e: KVEntry)
    ensures RestoredRow(KVRules(snapshot), table, e) == Some(
      if e.scope == "" || e.key == "" then table
      else table[(e.scope, e.key) := e.(value := RestoredValue(snapshot, e))])
  {
    hide RestoredValue;
  }

  method RestoreConnections(existing: map<string, Connection>, start: map<string, Connection>, rows: seq<Connection>, now: int)
    returns (table: map<string, Connection>)
    ensures RestoredTable(ConnectionRules(existing, now), start, rows) == Some(table)
  {
    hide RestoredTable, RestoredRow, ConnectionRules;
    Start(ConnectionRules(existing, now), start);
    assert rows[..0] == [];
    table := start;
    for i := 0 to |rows|
      invariant RestoredTable(ConnectionRules(existing, now), start, rows[..i]) == Some(table)
    {
      var c := rows[i];
      Next(ConnectionRules(existing, now), start, rows, i, table);
      ConnectionRow(existing, now, table, c);
      if c.id == "" {
        continue;
      }
      var data := c.data;
      if c.id in existing {
        var stored := existing[c.id].data;
        if data.apiKey == "" && stored.apiKey != "" {
          data := data.(apiKey := stored.apiKey);
        }
        if data.accessToken == "" && stored.accessToken != "" {
          data := data.(accessToken := stored.accessToken);
        }
        if data.refreshToken == "" && stored.refreshToken != "" {
          data := data.(refreshToken := stored.refreshToken);
        }
        if data.providerSpecificData.None? && stored.providerSpecificData.Some? {
          data := data.(providerSpecificData := stored.providerSpecificData);
        }
      }
      var created := if c.createdAt == ZERO_TIME then now else c.createdAt;
      var row := c.(data := Marshalled(data), createdAt := created, updatedAt := now);
      if c.id in table {
        row := row.(createdAt := table[c.id].createdAt);
      }
      table := table[c.id := row];
    }
    assert rows[..|rows|] == rows;
  }

  method RestoreNodes(existing: map<string, Node>, start: map<string, Node>, rows: seq<Node>, now: int)
    returns (table: map<string, Node>)
    ensures RestoredTable(NodeRules(existing, now), start, rows) == Some(table)
  {
    hide RestoredTable, RestoredRow, NodeRules;
    Start(NodeRules(existing, now), start);
    assert rows[..0] == [];
    table := start;
    for i := 0 to |rows|
      invariant RestoredTable(NodeRules(existing, now), start, rows[..i]) == Some(table)
    {
      var n := rows[i];
      Next(NodeRules(existing, now), start, rows, i, table);
      NodeRow(existing, now, table, n);
      if n.id == "" {
        continue;
      }
      var data := n.data;
      if n.id in existing {
        if data.apiKey == "" && existing[n.id].data.apiKey != "" {
          data := data.(apiKey := existing[n.id].data.apiKey);
        }
      }
      var created := if n.createdAt == ZERO_TIME then now else n.createdAt;
      var row := n.(data := data, createdAt := created, updatedAt := now);
      if n.id in table {
        row := row.(createdAt := table[n.id].createdAt);
      }
      table := table[n.id := row];
    }
    assert rows[..|rows|] == rows;
  }

  method RestorePools(strip: Strip, existing: map<string, ProxyPool>, start: map<string, ProxyPool>, rows: seq<ProxyPool>, now: int)
    returns (table: map<string, ProxyPool>)
    ensures RestoredTable(PoolRules(strip, existing, now), start, rows) == Some(table)
  {
    hide RestoredTable, RestoredRow, PoolRules;
    Start(PoolRules(strip, existing, now), start);
    assert rows[..0] == [];
    hide RedactProxyURL;
    table := start;
    for i := 0 to |rows|
      invariant RestoredTable(PoolRules(strip, existing, now), start, rows[..i]) == Some(table)
    {
      var p := rows[i];
      Next(PoolRules(strip, existing, now), start, rows, i, table);
      PoolRow(strip, existing, now, table, p);
      if p.id == "" {
        continue;
      }
      var data := p.data;
      if p.id in existing {
        var stored := existing[p.id].data.proxyURL;
        if (data.proxyURL == "" || data.proxyURL == RedactProxyURL(strip, stored)) && stored != "" {
          data := data.(proxyURL := stored);
        }
      }
      var created := if p.createdAt == ZERO_TIME then now else p.createdAt;
      var row := p.(data := data, createdAt := created, updatedAt := now);
      if p.id in table {
        row := row.(createdAt := table[p.id].createdAt);
      }
      table := table[p.id := row];
    }
    assert rows[..|rows|] == rows;
  }

  /** The UNIQUE check of an upsert: some row other than id already holds the value. */
  method FindHolder<R>(table: map<string, R>, value: R -> string, id: string, wanted: string) returns (taken: bool)
    ensures taken <==> exists other :: other in table && other != id && value(table[other]) == wanted
  {
    var left := table.Keys;
    while left != {}
      invariant left <= table.Keys
      invariant forall other :: other in table.Keys - left && other != id ==> value(table[other]) != wanted
      decreases |left|
    {
      var other :| other in left;
      if other != id && value(table[other]) == wanted {
        return true;
      }
      left := left - {other};
    }
    return false;
  }

  method RestoreKeys(existing: map<string, APIKey>, start: map<string, APIKey>, rows: seq<APIKey>, now: int)
    returns (ok: bool, table: map<string, APIKey>)
    ensures RestoredTable(KeyRules(existing, now), start, rows) == if ok then Some(table) else None
  {
    hide RestoredTable, RestoredRow, KeyRules;
    Start(KeyRules(existing, now), start);
    assert rows[..0] == [];
    table := start;
    for i := 0 to |rows|
      invariant RestoredTable(KeyRules(existing, now), start, rows[..i]) == Some(table)
    {
      var k := rows[i];
      Next(KeyRules(existing, now), start, rows, i, table);
      KeyRow(existing, now, table, k);
      if k.id == "" {
        continue;
      }
      var text := k.key;
      if text == "" {
        if k.id in existing && existing[k.id].key != "" {
          text := existing[k.id].key;
        } else {
          continue;
        }
      }
      var created := if k.createdAt == ZERO_TIME then now else k.createdAt;
      var row := k.(key := text, createdAt := created);
      var taken := FindHolder(table, (other: APIKey) => other.key, k.id, text);
      if taken {
        RefusedForGood(KeyRules(existing, now), start, rows, i + 1);
        return false, table;
      }
      if k.id in table {
        row := row.(createdAt := table[k.id].createdAt);
      }
      table := table[k.id := row];
    }
    assert rows[..|rows|] == rows;
    ok := true;
  }

  /** A refused row fails the whole table. */
  lemma {:induction false} RefusedForGood<K, R>(rules: Rules<K, R>, start: map<K, R>, rows: seq<R>, i: nat)
    requires i <= |rows| && RestoredTable(rules, start, rows[..i]).None?
    ensures RestoredTable(rules, start, rows).None?
    decreases |rows|
  {
    if i < |rows| {
      assert rows[..|rows| - 1][..i] == rows[..i];
      RefusedForGood(rules, start, rows[..|rows| - 1], i);
    } else {
      assert rows[..i] == rows;
    }
  }

  method RestoreCombos(start: map<string, Combo>, rows: seq<Combo>, now: int)
    returns (ok: bool, table: map<string, Combo>)
    ensures RestoredTable(ComboRules(now), start, rows) == if ok then Some(table) else None
  {
    hide RestoredTable, RestoredRow, ComboRules;
    Start(ComboRules(now), start);
    assert rows[..0] == [];
    table := start;
    for i := 0 to |rows|
      invariant RestoredTable(ComboRules(now), start, rows[..i]) == Some(table)
    {
      var c := rows[i];
      Next(ComboRules(now), start, rows, i, table);
      ComboRow(now, table, c);
      if c.id == "" || c.name == "" {
        continue;
      }
      var created := if c.createdAt == ZERO_TIME then now else c.createdAt;
      var row := c.(createdAt := created, updatedAt := now);
      var taken := FindHolder(table, (other: Combo) => other.name, c.id, c.name);
      if taken {
        RefusedForGood(ComboRules(now), start, rows, i + 1);
        return false, table;
      }
      if c.id in table {
        row := row.(createdAt := table[c.id].createdAt);
      }
      table := table[c.id := row];
    }
    assert rows[..|rows|] == rows;
    ok := true;
  }

  method RestoreKV(snapshot: map<string, string>, start: map<(string, string), KVEntry>, rows: seq<KVEntry>)
    returns (table: map<(string, string), KVEntry>)
    ensures RestoredTable(KVRules(snapshot), start, rows) == Some(table)
  {
    hide RestoredTable, RestoredRow, KVRules;
    Start(KVRules(snapshot), start);
    assert rows[..0] == [];
    hide IsSecretKVKey, Join;
    table := start;
    for i := 0 to |rows|
      invariant RestoredTable(KVRules(snapshot), start, rows[..i]) == Some(table)
    {
      var e := rows[i];
      Next(KVRules(snapshot), start, rows, i, table);
      KVRow(snapshot, table, e);
      if e.scope == "" || e.key == "" {
        continue;
      }
      var value := e.value;
      if value == "" && IsSecretKVKey(e.scope, e.key) {
        var joined := Join(e.scope, e.key);
        if joined in snapshot && snapshot[joined] != "" {
          value := snapshot[joined];
        }
      }
      table := table[(e.scope, e.key) := e.(value := value)];
    }
    assert rows[..|rows|] == rows;
  }

  // ---------------------------------------------------------------- listing and redacting

  lemma Viewed<K(!new), R>(id: R -> K, table: map<K, R>, view: R -> R, rows: seq<R>, shown: seq<R>)
    requires Lists(id, table, r => r, rows)
    requires |shown| == |rows| && forall i :: 0 <= i < |rows| ==> shown[i] == view(rows[i]) && id(shown[i]) == id(rows[i])
    ensures Lists(id, table, view, shown)
  {
    forall k | k in table ensures Has(id, shown, k) {
      assert Has(id, rows, k);
      var i :| 0 <= i < |rows| && id(rows[i]) == k;
      assert id(shown[i]) == k;
    }
  }

  method ExportConnections(table: map<string, Connection>, secrets: bool) returns (shown: seq<Connection>)
    requires Keyed(CONNECTION_ID, table)
    ensures Lists(CONNECTION_ID, table, ConnectionView(secrets), shown)
  {
    var rows := ListRows(CONNECTION_ID, table);
    shown := [];
    for i := 0 to |rows|
      invariant |shown| == i && forall j :: 0 <= j < i ==> shown[j] == ConnectionView(secrets)(rows[j])
    {
      var c := rows[i];
      if !secrets {
        c := c.(data := c.data.(apiKey := "", accessToken := "", refreshToken := "", providerSpecificData := None));
      }
      shown := shown + [c];
    }
    Viewed(CONNECTION_ID, table, ConnectionView(secrets), rows, shown);
  }

  method ExportNodes(table: map<string, Node>, secrets: bool) returns (shown: seq<Node>)
    requires Keyed(NODE_ID, table)
    ensures Lists(NODE_ID, table, NodeView(secrets), shown)
  {
    var rows := ListRows(NODE_ID, table);
    shown := [];
    for i := 0 to |rows|
      invariant |shown| == i && forall j :: 0 <= j < i ==> shown[j] == NodeView(secrets)(rows[j])
    {
      var n := rows[i];
      if !secrets {
        n := n.(data := n.data.(apiKey := ""));
      }
      shown := shown + [n];
    }
    Viewed(NODE_ID, table, NodeView(secrets), rows, shown);
  }

  method ExportPools(strip: Strip, table: map<string, ProxyPool>, secrets: bool) returns (shown: seq<ProxyPool>)
    requires Keyed(POOL_ID, table)
    ensures Lists(POOL_ID, table, PoolView(strip, secrets), shown)
  {
    hide RedactProxyURL;
    var rows := ListRows(POOL_ID, table);
    shown := [];
    for i := 0 to |rows|
      invariant |shown| == i && forall j :: 0 <= j < i ==> shown[j] == PoolView(strip, secrets)(rows[j])
    {
      var p := rows[i];
      if !secrets {
        p := p.(data := p.data.(proxyURL := RedactProxyURL(strip, p.data.proxyURL)));
      }
      shown := shown + [p];
    }
    Viewed(POOL_ID, table, PoolView(strip, secrets), rows, shown);
  }

  method ExportKeys(table: map<string, APIKey>, secrets: bool) returns (shown: seq<APIKey>)
    requires Keyed(KEY_ID, table)
    ensures Lists(KEY_ID, table, KeyView(secrets), shown)
  {
    var rows := ListRows(KEY_ID, table);
    shown := [];
    for i := 0 to |rows|
      invariant |shown| == i && forall j :: 0 <= j < i ==> shown[j] == KeyView(secrets)(rows[j])
    {
      var k := rows[i];
      if !secrets {
        k := k.(key := "");
      }
      shown := shown + [k];
    }
    Viewed(KEY_ID, table, KeyView(secrets), rows, shown);
  }

  method ExportKV(table: map<(string, string), KVEntry>, secrets: bool) returns (shown: seq<KVEntry>)
    requires Keyed(KV_ID, table)
    ensures Lists(KV_ID, table, KVView(secrets), shown)
  {
    hide IsSecretKVKey;
    var rows := ListRows(KV_ID, table);
    shown := [];
    for i := 0 to |rows|
      invariant |shown| == i && forall j :: 0 <= j < i ==> shown[j] == KVView(secrets)(rows[j])
    {
      var entry := rows[i];
      if !secrets && IsSecretKVKey(entry.scope, entry.key) {
        entry := entry.(value := "");
      }
      shown := shown + [entry];
    }
    Viewed(KV_ID, table, KVView(secrets), rows, shown);
  }

  /** existingKV: the stored entries under their joined texts. */
  method Snapshot(kv: map<(string, string), KVEntry>) returns (snapshot: map<string, string>)
    requires Keyed(KV_ID, kv)
    ensures IsSnapshot(kv, snapshot)
  {
    hide Join;
    var rows := ListRows(KV_ID, kv);
    snapshot := map[];
    for i := 0 to |rows|
      invariant forall j :: 0 <= j < i ==> Join(rows[j].scope, rows[j].key) in snapshot
      invariant forall t :: t in snapshot ==> exists j :: 0 <= j < i && Join(rows[j].scope, rows[j].key) == t && rows[j].value == snapshot[t]
    {
      var entry := rows[i];
      snapshot := snapshot[Join(entry.scope, entry.key) := entry.value];
    }
    ListedSnapshot(kv, rows, snapshot);
  }

  lemma ListedSnapshot(kv: map<(string, string), KVEntry>, rows: seq<KVEntry>, snapshot: map<string, string>)
    requires Lists(KV_ID, kv, r => r, rows)
    requires forall j :: 0 <= j < |rows| ==> Join(rows[j].scope, rows[j].key) in snapshot
    requires forall t :: t in snapshot ==> exists j :: 0 <= j < |rows| && Join(rows[j].scope, rows[j].key) == t && rows[j].value == snapshot[t]
    ensures IsSnapshot(kv, snapshot)
  {
    hide Join;
    forall k | k in kv ensures Join(k.0, k.1) in snapshot {
      assert Has(KV_ID, rows, k);
      var i :| 0 <= i < |rows| && KV_ID(rows[i]) == k;
      assert Join(rows[i].scope, rows[i].key) in snapshot;
    }
    forall t | t in snapshot ensures exists k :: k in kv && Join(k.0, k.1) == t && snapshot[t] == kv[k].value {
      var j :| 0 <= j < |rows| && Join(rows[j].scope, rows[j].key) == t && rows[j].value == snapshot[t];
      assert KV_ID(rows[j]) in kv;
    }
  }

  /** An import is its six tables, if none is refused. */
  lemma ImportedTables(strip: Strip, s: Store, snapshot: map<string, string>, p: Payload, replace: bool, now: int)
    requires RestoredTable(ConnectionRules(s.connections, now), if replace then map[] else s.connections, p.connections).Some?
    requires RestoredTable(NodeRules(s.nodes, now), if replace then map[] else s.nodes, p.nodes).Some?
    requires RestoredTable(PoolRules(strip, s.pools, now), if replace then map[] else s.pools, p.pools).Some?
    requires RestoredTable(KeyRules(s.keys, now), if replace then map[] else s.keys, p.keys).Some?
    requires RestoredTable(ComboRules(now), if replace then map[] else s.combos, p.combos).Some?
    requires RestoredTable(KVRules(snapshot), if replace then map[] else s.kv, p.kv).Some?
    ensures var t := Imported(strip, s, snapshot, p, replace, now);
      && t.Some?
      && Some(t.value.connections) ==
           RestoredTable(ConnectionRules(s.connections, now), if replace then map[] else s.connections, p.connections)
      && Some(t.value.nodes) == RestoredTable(NodeRules(s.nodes, now), if replace then map[] else s.nodes, p.nodes)
      && Some(t.value.pools) == RestoredTable(PoolRules(strip, s.pools, now), if replace then map[] else s.pools, p.pools)
      && Some(t.value.keys) == RestoredTable(KeyRules(s.keys, now), if replace then map[] else s.keys, p.keys)
      && Some(t.value.combos) == RestoredTable(ComboRules(now), if replace then map[] else s.combos, p.combos)
      && Some(t.value.kv) == RestoredTable(KVRules(snapshot), if replace then map[] else s.kv, p.kv)
      && t.value.settings == (if p.settings.Some? then Some(RestoredSettings(s.settings, p.settings.value)) else s.settings)
  {
    hide RestoredTable, ConnectionRules, NodeRules, PoolRules, KeyRules, ComboRules, KVRules, RestoredSettings;
  }

  lemma RefusedImport(strip: Strip, s: Store, snapshot: map<string, string>, p: Payload, replace: bool, now: int)
    requires RestoredTable(KeyRules(s.keys, now), if replace then map[] else s.keys, p.keys).None?
          || RestoredTable(ComboRules(now), if replace then map[] else s.combos, p.combos).None?
    ensures Imported(strip, s, snapshot, p, replace, now).None?
  {
    hide RestoredTable, ConnectionRules, NodeRules, PoolRules, KeyRules, ComboRules, KVRules, RestoredSettings;
  }

  class BackupStore {
    const strip: Strip
    const defaults: Settings
    var settings: Option<Settings>
    var connections: map<string, Connection>
    var nodes: map<string, Node>
    var pools: map<string, ProxyPool>
    var keys: map<string, APIKey>
    var combos: map<string, Combo>
    var kv: map<(string, string), KVEntry>

    ghost function View(): Store
      reads this
    {
      Store(settings, connections, nodes, pools, keys, combos, kv)
    }

    constructor (strip: Strip, defaults: Settings)
      ensures View() == Store(None, map[], map[], map[], map[], map[], map[]) && View().Valid()
      ensures this.strip == strip && this.defaults == defaults
    {
      this.strip, this.defaults, settings := strip, defaults, None;
      connections, nodes, pools, keys, combos, kv := map[], map[], map[], map[], map[], map[];
    }

    method ExportData(includeSecrets: bool) returns (payload: Payload)
      requires View().Valid()
      ensures Exports(strip, View(), defaults, includeSecrets, payload)
    {
      hide Lists, Keyed;
      var copy := if settings.None? then defaults else settings.value;
      if !includeSecrets {
        copy := copy.(passwordHash := "");
      }
      var cs := ExportConnections(connections, includeSecrets);
      var ns := ExportNodes(nodes, includeSecrets);
      var ps := ExportPools(strip, pools, includeSecrets);
      var ks := ExportKeys(keys, includeSecrets);
      var listed := ListRows(COMBO_ID, combos);
      CombosAsTheyAre(combos, listed);
      var es := ExportKV(kv, includeSecrets);
      payload := Payload(CURRENT_EXPORT_VERSION, Some(copy), cs, ns, ps, ks, listed, es);
    }

    /** All or nothing; an import that is refused leaves every table as it was. */
    method ImportData(payload: Option<Payload>, mode: string, now: int) returns (ok: bool, ghost snapshot: map<string, string>)
      requires View().Valid()
      modifies this
      ensures IsSnapshot(old(kv), snapshot)
      ensures ok ==> payload.Some? && payload.value.version == 1
      ensures ok <==> payload.Some? && Accepts(payload.value)
                      && Imported(strip, old(View()), snapshot, payload.value, mode == "replace", now).Some?
      ensures ok ==> Some(View()) == Imported(strip, old(View()), snapshot, payload.value, mode == "replace", now)
      ensures !ok ==> View() == old(View())
    {
      hide Keyed, IsSnapshot, RestoredTable, ConnectionRules, NodeRules, PoolRules, KeyRules, ComboRules, KVRules;
      hide RestoredSettings, Imported;
      var existingKV := Snapshot(kv);
      snapshot := existingKV;
      if payload.None? {
        return false, snapshot;
      }
      var p := payload.value;
      if p.version <= 0 || p.version > CURRENT_EXPORT_VERSION {
        return false, snapshot;
      }
      var replace := mode == "replace";
      var cs := RestoreConnections(connections, if replace then map[] else connections, p.connections, now);
      var ns := RestoreNodes(nodes, if replace then map[] else nodes, p.nodes, now);
      var ps := RestorePools(strip, pools, if replace then map[] else pools, p.pools, now);
      var keysOk, ks := RestoreKeys(keys, if replace then map[] else keys, p.keys, now);
      if !keysOk {
        RefusedImport(strip, View(), existingKV, p, replace, now);
        return false, snapshot;
      }
      var combosOk, cbs := RestoreCombos(if replace then map[] else combos, p.combos, now);
      if !combosOk {
        RefusedImport(strip, View(), existingKV, p, replace, now);
        return false, snapshot;
      }
      var es := RestoreKV(existingKV, if replace then map[] else kv, p.kv);
      ImportedTables(strip, View(), existingKV, p, replace, now);
      if p.settings.Some? {
        var st := p.settings.value;
        SettingsKept(settings, st);
        if st.passwordHash == "" && settings.Some? && settings.value.passwordHash != "" {
          st := st.(passwordHash := settings.value.passwordHash);
        }
        settings := Some(st);
      }
      connections, nodes, pools, keys, combos, kv := cs, ns, ps, ks, cbs, es;
      ok := true;
    }
  }

  lemma CombosAsTheyAre(table: map<string, Combo>, rows: seq<Combo>)
    requires Lists(COMBO_ID, table, r => r, rows)
    ensures Lists(COMBO_ID, table, ComboView(), rows)
  {
    Viewed(COMBO_ID, table, ComboView(), rows, rows);
  }

  lemma SettingsKept(stored: Option<Settings>, given: Settings)
    ensures RestoredSettings(stored, given) ==
      if given.passwordHash == "" && stored.Some? && stored.value.passwordHash != ""
      then given.(passwordHash := stored.value.passwordHash) else given
  {
  }
}
