/**
 * What an accepted import stores, column by column, and what an export shows (internal/db/backup.go):
 * for each table the payload row that decides, whose values win, and which creation time stays.
 */
module BackupRestored {
  import opened Wrappers
  import opened RestoreTables
  import opened BackupModel
  import opened Backup
  import opened BackupCredentials
  import opened TextSearch

  // ---------------------------------------------------------------- any table

  /** A column that updates leave alone keeps its stored value, or else that of the first row written. */
  lemma {:induction false} FirstWrite<K, R(!new)>(
    rules: Rules<K, R>, table: map<K, R>, rows: seq<R>, id: K, column: R -> int) returns (first: int)
    requires forall a, b :: column(rules.updated(a, b)) == column(a)
    requires RestoredTable(rules, table, rows).Some?
    ensures -1 <= first < |rows|
    ensures first >= 0 ==> Writes(rules, rows[first], id)
    ensures forall i :: 0 <= i < |rows| && (first < 0 || i < first) ==> !Writes(rules, rows[i], id)
    ensures var t := RestoredTable(rules, table, rows).value;
      && (id in t <==> id in table || first >= 0)
      && (id in t ==> column(t[id]) == if id in table then column(table[id]) else column(rules.restored(rows[first])))
  {
    first := -1;
    if rows != [] {
      var n := |rows| - 1;
      first := FirstWrite(rules, table, rows[..n], id, column);
      if first < 0 && Writes(rules, rows[n], id) { first := n; }
    }
  }

  /** The value of the UNIQUE column under an id: that of the last row written, else the stored one. */
  function Held<K(==), R>(rules: Rules<K, R>, table: map<K, R>, rows: seq<R>, id: K): Option<string> {
    if rows == [] then if id in table then rules.unique(table[id]) else None
    else if Writes(rules, rows[|rows| - 1], id) then rules.unique(rules.restored(rows[|rows| - 1]))
    else Held(rules, table, rows[..|rows| - 1], id)
  }

  lemma {:induction false} HeldIsStored<K, R(!new)>(rules: Rules<K, R>, table: map<K, R>, rows: seq<R>, id: K)
    requires UpdatesUnique(rules) && RestoredTable(rules, table, rows).Some?
    ensures var t := RestoredTable(rules, table, rows).value;
      Held(rules, table, rows, id) == if id in t then rules.unique(t[id]) else None
  {
    if rows != [] { HeldIsStored(rules, table, rows[..|rows| - 1], id); }
  }

  /** Row j wants a value that is held under another id when its turn comes. */
  ghost predicate Conflict<K(!new), R>(rules: Rules<K, R>, table: map<K, R>, rows: seq<R>, j: int) {
    && 0 <= j < |rows| && !rules.skips(rows[j]) && rules.unique(rules.restored(rows[j])).Some?
    && exists other :: other != rules.id(rows[j]) &&
         Held(rules, table, rows[..j], other) == rules.unique(rules.restored(rows[j]))
  }

  lemma {:induction false} RefusedIff<K(!new), R(!new)>(rules: Rules<K, R>, table: map<K, R>, rows: seq<R>)
    requires UpdatesUnique(rules)
    ensures RestoredTable(rules, table, rows).None? <==> exists j :: Conflict(rules, table, rows, j)
  {
    if rows != [] {
      var n := |rows| - 1;
      var front := rows[..n];
      RefusedIff(rules, table, front);
      forall j | 0 <= j < n ensures Conflict(rules, table, front, j) == Conflict(rules, table, rows, j) {
        assert front[..j] == rows[..j];
      }
      if RestoredTable(rules, table, front).Some? {
        LastConflicts(rules, table, rows);
      } else {
        var j :| Conflict(rules, table, front, j);
        assert Conflict(rules, table, rows, j);
      }
    }
  }

  lemma LastConflicts<K(!new), R(!new)>(rules: Rules<K, R>, table: map<K, R>, rows: seq<R>)
    requires UpdatesUnique(rules) && rows != []
    requires RestoredTable(rules, table, rows[..|rows| - 1]).Some?
    ensures RestoredTable(rules, table, rows).None? <==> Conflict(rules, table, rows, |rows| - 1)
  {
    var t := RestoredTable(rules, table, rows[..|rows| - 1]).value;
    forall other ensures Held(rules, table, rows[..|rows| - 1], other) == if other in t then rules.unique(t[other]) else None {
      HeldIsStored(rules, table, rows[..|rows| - 1], other);
    }
    var front, row := rows[..|rows| - 1], rows[|rows| - 1];
    var id, restored := rules.id(row), rules.restored(row);
    assert RestoredTable(rules, table, rows) == RestoredRow(rules, t, row);
    if !rules.skips(row) && Clashes(rules, t, id, restored) {
      var other :| other in t && other != id && rules.unique(t[other]) == rules.unique(restored);
      assert Held(rules, table, front, other) == rules.unique(t[other]);
      assert Conflict(rules, table, rows, |rows| - 1);
    }
    if Conflict(rules, table, rows, |rows| - 1) {
      var other :| other != id && Held(rules, table, rows[..|rows| - 1], other) == rules.unique(restored);
      assert other in t && rules.unique(t[other]) == rules.unique(restored);
    }
  }

  // ---------------------------------------------------------------- who wins

  /** last is the payload row that decides the row under id, first the first one that names it. */
  ghost predicate Span(named: int -> bool, size: nat, first: int, last: int) {
    && -1 <= first <= last < size && (first < 0 <==> last < 0)
    && (last >= 0 ==> named(first) && named(last))
    && (forall i :: 0 <= i < size && (i < first || last < i || last < 0) ==> !named(i))
  }

  /** The creation time of a row that is stored already stays in a merge; a new row gets a time if it has none. */
  predicate Dated(merged: Option<int>, given: int, now: int, after: int) {
    after == if merged.Some? then merged.value else if given == 0 then now else given
  }

  lemma ConnectionRestored(strip: Strip, s: Store, snapshot: map<string, string>, p: Payload, replace: bool, now: int, id: string)
    returns (first: int, last: int)
    requires Imported(strip, s, snapshot, p, replace, now).Some?
    ensures Span(i => 0 <= i < |p.connections| && id != "" && p.connections[i].id == id, |p.connections|, first, last)
    ensures var t := Imported(strip, s, snapshot, p, replace, now).value.connections;
      && (last < 0 ==> (id in t <==> id in s.connections && !replace) && (id in t ==> t[id] == s.connections[id]))
      && (last >= 0 ==> id in t && ConnectionStored(
            if id in s.connections then Some(s.connections[id]) else None, p.connections[first], p.connections[last], replace, now, t[id]))
  {
    hide RestoredTable, NodeRules, PoolRules, KeyRules, ComboRules, KVRules, ConnectionStored;
    var rules, start := ConnectionRules(s.connections, now), if replace then map[] else s.connections;
    last := LastWrite(rules, start, p.connections, id);
    first := FirstWrite(rules, start, p.connections, id, (c: Connection) => c.createdAt);
    if last >= 0 {
      var t := Imported(strip, s, snapshot, p, replace, now).value.connections;
      ConnectionColumns(s.connections, start, p.connections[first], p.connections[last], replace, now, id, t[id]);
    }
  }

  ghost predicate ConnectionStored(stored: Option<Connection>, first: Connection, given: Connection, replace: bool, now: int, after: Connection) {
    var was, d := if stored.Some? then Some(stored.value.data) else None, given.data;
    && after == given.(data := after.data, createdAt := after.createdAt, updatedAt := now)
    && Dated(if stored.Some? && !replace then Some(stored.value.createdAt) else None, first.createdAt, now, after.createdAt)
    && after.data.rest == d.rest
    && CredentialsWin(d, was, after.data)
    && SpecificWins(d.providerSpecificData, if was.Some? then was.value.providerSpecificData else None, after.data.providerSpecificData)
  }

  /** A given map wins, even an empty one, which is stored as none; without one the stored map stays. */
  predicate SpecificWins(given: Option<map<string, string>>, stored: Option<map<string, string>>, after: Option<map<string, string>>) {
    var winner := if given.Some? then given else stored;
    after == if winner == Some(map[]) then None else winner
  }

  lemma ConnectionColumns(existing: map<string, Connection>, start: map<string, Connection>, first: Connection, given: Connection,
                          replace: bool, now: int, id: string, after: Connection)
    requires start == if replace then map[] else existing
    requires first.id == given.id == id && Holds(ConnectionRules(existing, now), after, ConnectionRules(existing, now).restored(given))
    requires after.createdAt == if id in start then start[id].createdAt else ConnectionRules(existing, now).restored(first).createdAt
    ensures ConnectionStored(if id in existing then Some(existing[id]) else None, first, given, replace, now, after)
  {
  }

  // ---------------------------------------------------------------- nodes and pools

  lemma NodeRestored(strip: Strip, s: Store, snapshot: map<string, string>, p: Payload, replace: bool, now: int, id: string)
    returns (first: int, last: int)
    requires Imported(strip, s, snapshot, p, replace, now).Some?
    ensures Span(i => 0 <= i < |p.nodes| && id != "" && p.nodes[i].id == id, |p.nodes|, first, last)
    ensures var t := Imported(strip, s, snapshot, p, replace, now).value.nodes;
      && (last < 0 ==> (id in t <==> id in s.nodes && !replace) && (id in t ==> t[id] == s.nodes[id]))
      && (last >= 0 ==> id in t && NodeStored(
            if id in s.nodes then Some(s.nodes[id]) else None, p.nodes[first], p.nodes[last], replace, now, t[id]))
  {
    hide RestoredTable, ConnectionRules, PoolRules, KeyRules, ComboRules, KVRules, NodeStored;
    var rules, start := NodeRules(s.nodes, now), if replace then map[] else s.nodes;
    last := LastWrite(rules, start, p.nodes, id);
    first := FirstWrite(rules, start, p.nodes, id, (n: Node) => n.createdAt);
    if last >= 0 {
      var t := Imported(strip, s, snapshot, p, replace, now).value.nodes;
      NodeColumns(s.nodes, start, p.nodes[first], p.nodes[last], replace, now, id, t[id]);
    }
  }

  ghost predicate NodeStored(stored: Option<Node>, first: Node, given: Node, replace: bool, now: int, after: Node) {
    && after == given.(data := given.data.(apiKey := after.data.apiKey), createdAt := after.createdAt, updatedAt := now)
    && Dated(if stored.Some? && !replace then Some(stored.value.createdAt) else None, first.createdAt, now, after.createdAt)
    && Wins(given.data.apiKey, if stored.Some? then Some(stored.value.data.apiKey) else None, after.data.apiKey)
  }

  lemma NodeColumns(existing: map<string, Node>, start: map<string, Node>, first: Node, given: Node,
                    replace: bool, now: int, id: string, after: Node)
    requires start == if replace then map[] else existing
    requires first.id == given.id == id && Holds(NodeRules(existing, now), after, NodeRules(existing, now).restored(given))
    requires after.createdAt == if id in start then start[id].createdAt else NodeRules(existing, now).restored(first).createdAt
    ensures NodeStored(if id in existing then Some(existing[id]) else None, first, given, replace, now, after)
  {
  }

  lemma PoolRestored(strip: Strip, s: Store, snapshot: map<string, string>, p: Payload, replace: bool, now: int, id: string)
    returns (first: int, last: int)
    requires Imported(strip, s, snapshot, p, replace, now).Some?
    ensures Span(i => 0 <= i < |p.pools| && id != "" && p.pools[i].id == id, |p.pools|, first, last)
    ensures var t := Imported(strip, s, snapshot, p, replace, now).value.pools;
      && (last < 0 ==> (id in t <==> id in s.pools && !replace) && (id in t ==> t[id] == s.pools[id]))
      && (last >= 0 ==> id in t && PoolStored(
            strip, if id in s.pools then Some(s.pools[id]) else None, p.pools[first], p.pools[last], replace, now, t[id]))
  {
    hide RestoredTable, ConnectionRules, NodeRules, KeyRules, ComboRules, KVRules, PoolStored;
    var rules, start := PoolRules(strip, s.pools, now), if replace then map[] else s.pools;
    last := LastWrite(rules, start, p.pools, id);
    first := FirstWrite(rules, start, p.pools, id, (pool: ProxyPool) => pool.createdAt);
    if last >= 0 {
      var t := Imported(strip, s, snapshot, p, replace, now).value.pools;
      PoolColumns(strip, s.pools, start, p.pools[first], p.pools[last], replace, now, id, t[id]);
    }
  }

  /** What a URL shows without its user info: nothing, if it cannot be parsed and might hold some. */
  predicate Redacts(strip: Strip, raw: string, shown: string) {
    && (raw == "" ==> shown == "")
    && (raw != "" && strip(raw).Some? ==> shown == strip(raw).value)
    && (raw != "" && strip(raw).None? ==> shown == if exists i :: 0 <= i < |raw| && raw[i] == '@' then "" else raw)
  }

  /** A URL that is neither missing nor what the stored one shows wins; any other gives way to the stored one. */
  ghost predicate PoolStored(strip: Strip, stored: Option<ProxyPool>, first: ProxyPool, given: ProxyPool, replace: bool, now: int, after: ProxyPool) {
    var url := given.data.proxyURL;
    && after == given.(data := given.data.(proxyURL := after.data.proxyURL), createdAt := after.createdAt, updatedAt := now)
    && Dated(if stored.Some? && !replace then Some(stored.value.createdAt) else None, first.createdAt, now, after.createdAt)
    && (stored.None? ==> after.data.proxyURL == url)
    && (stored.Some? ==> var was := stored.value.data.proxyURL;
          after.data.proxyURL == if was != "" && (url == "" || Redacts(strip, was, url)) then was else url)
  }

  lemma PoolColumns(strip: Strip, existing: map<string, ProxyPool>, start: map<string, ProxyPool>, first: ProxyPool, given: ProxyPool,
                    replace: bool, now: int, id: string, after: ProxyPool)
    requires start == if replace then map[] else existing
    requires first.id == given.id == id
    requires Holds(PoolRules(strip, existing, now), after, PoolRules(strip, existing, now).restored(given))
    requires after.createdAt == if id in start then start[id].createdAt else PoolRules(strip, existing, now).restored(first).createdAt
    ensures PoolStored(strip, if id in existing then Some(existing[id]) else None, first, given, replace, now, after)
  {
    hide RedactProxyURL, Redacts;
    if id in existing { RedactionIsUnique(strip, existing[id].data.proxyURL, given.data.proxyURL); }
  }

  lemma RedactionIsUnique(strip: Strip, raw: string, shown: string)
    ensures Redacts(strip, raw, shown) <==> shown == RedactProxyURL(strip, raw)
  {
  }

  // ---------------------------------------------------------------- API keys and combos

  /** A row without a key text counts only if there is a stored text for its id. */
  predicate NamesKey(s: Store, k: APIKey, id: string) {
    id != "" && k.id == id && (k.key != "" || (id in s.keys && s.keys[id].key != ""))
  }

  lemma KeyRestored(strip: Strip, s: Store, snapshot: map<string, string>, p: Payload, replace: bool, now: int, id: string)
    returns (first: int, last: int)
    requires Imported(strip, s, snapshot, p, replace, now).Some?
    ensures Span(i => 0 <= i < |p.keys| && NamesKey(s, p.keys[i], id), |p.keys|, first, last)
    ensures var t := Imported(strip, s, snapshot, p, replace, now).value.keys;
      && (last < 0 ==> (id in t <==> id in s.keys && !replace) && (id in t ==> t[id] == s.keys[id]))
      && (last >= 0 ==> id in t && KeyStored(
            if id in s.keys then Some(s.keys[id]) else None, p.keys[first], p.keys[last], replace, now, t[id]))
  {
    hide RestoredTable, ConnectionRules, NodeRules, PoolRules, ComboRules, KVRules, KeyStored;
    var rules, start := KeyRules(s.keys, now), if replace then map[] else s.keys;
    last := LastWrite(rules, start, p.keys, id);
    first := FirstWrite(rules, start, p.keys, id, (k: APIKey) => k.createdAt);
    if last >= 0 {
      var t := Imported(strip, s, snapshot, p, replace, now).value.keys;
      KeyColumns(s.keys, start, p.keys[first], p.keys[last], replace, now, id, t[id]);
    }
  }

  ghost predicate KeyStored(stored: Option<APIKey>, first: APIKey, given: APIKey, replace: bool, now: int, after: APIKey) {
    && after == given.(key := after.key, createdAt := after.createdAt)
    && Dated(if stored.Some? && !replace then Some(stored.value.createdAt) else None, first.createdAt, now, after.createdAt)
    && after.key != ""
    && Wins(given.key, if stored.Some? then Some(stored.value.key) else None, after.key)
  }

  lemma KeyColumns(existing: map<string, APIKey>, start: map<string, APIKey>, first: APIKey, given: APIKey,
                   replace: bool, now: int, id: string, after: APIKey)
    requires start == if replace then map[] else existing
    requires first.id == given.id == id && (given.key != "" || (id in existing && existing[id].key != ""))
    requires Holds(KeyRules(existing, now), after, KeyRules(existing, now).restored(given))
    requires after.createdAt == if id in start then start[id].createdAt else KeyRules(existing, now).restored(first).createdAt
    ensures KeyStored(if id in existing then Some(existing[id]) else None, first, given, replace, now, after)
  {
  }

  lemma ComboRestored(strip: Strip, s: Store, snapshot: map<string, string>, p: Payload, replace: bool, now: int, id: string)
    returns (first: int, last: int)
    requires Imported(strip, s, snapshot, p, replace, now).Some?
    ensures Span(i => 0 <= i < |p.combos| && id != "" && p.combos[i].id == id && p.combos[i].name != "", |p.combos|, first, last)
    ensures var t := Imported(strip, s, snapshot, p, replace, now).value.combos;
      && (last < 0 ==> (id in t <==> id in s.combos && !replace) && (id in t ==> t[id] == s.combos[id]))
      && (last >= 0 ==>
            && id in t && t[id] == p.combos[last].(createdAt := t[id].createdAt, updatedAt := now)
            && Dated(if id in s.combos && !replace then Some(s.combos[id].createdAt) else None, p.combos[first].createdAt, now, t[id].createdAt))
  {
    hide RestoredTable, ConnectionRules, NodeRules, PoolRules, KeyRules, KVRules;
    var rules, start := ComboRules(now), if replace then map[] else s.combos;
    last := LastWrite(rules, start, p.combos, id);
    first := FirstWrite(rules, start, p.combos, id, (c: Combo) => c.createdAt);
  }

  // ---------------------------------------------------------------- settings and key-value entries

  lemma SettingsRestoredFrom(strip: Strip, s: Store, snapshot: map<string, string>, p: Payload, replace: bool, now: int)
    requires Imported(strip, s, snapshot, p, replace, now).Some?
    ensures var after := Imported(strip, s, snapshot, p, replace, now).value.settings;
      && (p.settings.None? ==> after == s.settings)
      && (p.settings.Some? ==>
            && after.Some? && after.value.rest == p.settings.value.rest
            && Wins(p.settings.value.passwordHash, if s.settings.Some? then Some(s.settings.value.passwordHash) else None,
                    after.value.passwordHash))
  {
    hide RestoredTable, ConnectionRules, NodeRules, PoolRules, KeyRules, ComboRules, KVRules;
  }

  /** The names whose values count as secret. */
  ghost predicate LooksSecret(scope: string, key: string) {
    var name := scope + ":" + key;
    || Mentions(name, "secret") || Mentions(name, "token") || Mentions(name, "password")
    || Mentions(name, "credential") || Mentions(name, "api_key") || Mentions(name, "apikey")
    || Mentions(name, "private_key")
  }

  /** A blank value is filled in only under such a name, with what the snapshot holds for its joined text. */
  lemma KVRestored(strip: Strip, s: Store, snapshot: map<string, string>, p: Payload, replace: bool, now: int, k: (string, string))
    returns (last: int)
    requires Imported(strip, s, snapshot, p, replace, now).Some?
    ensures -1 <= last < |p.kv|
    ensures last >= 0 ==> k.0 != "" && k.1 != "" && (p.kv[last].scope, p.kv[last].key) == k
    ensures forall i :: last < i < |p.kv| && k.0 != "" && k.1 != "" ==> (p.kv[i].scope, p.kv[i].key) != k
    ensures var t, joined := Imported(strip, s, snapshot, p, replace, now).value.kv, k.0 + "\0" + k.1;
      && (last < 0 ==> (k in t <==> k in s.kv && !replace) && (k in t ==> t[k] == s.kv[k]))
      && (last >= 0 ==>
            && k in t && t[k] == KVEntry(k.0, k.1, t[k].value)
            && Wins(p.kv[last].value, if LooksSecret(k.0, k.1) && joined in snapshot then Some(snapshot[joined]) else None, t[k].value))
  {
    hide RestoredTable, ConnectionRules, NodeRules, PoolRules, KeyRules, ComboRules, IsSecretKVKey, LooksSecret;
    SecretMeansLooksSecret(k.0, k.1);
    last := LastWrite(KVRules(snapshot), if replace then map[] else s.kv, p.kv, k);
  }

  lemma SecretMeansLooksSecret(scope: string, key: string)
    ensures IsSecretKVKey(scope, key) <==> LooksSecret(scope, key)
  {
    hide Contains, Mentions, Lower;
    var name := scope + ":" + key;
    ContainsMeansMentions(name, "secret");
    ContainsMeansMentions(name, "token");
    ContainsMeansMentions(name, "password");
    ContainsMeansMentions(name, "credential");
    ContainsMeansMentions(name, "api_key");
    ContainsMeansMentions(name, "apikey");
    ContainsMeansMentions(name, "private_key");
    MarkersListed(Lower(name));
  }

  lemma MarkersListed(name: string)
    ensures (exists i :: 0 <= i < |SECRET_KV_MARKERS| && Contains(name, SECRET_KV_MARKERS[i])) <==>
              || Contains(name, "secret") || Contains(name, "token") || Contains(name, "password")
              || Contains(name, "credential") || Contains(name, "api_key") || Contains(name, "apikey")
              || Contains(name, "private_key")
  {
    hide Contains;
    var m := SECRET_KV_MARKERS;
    assert m[0] == "secret" && m[1] == "token" && m[2] == "password" && m[3] == "credential";
    assert m[4] == "api_key" && m[5] == "apikey" && m[6] == "private_key" && |m| == 7;
  }

  lemma ContainsMeansMentions(text: string, marker: string)
    ensures Contains(Lower(text), marker) <==> Mentions(text, marker)
  {
    var lower := Lower(text);
    forall i: nat ensures OccursAt(lower, marker, i) <==> MentionsAt(text, marker, i) {
      if i + |marker| <= |text| {
        var part := lower[i..i + |marker|];
        assert forall j :: 0 <= j < |marker| ==> part[j] == lower[i + j];
        assert forall j :: 0 <= j < |marker| ==> (lower[i + j] == marker[j] <==> MatchesLetter(text[i + j], marker[j]));
      }
    }
    if i :| 0 <= i <= |lower| && OccursAt(lower, marker, i) { assert MentionsAt(text, marker, i); }
    if i {:trigger MentionsAt(text, marker, i)} :| 0 <= i <= |text| && MentionsAt(text, marker, i) { assert OccursAt(lower, marker, i); }
  }

  // ---------------------------------------------------------------- when an import is refused

  /** The text a row stores; "" for a row that is passed over. */
  function TextOf(s: Store, k: APIKey): string {
    if k.id == "" then "" else if k.key != "" then k.key else if k.id in s.keys then s.keys[k.id].key else ""
  }

  /** The key text under an id once the given rows are stored, "" if there is none. */
  function TextUnder(s: Store, replace: bool, rows: seq<APIKey>, id: string): string {
    if rows == [] then if id in s.keys && !replace then s.keys[id].key else ""
    else
      var last := rows[|rows| - 1];
      if last.id == id && TextOf(s, last) != "" then TextOf(s, last) else TextUnder(s, replace, rows[..|rows| - 1], id)
  }

  function NameUnder(s: Store, replace: bool, rows: seq<Combo>, id: string): string {
    if rows == [] then if id in s.combos && !replace then s.combos[id].name else ""
    else
      var last := rows[|rows| - 1];
      if last.id == id && id != "" && last.name != "" then last.name else NameUnder(s, replace, rows[..|rows| - 1], id)
  }

  /** An earlier row or a stored one holds the key text that row j wants. */
  ghost predicate KeyTaken(s: Store, replace: bool, rows: seq<APIKey>, j: int) {
    && 0 <= j < |rows| && TextOf(s, rows[j]) != ""
    && exists other :: other != rows[j].id && TextUnder(s, replace, rows[..j], other) == TextOf(s, rows[j])
  }

  ghost predicate NameTaken(s: Store, replace: bool, rows: seq<Combo>, j: int) {
    && 0 <= j < |rows| && rows[j].id != "" && rows[j].name != ""
    && exists other :: other != rows[j].id && NameUnder(s, replace, rows[..j], other) == rows[j].name
  }

  /** An import is refused exactly when some row wants a key text or a combo name that another id holds by then. */
  lemma ImportRefusedIff(strip: Strip, s: Store, snapshot: map<string, string>, p: Payload, replace: bool, now: int)
    ensures Imported(strip, s, snapshot, p, replace, now).None? <==>
              || (exists j :: KeyTaken(s, replace, p.keys, j))
              || (exists j :: NameTaken(s, replace, p.combos, j))
  {
    hide RestoredTable, KeyTaken, NameTaken, Conflict;
    var startKeys, startCombos := if replace then map[] else s.keys, if replace then map[] else s.combos;
    NeverRefused(ConnectionRules(s.connections, now), if replace then map[] else s.connections, p.connections);
    NeverRefused(NodeRules(s.nodes, now), if replace then map[] else s.nodes, p.nodes);
    NeverRefused(PoolRules(strip, s.pools, now), if replace then map[] else s.pools, p.pools);
    NeverRefused(KVRules(snapshot), if replace then map[] else s.kv, p.kv);
    RefusedIff(KeyRules(s.keys, now), startKeys, p.keys);
    RefusedIff(ComboRules(now), startCombos, p.combos);
    forall j ensures Conflict(KeyRules(s.keys, now), startKeys, p.keys, j) <==> KeyTaken(s, replace, p.keys, j) {
      KeyConflict(s, replace, p.keys, now, j);
    }
    forall j ensures Conflict(ComboRules(now), startCombos, p.combos, j) <==> NameTaken(s, replace, p.combos, j) {
      NameConflict(s, replace, p.combos, now, j);
    }
  }

  lemma KeyConflict(s: Store, replace: bool, rows: seq<APIKey>, now: int, j: int)
    ensures Conflict(KeyRules(s.keys, now), if replace then map[] else s.keys, rows, j) <==> KeyTaken(s, replace, rows, j)
  {
    var rules, start := KeyRules(s.keys, now), if replace then map[] else s.keys;
    if 0 <= j < |rows| && TextOf(s, rows[j]) != "" {
      var wanted := TextOf(s, rows[j]);
      forall other
        ensures Held(rules, start, rows[..j], other) == Some(wanted) <==> TextUnder(s, replace, rows[..j], other) == wanted
      {
        KeyHeld(s, replace, rows[..j], now, other, wanted);
      }
    }
  }

  lemma {:induction false} KeyHeld(s: Store, replace: bool, rows: seq<APIKey>, now: int, id: string, wanted: string)
    requires wanted != ""
    ensures Held(KeyRules(s.keys, now), if replace then map[] else s.keys, rows, id) == Some(wanted)
       <==> TextUnder(s, replace, rows, id) == wanted
  {
    if rows != [] { KeyHeld(s, replace, rows[..|rows| - 1], now, id, wanted); }
  }

  lemma NameConflict(s: Store, replace: bool, rows: seq<Combo>, now: int, j: int)
    ensures Conflict(ComboRules(now), if replace then map[] else s.combos, rows, j) <==> NameTaken(s, replace, rows, j)
  {
    var rules, start := ComboRules(now), if replace then map[] else s.combos;
    if 0 <= j < |rows| && rows[j].id != "" && rows[j].name != "" {
      var wanted := rows[j].name;
      forall other
        ensures Held(rules, start, rows[..j], other) == Some(wanted) <==> NameUnder(s, replace, rows[..j], other) == wanted
      {
        NameHeld(s, replace, rows[..j], now, other, wanted);
      }
    }
  }

  lemma {:induction false} NameHeld(s: Store, replace: bool, rows: seq<Combo>, now: int, id: string, wanted: string)
    requires wanted != ""
    ensures Held(ComboRules(now), if replace then map[] else s.combos, rows, id) == Some(wanted)
       <==> NameUnder(s, replace, rows, id) == wanted
  {
    if rows != [] { NameHeld(s, replace, rows[..|rows| - 1], now, id, wanted); }
  }

  // ---------------------------------------------------------------- what an export shows

  predicate ConnectionShown(secrets: bool, c: Connection, shown: Connection) {
    && shown == c.(data := shown.data) && shown.data.rest == c.data.rest
    && (secrets ==> shown.data == c.data)
    && (!secrets ==> shown.data.apiKey == "" && shown.data.accessToken == "" && shown.data.refreshToken == ""
                     && shown.data.providerSpecificData == None)
  }

  predicate NodeShown(secrets: bool, n: Node, shown: Node) {
    && shown == n.(data := n.data.(apiKey := shown.data.apiKey))
    && shown.data.apiKey == if secrets then n.data.apiKey else ""
  }

  predicate PoolShown(strip: Strip, secrets: bool, p: ProxyPool, shown: ProxyPool) {
    && shown == p.(data := p.data.(proxyURL := shown.data.proxyURL))
    && (secrets ==> shown.data.proxyURL == p.data.proxyURL)
    && (!secrets ==> Redacts(strip, p.data.proxyURL, shown.data.proxyURL))
  }

  predicate KeyShown(secrets: bool, k: APIKey, shown: APIKey) {
    shown == k.(key := shown.key) && shown.key == if secrets then k.key else ""
  }

  ghost predicate KVShown(secrets: bool, e: KVEntry, shown: KVEntry) {
    && shown.scope == e.scope && shown.key == e.key
    && shown.value == if !secrets && LooksSecret(e.scope, e.key) then "" else e.value
  }

  /** Without secrets these columns are blank and every other column is as stored. */
  lemma ExportShows(strip: Strip, s: Store, defaults: Settings, secrets: bool, p: Payload)
    requires Exports(strip, s, defaults, secrets, p)
    ensures p.version == 1 && p.settings.Some?
    ensures var settings := if s.settings.Some? then s.settings.value else defaults;
      p.settings.value.rest == settings.rest && p.settings.value.passwordHash == if secrets then settings.passwordHash else ""
    ensures forall i :: 0 <= i < |p.connections| ==>
      p.connections[i].id in s.connections && ConnectionShown(secrets, s.connections[p.connections[i].id], p.connections[i])
    ensures forall i :: 0 <= i < |p.nodes| ==> p.nodes[i].id in s.nodes && NodeShown(secrets, s.nodes[p.nodes[i].id], p.nodes[i])
    ensures forall i :: 0 <= i < |p.pools| ==>
      p.pools[i].id in s.pools && PoolShown(strip, secrets, s.pools[p.pools[i].id], p.pools[i])
    ensures forall i :: 0 <= i < |p.keys| ==> p.keys[i].id in s.keys && KeyShown(secrets, s.keys[p.keys[i].id], p.keys[i])
    ensures forall i :: 0 <= i < |p.combos| ==> p.combos[i].id in s.combos && p.combos[i] == s.combos[p.combos[i].id]
    ensures forall i :: 0 <= i < |p.kv| ==> var k := (p.kv[i].scope, p.kv[i].key);
      k in s.kv && (s.Valid() ==> KVShown(secrets, s.kv[k], p.kv[i]))
  {
    hide Has, RedactProxyURL, Redacts, IsSecretKVKey, LooksSecret, DistinctKeys, DistinctNames;
    forall i | 0 <= i < |p.pools| ensures PoolShown(strip, secrets, s.pools[p.pools[i].id], p.pools[i]) {
      var url := s.pools[p.pools[i].id].data.proxyURL;
      RedactionIsUnique(strip, url, RedactProxyURL(strip, url));
    }
    forall i | 0 <= i < |p.kv|
      ensures var k := (p.kv[i].scope, p.kv[i].key); k in s.kv && (s.Valid() ==> KVShown(secrets, s.kv[k], p.kv[i]))
    {
      SecretMeansLooksSecret(p.kv[i].scope, p.kv[i].key);
      assert KV_ID(p.kv[i]) in s.kv;
    }
  }
}
