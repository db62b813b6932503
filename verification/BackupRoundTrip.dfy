/** What a backup brings back (internal/db/backup.go): the export and the import as partial inverses. */
module BackupRoundTrip {
  import opened Wrappers
  import opened RestoreTables
  import opened BackupModel
  import opened Backup

  /** createdAt comes back as it was, except that a replace stamps a zero time. */
  function Created(createdAt: int, replace: bool, now: int): int { if replace then Stamp(createdAt, now) else createdAt }

  /**
   * back, made of table by a restore in the given mode: exactly the rows that are not skipped come back,
   * each as again says; a merge leaves the skipped ones alone, a replace loses them.
   */
  ghost predicate BroughtBack<K(!new), R(!new)>(
    table: map<K, R>, skipped: R -> bool, again: R -> R, replace: bool, back: Option<map<K, R>>)
  {
    && back.Some?
    && (forall k :: k in back.value <==> k in table && (!replace || !skipped(table[k])))
    && (forall k :: k in back.value ==> back.value[k] == (if skipped(table[k]) then table[k] else again(table[k])))
  }

  /** How the rules of a table and the two views of its rows fit together. */
  lemma FromRoundTrip<K(!new), R(!new)>(
    rules: Rules<K, R>, table: map<K, R>, view: R -> R, rows: seq<R>, replace: bool, skipped: R -> bool, again: R -> R)
    requires Lists(rules.id, table, view, rows)
    requires IsUnique(rules, table) && KeepsUnique(rules, table, view) && UpdatesUnique(rules)
    requires forall k :: k in table ==> rules.skips(view(table[k])) == skipped(table[k])
    requires forall k :: k in table && !skipped(table[k]) ==> Back(rules, table[k], view, replace) == again(table[k])
    ensures BroughtBack(table, skipped, again, replace, RestoredTable(rules, if replace then map[] else table, rows))
    ensures RestoredTable(rules, if replace then map[] else table, rows).Some?
  {
    hide Back, Lists, IsUnique, KeepsUnique, UpdatesUnique, RestoredTable;
    RoundTrip(rules, table, view, rows, replace);
  }

  // ---------------------------------------------------------------- connections

  function ConnectionAgain(replace: bool, now: int): Connection -> Connection {
    (c: Connection) =>
      c.(data := Marshalled(c.data), createdAt := Created(c.createdAt, replace, now), updatedAt := now)
  }

  lemma ConnectionsRoundTrip(table: map<string, Connection>, rows: seq<Connection>, secrets: bool, replace: bool, now: int)
    requires Keyed(CONNECTION_ID, table) && Lists(CONNECTION_ID, table, ConnectionView(secrets), rows)
    ensures BroughtBack(table, (c: Connection) => c.id == "", ConnectionAgain(replace, now), replace,
                        RestoredTable(ConnectionRules(table, now), if replace then map[] else table, rows))
    ensures RestoredTable(ConnectionRules(table, now), if replace then map[] else table, rows).Some?
  {
    hide BroughtBack, Lists, RestoredTable, Marshalled, Created;
    var rules, view := ConnectionRules(table, now), ConnectionView(secrets);
    forall id | id in table && id != ""
      ensures Back(rules, table[id], view, replace) == ConnectionAgain(replace, now)(table[id])
    {
      ConnectionBack(table, id, secrets, replace, now);
    }
    FromRoundTrip(rules, table, view, rows, replace, (c: Connection) => c.id == "", ConnectionAgain(replace, now));
  }

  lemma ConnectionBack(table: map<string, Connection>, id: string, secrets: bool, replace: bool, now: int)
    requires id in table && table[id].id == id
    ensures Back(ConnectionRules(table, now), table[id], ConnectionView(secrets), replace)
         == ConnectionAgain(replace, now)(table[id])
  {
    hide Marshalled, RestoredConnectionData;
    ConnectionDataRestored(table[id].data);
  }

  lemma ConnectionDataRestored(data: ConnectionData)
    ensures RestoredConnectionData(data, data) == data
    ensures RestoredConnectionData(data,
              data.(apiKey := "", accessToken := "", refreshToken := "", providerSpecificData := None)) == data
  {
  }

  // ---------------------------------------------------------------- nodes and pools

  function NodeAgain(replace: bool, now: int): Node -> Node {
    (n: Node) => n.(createdAt := Created(n.createdAt, replace, now), updatedAt := now)
  }

  lemma NodesRoundTrip(table: map<string, Node>, rows: seq<Node>, secrets: bool, replace: bool, now: int)
    requires Keyed(NODE_ID, table) && Lists(NODE_ID, table, NodeView(secrets), rows)
    ensures BroughtBack(table, (n: Node) => n.id == "", NodeAgain(replace, now), replace,
                        RestoredTable(NodeRules(table, now), if replace then map[] else table, rows))
    ensures RestoredTable(NodeRules(table, now), if replace then map[] else table, rows).Some?
  {
    hide BroughtBack, Lists, RestoredTable, Created;
    var rules, view := NodeRules(table, now), NodeView(secrets);
    forall id | id in table && id != ""
      ensures Back(rules, table[id], view, replace) == NodeAgain(replace, now)(table[id])
    {
      NodeBack(table, id, secrets, replace, now);
    }
    FromRoundTrip(rules, table, view, rows, replace, (n: Node) => n.id == "", NodeAgain(replace, now));
  }

  lemma NodeBack(table: map<string, Node>, id: string, secrets: bool, replace: bool, now: int)
    requires id in table && table[id].id == id
    ensures Back(NodeRules(table, now), table[id], NodeView(secrets), replace) == NodeAgain(replace, now)(table[id])
  {
  }

  function PoolAgain(replace: bool, now: int): ProxyPool -> ProxyPool {
    (p: ProxyPool) => p.(createdAt := Created(p.createdAt, replace, now), updatedAt := now)
  }

  lemma PoolsRoundTrip(strip: Strip, table: map<string, ProxyPool>, rows: seq<ProxyPool>, secrets: bool, replace: bool, now: int)
    requires Keyed(POOL_ID, table) && Lists(POOL_ID, table, PoolView(strip, secrets), rows)
    ensures BroughtBack(table, (p: ProxyPool) => p.id == "", PoolAgain(replace, now), replace,
                        RestoredTable(PoolRules(strip, table, now), if replace then map[] else table, rows))
    ensures RestoredTable(PoolRules(strip, table, now), if replace then map[] else table, rows).Some?
  {
    hide BroughtBack, Lists, RestoredTable, Created, RestoredURL, RedactProxyURL;
    var rules, view := PoolRules(strip, table, now), PoolView(strip, secrets);
    forall id | id in table && id != ""
      ensures Back(rules, table[id], view, replace) == PoolAgain(replace, now)(table[id])
    {
      PoolBack(strip, table, id, secrets, replace, now);
    }
    FromRoundTrip(rules, table, view, rows, replace, (p: ProxyPool) => p.id == "", PoolAgain(replace, now));
  }

  lemma PoolBack(strip: Strip, table: map<string, ProxyPool>, id: string, secrets: bool, replace: bool, now: int)
    requires id in table && table[id].id == id
    ensures Back(PoolRules(strip, table, now), table[id], PoolView(strip, secrets), replace)
         == PoolAgain(replace, now)(table[id])
  {
    hide RestoredURL, RedactProxyURL;
    URLRestored(strip, table[id].data.proxyURL);
  }

  /** A stored URL comes back from itself and from its redaction, whether or not it parses. */
  lemma URLRestored(strip: Strip, stored: string)
    ensures RestoredURL(strip, stored, stored) == stored
    ensures RestoredURL(strip, stored, RedactProxyURL(strip, stored)) == stored
  {
  }

  // ---------------------------------------------------------------- API keys and combos

  function KeyAgain(replace: bool, now: int): APIKey -> APIKey {
    (k: APIKey) => k.(createdAt := Created(k.createdAt, replace, now))
  }

  lemma KeysRoundTrip(table: map<string, APIKey>, rows: seq<APIKey>, secrets: bool, replace: bool, now: int)
    requires Keyed(KEY_ID, table) && Lists(KEY_ID, table, KeyView(secrets), rows)
    requires DistinctKeys(table)
    ensures BroughtBack(table, (k: APIKey) => k.id == "" || k.key == "", KeyAgain(replace, now), replace,
                        RestoredTable(KeyRules(table, now), if replace then map[] else table, rows))
    ensures RestoredTable(KeyRules(table, now), if replace then map[] else table, rows).Some?
  {
    hide BroughtBack, Lists, RestoredTable, Created;
    var rules, view := KeyRules(table, now), KeyView(secrets);
    var skipped := (k: APIKey) => k.id == "" || k.key == "";
    forall id | id in table
      ensures rules.skips(view(table[id])) == skipped(table[id])
      ensures Back(rules, table[id], view, replace) == KeyAgain(replace, now)(table[id])
      ensures rules.unique(rules.restored(view(table[id]))) == rules.unique(table[id])
    {
      KeyBack(table, id, secrets, replace, now);
    }
    FromRoundTrip(rules, table, view, rows, replace, skipped, KeyAgain(replace, now));
  }

  lemma KeyBack(table: map<string, APIKey>, id: string, secrets: bool, replace: bool, now: int)
    requires id in table && table[id].id == id
    ensures var rules, view := KeyRules(table, now), KeyView(secrets);
      && rules.skips(view(table[id])) == (id == "" || table[id].key == "")
      && Back(rules, table[id], view, replace) == KeyAgain(replace, now)(table[id])
      && rules.restored(view(table[id])).key == table[id].key
  {
  }

  function ComboAgain(replace: bool, now: int): Combo -> Combo {
    (c: Combo) => c.(createdAt := Created(c.createdAt, replace, now), updatedAt := now)
  }

  lemma CombosRoundTrip(table: map<string, Combo>, rows: seq<Combo>, replace: bool, now: int)
    requires Keyed(COMBO_ID, table) && Lists(COMBO_ID, table, ComboView(), rows)
    requires DistinctNames(table)
    ensures BroughtBack(table, (c: Combo) => c.id == "" || c.name == "", ComboAgain(replace, now), replace,
                        RestoredTable(ComboRules(now), if replace then map[] else table, rows))
    ensures RestoredTable(ComboRules(now), if replace then map[] else table, rows).Some?
  {
    hide BroughtBack, Lists, RestoredTable;
    FromRoundTrip(ComboRules(now), table, ComboView(), rows, replace,
                  (c: Combo) => c.id == "" || c.name == "", ComboAgain(replace, now));
  }

  // ---------------------------------------------------------------- key-value entries

  /** An entry whose exported value is "" and which the import fills in from what is stored. */
  predicate Blank(k: (string, string), e: KVEntry, secrets: bool) {
    k.0 != "" && k.1 != "" && IsSecretKVKey(k.0, k.1) && (!secrets || e.value == "")
  }

  /**
   * No such entry shares its joined text, scope + NUL + key, with a stored entry of another value. Two
   * different entries can share it only if a scope holds a NUL.
   */
  ghost predicate Recoverable(kv: map<(string, string), KVEntry>, secrets: bool) {
    forall a, b :: a in kv && b in kv && Blank(a, kv[a], secrets) && Join(a.0, a.1) == Join(b.0, b.1) ==>
      kv[b].value == kv[a].value
  }

  predicate NoKey(e: KVEntry) { e.scope == "" || e.key == "" }

  ghost predicate KVBroughtBack(
    kv: map<(string, string), KVEntry>, snapshot: map<string, string>, rows: seq<KVEntry>, replace: bool)
  {
    BroughtBack(kv, (e: KVEntry) => NoKey(e), (e: KVEntry) => e, replace,
                RestoredTable(KVRules(snapshot), if replace then map[] else kv, rows))
  }

  function KVAgain(snapshot: map<string, string>, secrets: bool): KVEntry -> KVEntry {
    (e: KVEntry) =>
      if Blank((e.scope, e.key), e, secrets) && Join(e.scope, e.key) in snapshot
      then e.(value := snapshot[Join(e.scope, e.key)]) else e
  }

  lemma KVBack(kv: map<(string, string), KVEntry>, snapshot: map<string, string>, k: (string, string), secrets: bool, replace: bool)
    requires k in kv && (kv[k].scope, kv[k].key) == k && !NoKey(kv[k]) && Join(k.0, k.1) in snapshot
    ensures Back(KVRules(snapshot), kv[k], KVView(secrets), replace) == KVAgain(snapshot, secrets)(kv[k])
  {
    hide IsSecretKVKey, Join;
  }

  lemma KVRulesFit(kv: map<(string, string), KVEntry>, snapshot: map<string, string>, secrets: bool)
    ensures var rules, view := KVRules(snapshot), KVView(secrets);
      && rules.id == KV_ID
      && IsUnique(rules, kv) && KeepsUnique(rules, kv, view) && UpdatesUnique(rules)
      && forall k :: k in kv ==> rules.skips(view(kv[k])) == NoKey(kv[k])
  {
    hide IsSecretKVKey, RestoredValue;
  }

  /** Whatever the snapshot is, entries come back with the values it holds for them. */
  lemma KVComesBack(
    kv: map<(string, string), KVEntry>, snapshot: map<string, string>, rows: seq<KVEntry>, secrets: bool, replace: bool)
    requires Keyed(KV_ID, kv) && Lists(KV_ID, kv, KVView(secrets), rows) && IsSnapshot(kv, snapshot)
    ensures BroughtBack(kv, (e: KVEntry) => NoKey(e), KVAgain(snapshot, secrets), replace,
                        RestoredTable(KVRules(snapshot), if replace then map[] else kv, rows))
    ensures RestoredTable(KVRules(snapshot), if replace then map[] else kv, rows).Some?
  {
    hide BroughtBack, Lists, RestoredTable, KVAgain, KVRules, KVView;
    var rules, view := KVRules(snapshot), KVView(secrets);
    KVRulesFit(kv, snapshot, secrets);
    forall k | k in kv && !NoKey(kv[k]) ensures Back(rules, kv[k], view, replace) == KVAgain(snapshot, secrets)(kv[k]) {
      KVBack(kv, snapshot, k, secrets, replace);
    }
    FromRoundTrip(rules, kv, view, rows, replace, (e: KVEntry) => NoKey(e), KVAgain(snapshot, secrets));
  }

  /**
   * Key-value entries survive every round trip exactly when they are Recoverable: the condition fails
   * for entries that the import's joined text confuses.
   */
  lemma KVRoundTripIff(kv: map<(string, string), KVEntry>, rows: seq<KVEntry>, secrets: bool, replace: bool)
    requires Keyed(KV_ID, kv) && Lists(KV_ID, kv, KVView(secrets), rows)
    ensures (forall snapshot :: IsSnapshot(kv, snapshot) ==> KVBroughtBack(kv, snapshot, rows, replace)) <==> Recoverable(kv, secrets)
  {
    hide Lists, Keyed, IsSnapshot, KVBroughtBack, Recoverable;
    if Recoverable(kv, secrets) {
      forall snapshot | IsSnapshot(kv, snapshot) ensures KVBroughtBack(kv, snapshot, rows, replace) {
        RecoverableComesBack(kv, snapshot, rows, secrets, replace);
      }
    } else {
      var snapshot := ConfusedEntries(kv, rows, secrets, replace);
    }
  }

  lemma ConfusedEntries(kv: map<(string, string), KVEntry>, rows: seq<KVEntry>, secrets: bool, replace: bool)
    returns (snapshot: map<string, string>)
    requires Keyed(KV_ID, kv) && Lists(KV_ID, kv, KVView(secrets), rows) && !Recoverable(kv, secrets)
    ensures IsSnapshot(kv, snapshot) && !KVBroughtBack(kv, snapshot, rows, replace)
  {
    hide Lists, Keyed, IsSnapshot, KVBroughtBack, Blank, Join;
    var a, b :| a in kv && b in kv && Blank(a, kv[a], secrets) && Join(a.0, a.1) == Join(b.0, b.1) && kv[b].value != kv[a].value;
    var some := AnySnapshot(kv);
    Redirected(kv, some, b);
    snapshot := some[Join(b.0, b.1) := kv[b].value];
    ConfusedIsLost(kv, snapshot, rows, secrets, replace, a);
  }

  lemma RecoverableComesBack(
    kv: map<(string, string), KVEntry>, snapshot: map<string, string>, rows: seq<KVEntry>, secrets: bool, replace: bool)
    requires Keyed(KV_ID, kv) && Lists(KV_ID, kv, KVView(secrets), rows)
    requires Recoverable(kv, secrets) && IsSnapshot(kv, snapshot)
    ensures KVBroughtBack(kv, snapshot, rows, replace)
  {
    hide RestoredTable, Lists, Blank, Join;
    KVComesBack(kv, snapshot, rows, secrets, replace);
    forall k | k in kv ensures KVAgain(snapshot, secrets)(kv[k]) == kv[k] {
      assert KV_ID(kv[k]) == k;
    }
  }

  lemma ConfusedIsLost(
    kv: map<(string, string), KVEntry>, snapshot: map<string, string>, rows: seq<KVEntry>, secrets: bool, replace: bool,
    a: (string, string))
    requires Keyed(KV_ID, kv) && Lists(KV_ID, kv, KVView(secrets), rows)
    requires IsSnapshot(kv, snapshot) && a in kv && Blank(a, kv[a], secrets)
    requires Join(a.0, a.1) in snapshot && snapshot[Join(a.0, a.1)] != kv[a].value
    ensures !KVBroughtBack(kv, snapshot, rows, replace)
  {
    hide RestoredTable, Lists, Join, IsSecretKVKey;
    KVComesBack(kv, snapshot, rows, secrets, replace);
    assert KV_ID(kv[a]) == a;
    assert KVAgain(snapshot, secrets)(kv[a]) != kv[a];
  }

  lemma Redirected(kv: map<(string, string), KVEntry>, snapshot: map<string, string>, b: (string, string))
    requires IsSnapshot(kv, snapshot) && b in kv
    ensures IsSnapshot(kv, snapshot[Join(b.0, b.1) := kv[b].value])
  {
    hide Join;
  }

  lemma {:induction false} AnySnapshot(kv: map<(string, string), KVEntry>) returns (snapshot: map<string, string>)
    ensures IsSnapshot(kv, snapshot)
    decreases |kv|
  {
    hide Join;
    if kv == map[] {
      snapshot := map[];
    } else {
      var k :| k in kv;
      var rest := kv - {k};
      assert rest.Keys == kv.Keys - {k};
      var before := AnySnapshot(rest);
      snapshot := before[Join(k.0, k.1) := kv[k].value];
      forall j | j in snapshot ensures exists i :: i in kv && Join(i.0, i.1) == j && snapshot[j] == kv[i].value {
        if j != Join(k.0, k.1) {
          var i :| i in rest && Join(i.0, i.1) == j && before[j] == rest[i].value;
          assert i in kv;
        }
      }
    }
  }

  /** Two stored entries that share their text: whatever lists them, some snapshot restores the wrong value. */
  lemma SharedTextMisleads(rows: seq<KVEntry>, replace: bool) returns (snapshot: map<string, string>)
    requires Lists(KV_ID, CONFUSED, KVView(false), rows)
    ensures IsSnapshot(CONFUSED, snapshot) && !KVBroughtBack(CONFUSED, snapshot, rows, replace)
  {
    hide Lists, KVBroughtBack, IsSnapshot;
    ConfusedIsNotRecoverable();
    snapshot := ConfusedEntries(CONFUSED, rows, false, replace);
  }

  const CONFUSED: map<(string, string), KVEntry> := map[
    ("a\0b", "token") := KVEntry("a\0b", "token", "x"),
    ("a", "b\0token") := KVEntry("a", "b\0token", "y")]

  lemma ConfusedIsNotRecoverable()
    ensures Keyed(KV_ID, CONFUSED) && !Recoverable(CONFUSED, false)
  {
    var a, b := ("a\0b", "token"), ("a", "b\0token");
    assert a in CONFUSED && b in CONFUSED && CONFUSED[a].value != CONFUSED[b].value;
    assert Join(a.0, a.1) == "a\0b\0token" == Join(b.0, b.1);
    var name := Lower("a\0b:token");
    assert OccursAt(name, "token", 4);
    assert Contains(name, SECRET_KV_MARKERS[1]);
    assert "a\0b" + ":" + "token" == "a\0b:token";
    assert Blank(a, CONFUSED[a], false);
  }

  /** Scopes without NUL are enough. */
  lemma PlainScopesAreRecoverable(kv: map<(string, string), KVEntry>, secrets: bool)
    requires forall k :: k in kv ==> '\0' !in k.0
    ensures Recoverable(kv, secrets)
  {
    hide Blank;
    forall a, b | a in kv && b in kv && Join(a.0, a.1) == Join(b.0, b.1) ensures a == b {
      JoinIsInjective(a.0, a.1, b.0, b.1);
    }
  }

  lemma JoinIsInjective(s: string, k: string, t: string, l: string)
    requires '\0' !in s && '\0' !in t && Join(s, k) == Join(t, l)
    ensures s == t && k == l
  {
    var joined := Join(s, k);
    assert joined[|s|] == '\0' && joined[|t|] == '\0';
    assert joined[..|s|] == s && joined[..|t|] == t;
    assert forall i :: 0 <= i < |s| ==> joined[i] == s[i];
    assert forall i :: 0 <= i < |t| ==> joined[i] == t[i];
    assert joined[|s| + 1..] == k && joined[|t| + 1..] == l;
  }

  // ---------------------------------------------------------------- the whole store

  /** A settings row keeps its hash; where there was none the exported defaults become the row. */
  lemma SettingsRoundTrip(stored: Option<Settings>, defaults: Settings, secrets: bool)
    ensures Some(RestoredSettings(stored, ExportedSettings(stored, defaults, secrets)))
         == if stored.Some? then stored else Some(ExportedSettings(None, defaults, secrets))
  {
  }

  /**
   * A backup of a store, sanitised or not, is accepted back by that store in either mode and restores
   * every table: credentials, proxy URLs, key texts and the password hash included.
   */
  lemma ExportThenImport(
    strip: Strip, s: Store, defaults: Settings, secrets: bool, p: Payload, snapshot: map<string, string>, replace: bool, now: int)
    requires s.Valid() && Exports(strip, s, defaults, secrets, p) && IsSnapshot(s.kv, snapshot)
    ensures Accepts(p)
    ensures var t := Imported(strip, s, snapshot, p, replace, now);
      && t.Some?
      && BroughtBack(s.connections, (c: Connection) => c.id == "", ConnectionAgain(replace, now), replace, Some(t.value.connections))
      && BroughtBack(s.nodes, (n: Node) => n.id == "", NodeAgain(replace, now), replace, Some(t.value.nodes))
      && BroughtBack(s.pools, (x: ProxyPool) => x.id == "", PoolAgain(replace, now), replace, Some(t.value.pools))
      && BroughtBack(s.keys, (k: APIKey) => k.id == "" || k.key == "", KeyAgain(replace, now), replace, Some(t.value.keys))
      && BroughtBack(s.combos, (c: Combo) => c.id == "" || c.name == "", ComboAgain(replace, now), replace, Some(t.value.combos))
      && BroughtBack(s.kv, (e: KVEntry) => NoKey(e), KVAgain(snapshot, secrets), replace, Some(t.value.kv))
      && (Recoverable(s.kv, secrets) ==>
            BroughtBack(s.kv, (e: KVEntry) => NoKey(e), (e: KVEntry) => e, replace, Some(t.value.kv)))
      && t.value.settings == (if s.settings.Some? then s.settings else Some(ExportedSettings(None, defaults, secrets)))
  {
    hide Lists, Keyed, DistinctKeys, DistinctNames, RestoredTable, Recoverable, IsSnapshot, BroughtBack, Blank, Join;
    hide ConnectionRules, NodeRules, PoolRules, KeyRules, ComboRules, KVRules, RestoredSettings, Imported, ExportedSettings;
    ConnectionsRoundTrip(s.connections, p.connections, secrets, replace, now);
    NodesRoundTrip(s.nodes, p.nodes, secrets, replace, now);
    PoolsRoundTrip(strip, s.pools, p.pools, secrets, replace, now);
    KeysRoundTrip(s.keys, p.keys, secrets, replace, now);
    CombosRoundTrip(s.combos, p.combos, replace, now);
    KVComesBack(s.kv, snapshot, p.kv, secrets, replace);
    SettingsRoundTrip(s.settings, defaults, secrets);
    ImportedTables(strip, s, snapshot, p, replace, now);
    if Recoverable(s.kv, secrets) { RecoverableComesBack(s.kv, snapshot, p.kv, secrets, replace); }
  }
}
