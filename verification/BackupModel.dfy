/**
 * The records of a backup (internal/model/models.go), their redacting export views and their restoring
 * imports (internal/db/backup.go). Columns that are only carried through are kept as one text.
 */
module BackupModel {
  import opened Wrappers
  import opened RestoreTables

  /** The zero time of Go. */
  const ZERO_TIME := 0

  datatype ConnectionData = ConnectionData(
    apiKey: string,
    accessToken: string,
    refreshToken: string,
    providerSpecificData: Option<map<string, string>>,
    rest: string)

  datatype Connection = Connection(
    id: string, provider: string, authType: string, name: string, email: string,
    priority: int, isActive: bool, data: ConnectionData, createdAt: int, updatedAt: int)

  datatype NodeData = NodeData(prefix: string, apiType: string, baseURL: string, apiKey: string)

  datatype Node = Node(id: string, kind: string, name: string, data: NodeData, createdAt: int, updatedAt: int)

  datatype PoolData = PoolData(name: string, proxyURL: string, strictProxy: bool, kind: string)

  datatype ProxyPool = ProxyPool(
    id: string, isActive: bool, testStatus: string, data: PoolData, createdAt: int, updatedAt: int)

  datatype APIKey = APIKey(
    id: string, key: string, name: string, machineId: string, isActive: bool, allowedModels: seq<string>,
    rpm: int, systemPrompt: string, expiresAt: string, createdAt: int)

  datatype Combo = Combo(id: string, name: string, kind: string, models: seq<string>, createdAt: int, updatedAt: int)

  datatype KVEntry = KVEntry(scope: string, key: string, value: string)

  datatype Settings = Settings(passwordHash: string, rest: string)

  const CONNECTION_ID: Connection -> string := (c: Connection) => c.id
  const NODE_ID: Node -> string := (n: Node) => n.id
  const POOL_ID: ProxyPool -> string := (p: ProxyPool) => p.id
  const KEY_ID: APIKey -> string := (k: APIKey) => k.id
  const COMBO_ID: Combo -> string := (c: Combo) => c.id
  const KV_ID: KVEntry -> (string, string) := (e: KVEntry) => (e.scope, e.key)

  // ---------------------------------------------------------------- export

  /** strip parses a URL and drops its user info; None when it does not parse. */
  function RedactProxyURL(strip: string -> Option<string>, raw: string): string {
    if raw == "" then ""
    else
      match strip(raw)
      case Some(stripped) => stripped
      case None => if '@' in raw then "" else raw
  }

  const SECRET_KV_MARKERS := ["secret", "token", "password", "credential", "api_key", "apikey", "private_key"]

  function Lower(s: string): string {
    seq(|s|, i requires 0 <= i < |s| => if 'A' <= s[i] <= 'Z' then ((s[i] as int) + 32) as char else s[i])
  }

  predicate OccursAt(s: string, sub: string, i: nat) { i + |sub| <= |s| && s[i..i + |sub|] == sub }

  predicate Contains(s: string, sub: string) { exists i :: 0 <= i <= |s| && OccursAt(s, sub, i) }

  predicate IsSecretKVKey(scope: string, key: string) {
    var name := Lower(scope + ":" + key);
    exists i :: 0 <= i < |SECRET_KV_MARKERS| && Contains(name, SECRET_KV_MARKERS[i])
  }

  function ConnectionView(secrets: bool): Connection -> Connection {
    (c: Connection) => if secrets then c
      else c.(data := c.data.(apiKey := "", accessToken := "", refreshToken := "", providerSpecificData := None))
  }

  function NodeView(secrets: bool): Node -> Node {
    (n: Node) => if secrets then n else n.(data := n.data.(apiKey := ""))
  }

  function PoolView(strip: string -> Option<string>, secrets: bool): ProxyPool -> ProxyPool {
    (p: ProxyPool) => if secrets then p else p.(data := p.data.(proxyURL := RedactProxyURL(strip, p.data.proxyURL)))
  }

  function KeyView(secrets: bool): APIKey -> APIKey {
    (k: APIKey) => if secrets then k else k.(key := "")
  }

  function ComboView(): Combo -> Combo { (c: Combo) => c }

  function KVView(secrets: bool): KVEntry -> KVEntry {
    (e: KVEntry) => if !secrets && IsSecretKVKey(e.scope, e.key) then e.(value := "") else e
  }

  // ---------------------------------------------------------------- import

  function Stamp(createdAt: int, now: int): int { if createdAt == ZERO_TIME then now else createdAt }

  function Kept(given: string, stored: string): string { if given == "" && stored != "" then stored else given }

  /** What the JSON column holds: an empty map is omitted and reads back as none. */
  function Marshalled(data: ConnectionData): ConnectionData {
    if data.providerSpecificData == Some(map[]) then data.(providerSpecificData := None) else data
  }

  function RestoredConnectionData(stored: ConnectionData, given: ConnectionData): ConnectionData {
    given.(
      apiKey := Kept(given.apiKey, stored.apiKey),
      accessToken := Kept(given.accessToken, stored.accessToken),
      refreshToken := Kept(given.refreshToken, stored.refreshToken),
      providerSpecificData :=
        if given.providerSpecificData.None? then stored.providerSpecificData else given.providerSpecificData)
  }

  function ConnectionRules(existing: map<string, Connection>, now: int): Rules<string, Connection> {
    Rules(
      CONNECTION_ID,
      (c: Connection) => c.id == "",
      (c: Connection) => c.(
        data := Marshalled(if c.id in existing then RestoredConnectionData(existing[c.id].data, c.data) else c.data),
        createdAt := Stamp(c.createdAt, now),
        updatedAt := now),
      (before: Connection, c: Connection) => c.(createdAt := before.createdAt),
      (c: Connection) => None)
  }

  function NodeRules(existing: map<string, Node>, now: int): Rules<string, Node> {
    Rules(
      NODE_ID,
      (n: Node) => n.id == "",
      (n: Node) => n.(
        data := if n.id in existing then n.data.(apiKey := Kept(n.data.apiKey, existing[n.id].data.apiKey)) else n.data,
        createdAt := Stamp(n.createdAt, now),
        updatedAt := now),
      (before: Node, n: Node) => n.(createdAt := before.createdAt),
      (n: Node) => None)
  }

  /** A URL that is missing or merely redacted gives way to the stored one. */
  function RestoredURL(strip: string -> Option<string>, stored: string, given: string): string {
    if (given == "" || given == RedactProxyURL(strip, stored)) && stored != "" then stored else given
  }

  function PoolRules(strip: string -> Option<string>, existing: map<string, ProxyPool>, now: int): Rules<string, ProxyPool> {
    Rules(
      POOL_ID,
      (p: ProxyPool) => p.id == "",
      (p: ProxyPool) => p.(
        data := if p.id in existing
                then p.data.(proxyURL := RestoredURL(strip, existing[p.id].data.proxyURL, p.data.proxyURL))
                else p.data,
        createdAt := Stamp(p.createdAt, now),
        updatedAt := now),
      (before: ProxyPool, p: ProxyPool) => p.(createdAt := before.createdAt),
      (p: ProxyPool) => None)
  }

  /** The key text to store; "" when there is none. */
  function RestoredKeyText(existing: map<string, APIKey>, k: APIKey): string {
    if k.key == "" && k.id in existing then existing[k.id].key else k.key
  }

  function KeyRules(existing: map<string, APIKey>, now: int): Rules<string, APIKey> {
    Rules(
      KEY_ID,
      (k: APIKey) => k.id == "" || RestoredKeyText(existing, k) == "",
      (k: APIKey) => k.(key := RestoredKeyText(existing, k), createdAt := Stamp(k.createdAt, now)),
      (before: APIKey, k: APIKey) => k.(createdAt := before.createdAt),
      (k: APIKey) => Some(k.key))
  }

  function ComboRules(now: int): Rules<string, Combo> {
    Rules(
      COMBO_ID,
      (c: Combo) => c.id == "" || c.name == "",
      (c: Combo) => c.(createdAt := Stamp(c.createdAt, now), updatedAt := now),
      (before: Combo, c: Combo) => c.(createdAt := before.createdAt),
      (c: Combo) => Some(c.name))
  }

  /** The text under which the import remembers a stored entry. */
  function Join(scope: string, key: string): string { scope + "\0" + key }

  function RestoredValue(snapshot: map<string, string>, e: KVEntry): string {
    if e.value == "" && IsSecretKVKey(e.scope, e.key) && Join(e.scope, e.key) in snapshot
    then snapshot[Join(e.scope, e.key)] else e.value
  }

  function KVRules(snapshot: map<string, string>): Rules<(string, string), KVEntry> {
    Rules(
      KV_ID,
      (e: KVEntry) => e.scope == "" || e.key == "",
      (e: KVEntry) => e.(value := RestoredValue(snapshot, e)),
      (before: KVEntry, e: KVEntry) => e,
      (e: KVEntry) => None)
  }

  /** Some order of the stored entries, later ones overwriting earlier ones under the same joined text. */
  ghost predicate IsSnapshot(kv: map<(string, string), KVEntry>, snapshot: map<string, string>) {
    && (forall k :: k in kv ==> Join(k.0, k.1) in snapshot)
    && (forall j :: j in snapshot ==> exists k :: k in kv && Join(k.0, k.1) == j && snapshot[j] == kv[k].value)
  }

  /** An empty imported hash does not replace a stored one. */
  function RestoredSettings(stored: Option<Settings>, given: Settings): Settings {
    if given.passwordHash == "" && stored.Some? && stored.value.passwordHash != ""
    then given.(passwordHash := stored.value.passwordHash) else given
  }
}
