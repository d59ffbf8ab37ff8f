/** Registry entries, their validation, and their on-disk shape. */
module KeyEntry {
  import opened Prelude

  /** Clock readings; 0 is the zero time, which the store reads as "never". */
  type Time = int

  datatype PerModelQuota = PerModelQuota(requestsPerMinutePerReplica: int, tokensPerDay: int)

  /** `perModel` is None for a nil map. An empty non-nil map is a different value. */
  datatype Quota = Quota(
    requestsPerMinute: int,
    tokensPerDay: int,
    inputTokensPerMinute: int,
    outputTokensPerMinute: int,
    maxOccupancyShare: real,
    perModel: Option<map<string, PerModelQuota>>)

  datatype Entry = Entry(
    id: string,
    keyHash: string,
    keyPreview: string,
    owner: string,
    name: string,
    enabled: bool,
    expiresAt: Option<Time>,
    allowedModels: seq<string>,
    quota: Quota)

  /** The JSON shape. `per_model` is omitted when empty, so nil and empty share one encoding. */
  datatype WireQuota = WireQuota(
    requests_per_minute: int,
    tokens_per_day: int,
    input_tokens_per_minute: int,
    output_tokens_per_minute: int,
    max_occupancy_share: real,
    per_model: map<string, PerModelQuota>)

  datatype WireEntry = WireEntry(
    id: string,
    key_hash: string,
    key_preview: string,
    owner: string,
    name: string,
    enabled: bool,
    expires_at: Option<Time>,
    allowed_models: seq<string>,
    quota: WireQuota)

  function ToWire(e: Entry): (w: WireEntry) {
    var q := e.quota;
    WireEntry(e.id, e.keyHash, e.keyPreview, e.owner, e.name, e.enabled, e.expiresAt, e.allowedModels,
              WireQuota(q.requestsPerMinute, q.tokensPerDay, q.inputTokensPerMinute, q.outputTokensPerMinute,
                        q.maxOccupancyShare,
                        if q.perModel.Some? && |q.perModel.value| > 0 then q.perModel.value else map[]))
  }

  function FromWire(w: WireEntry): (e: Entry) {
    var q := w.quota;
    Entry(w.id, w.key_hash, w.key_preview, w.owner, w.name, w.enabled, w.expires_at, w.allowed_models,
          Quota(q.requests_per_minute, q.tokens_per_day, q.input_tokens_per_minute, q.output_tokens_per_minute,
                q.max_occupancy_share,
                if |q.per_model| > 0 then Some(q.per_model) else None))
  }

  function LowerChar(c: char): char {
    if 'A' <= c <= 'Z' then c - 'A' + 'a' else c
  }

  function Lower(s: string): string {
    if s == "" then "" else [LowerChar(s[0])] + Lower(s[1..])
  }

  /** Lower-case hexadecimal digits only. */
  predicate AllHex(s: string) {
    s == "" || (('0' <= s[0] <= '9' || 'a' <= s[0] <= 'f') && AllHex(s[1..]))
  }

  predicate WellFormedQuota(q: Quota) {
    && 0.0 <= q.maxOccupancyShare <= 1.0
    && q.inputTokensPerMinute >= 0
    && q.outputTokensPerMinute >= 0
    && !(q.perModel.Some? && |q.perModel.value| == 0)
  }

  /** What the registry holds. */
  predicate ValidEntry(e: Entry) {
    e.id != "" && |e.keyHash| == 64 && AllHex(e.keyHash) && e.owner != "" && e.name != "" && WellFormedQuota(e.quota)
  }

  /** Lowercases the hash, then checks every field; None stands for any validation error. */
  function Normalize(e: Entry): (r: Option<Entry>)
    ensures r.Some? ==>
              ValidEntry(r.value) && r.value == e.(keyHash := r.value.keyHash) && r.value.keyHash == Lower(e.keyHash)
  {
    var n := e.(keyHash := Lower(e.keyHash));
    if ValidEntry(n) then Some(n) else None
  }

  lemma {:induction false} HexIsLower(s: string)
    requires AllHex(s)
    ensures Lower(s) == s
  {
    if s != "" { HexIsLower(s[1..]); }
  }

  /** Validation is idempotent, so an entry accepted once is never changed or refused by a later restore. */
  lemma ValidIsNormal(e: Entry)
    ensures ValidEntry(e) <==> Normalize(e) == Some(e)
  {
    if ValidEntry(e) { HexIsLower(e.keyHash); }
  }

  /**
   * The wire format loses exactly one distinction: an empty non-nil per-model map comes back as nil.
   * Validation refuses that value, so every entry the registry accepts survives the round trip.
   */
  lemma WireRoundTrip(e: Entry)
    ensures FromWire(ToWire(e)) == e <==> !(e.quota.perModel.Some? && |e.quota.perModel.value| == 0)
    ensures ValidEntry(e) ==> FromWire(ToWire(e)) == e
  {
  }
}
