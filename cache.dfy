/**
 * The reconciliation cache: a map from record name to what get_ip_record
 * last reported for it, the sentinel every configured name starts with,
 * and the two ways loadCache fills it.
 */
module Cache {
  import opened Wrappers
  import opened Provider

  /** One configured record: its name and the zone id it lives in (a pair of the zone_ids dictionary). */
  datatype RecordConfig = RecordConfig(name: string, zone: string)

  /** A cache slot holds an entry, or nothing when get_ip_record found no A record. */
  type Slot = Option<Entry>

  type CacheMap = map<string, Slot>

  /** The cache file: unreadable (absent, corrupt, not a mapping) or a stored mapping. */
  datatype CacheFile = Unreadable | Stored(entries: CacheMap)

  const SentinelIp: string := "0.0.0.0"
  const SentinelId: string := "00000000000000000000000000000000"

  /** The entry every configured name has before the cache file is read. */
  const Sentinel: Entry := Entry(SentinelIp, SentinelId)

  /** Record names are dictionary keys, so no two configured records share a name. */
  predicate DistinctNames(cfg: seq<RecordConfig>)
  {
    forall i, j :: 0 <= i < j < |cfg| ==> cfg[i].name != cfg[j].name
  }

  predicate Configured(cfg: seq<RecordConfig>, k: string)
  {
    exists i :: 0 <= i < |cfg| && cfg[i].name == k
  }

  /** Every configured name has a slot. */
  predicate Covers(cache: CacheMap, cfg: seq<RecordConfig>)
  {
    forall i :: 0 <= i < |cfg| ==> cfg[i].name in cache
  }

  /** The tail of a non-empty configuration, index by index. */
  lemma TailIndex(cfg: seq<RecordConfig>)
    requires cfg != []
    ensures forall i :: 0 <= i < |cfg| - 1 ==> cfg[1..][i] == cfg[i + 1]
  {
  }

  /** How the configured names of a non-empty configuration split into its head and its tail. */
  lemma TailFacts(cfg: seq<RecordConfig>)
    requires cfg != []
    ensures forall k :: Configured(cfg, k) <==> k == cfg[0].name || Configured(cfg[1..], k)
    ensures DistinctNames(cfg) ==> DistinctNames(cfg[1..]) && !Configured(cfg[1..], cfg[0].name)
  {
    forall k | Configured(cfg, k)
      ensures k == cfg[0].name || Configured(cfg[1..], k)
    {
      var i :| 0 <= i < |cfg| && cfg[i].name == k;
      if i > 0 { assert cfg[1..][i - 1].name == k; }
    }
    forall k | Configured(cfg[1..], k)
      ensures Configured(cfg, k)
    {
      var i :| 0 <= i < |cfg[1..]| && cfg[1..][i].name == k;
      assert cfg[i + 1].name == k;
    }
  }

  /** The configured names of a prefix grow by one name at a time. */
  lemma TailFactsFront(cfg: seq<RecordConfig>, n: nat)
    requires 0 < n <= |cfg|
    ensures forall k :: Configured(cfg[..n], k) <==> k == cfg[n - 1].name || Configured(cfg[..n - 1], k)
  {
    forall k | Configured(cfg[..n], k)
      ensures k == cfg[n - 1].name || Configured(cfg[..n - 1], k)
    {
      var i :| 0 <= i < n && cfg[..n][i].name == k;
      if i < n - 1 { assert cfg[..n - 1][i].name == k; }
    }
    forall k | Configured(cfg[..n - 1], k)
      ensures Configured(cfg[..n], k)
    {
      var i :| 0 <= i < n - 1 && cfg[..n - 1][i].name == k;
      assert cfg[..n][i].name == k;
    }
    assert cfg[..n][n - 1] == cfg[n - 1];
  }

  /** The cache before loading: the sentinel for every configured name and no other key. */
  function InitialCache(cfg: seq<RecordConfig>): (c: CacheMap)
    ensures forall k :: k in c <==> Configured(cfg, k)
    ensures forall k :: k in c ==> c[k] == Some(Sentinel)
  {
    if cfg == [] then map[]
    else
      var front := cfg[..|cfg| - 1];
      assert forall i :: 0 <= i < |front| ==> front[i] == cfg[i];
      InitialCache(front)[cfg[|cfg| - 1].name := Some(Sentinel)]
  }

  /**
   * A successful load: every stored key overwrites its slot, configured
   * keys the file lacks keep what they had and stored keys that are not
   * configured are added.
   */
  function Overlay(cache: CacheMap, stored: CacheMap): (r: CacheMap)
    ensures r.Keys == cache.Keys + stored.Keys
    ensures forall k :: k in stored ==> r[k] == stored[k]
    ensures forall k :: k in cache && k !in stored ==> r[k] == cache[k]
  {
    cache + stored
  }

  /**
   * A failed load: every configured record from index `from` on is looked
   * up again, in configuration order, and its slot becomes what that
   * lookup found; no other slot changes.
   */
  function Rediscover(cache: CacheMap, cfg: seq<RecordConfig>, from: nat, listing: Listing): (r: CacheMap)
    requires DistinctNames(cfg) && Covers(cache, cfg) && from <= |cfg|
    ensures r.Keys == cache.Keys
    decreases |cfg| - from
  {
    if from == |cfg| then cache
    else Rediscover(cache[cfg[from].name := FirstA(listing(cfg[from].zone))], cfg, from + 1, listing)
  }

  /**
   * After rediscovery every configured record from `from` on holds what its
   * lookup found, and every other key keeps its slot.
   */
  lemma {:induction false} RediscoverSpec(cache: CacheMap, cfg: seq<RecordConfig>, from: nat, listing: Listing)
    requires DistinctNames(cfg) && Covers(cache, cfg) && from <= |cfg|
    ensures var r := Rediscover(cache, cfg, from, listing);
      (forall j :: from <= j < |cfg| ==> r[cfg[j].name] == FirstA(listing(cfg[j].zone))) &&
      (forall k :: k in cache && (forall j :: from <= j < |cfg| ==> cfg[j].name != k) ==> r[k] == cache[k])
    decreases |cfg| - from
  {
    if from < |cfg| {
      var c := cache[cfg[from].name := FirstA(listing(cfg[from].zone))];
      RediscoverSpec(c, cfg, from + 1, listing);
      assert forall j :: from < j < |cfg| ==> cfg[j].name != cfg[from].name;
    }
  }

  lemma PrefixSnoc(cfg: seq<RecordConfig>, n: nat)
    requires n < |cfg|
    ensures cfg[..n + 1] == cfg[..n] + [cfg[n]]
  {
  }

  /** The cache after loadCache, for a readable or an unreadable file. */
  function Loaded(cache: CacheMap, cfg: seq<RecordConfig>, file: CacheFile, listing: Listing): (r: CacheMap)
    requires DistinctNames(cfg) && Covers(cache, cfg)
    ensures cache.Keys <= r.Keys
  {
    match file
    case Stored(m) => Overlay(cache, m)
    case Unreadable => Rediscover(cache, cfg, 0, listing)
  }
}
