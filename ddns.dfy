/**
 * The updater script as a state machine: its globals become the fields of
 * an Updater object (the configuration, the cache dictionary, the dirty
 * flag), the cache file and the provider's request log become fields the
 * methods write, and each method is proved to do what the matching value
 * function of modules Cache and Reconciler says.
 */
module Ddns {
  import opened Wrappers
  import opened Provider
  import opened Cache
  import opened Reconciler

  class Updater {
    /** zone_ids: record name to zone id, in dictionary order. */
    const config: seq<RecordConfig>
    /** cached_ip_add: record name to the last known (IP, record id). */
    var cachedIpAdd: CacheMap
    /** cache_updated: whether the cache must be written back. */
    var cacheUpdated: bool
    /** The cache file on disk. */
    var cacheFile: CacheFile
    /** The record-list requests sent to the provider, in order. */
    var fetchLog: seq<RecordConfig>
    /** The update requests sent to the provider, in order. */
    var setIpLog: seq<SetIpCall>

    /** Every configured name has a slot, and names are unique. */
    ghost predicate Valid()
      reads this
    {
      DistinctNames(config) && Covers(cachedIpAdd, config)
    }

    /** Process start: every configured record name gets the sentinel entry. */
    constructor (config: seq<RecordConfig>, file: CacheFile)
      requires DistinctNames(config)
      ensures Valid()
      ensures this.config == config && cachedIpAdd == InitialCache(config)
      ensures cacheFile == file && fetchLog == [] && setIpLog == [] && !cacheUpdated
    {
      this.config := config;
      cacheFile := file;
      fetchLog, setIpLog := [], [];
      cacheUpdated := false;
      var cache: CacheMap := map[];
      var i := 0;
      while i < |config|
        invariant 0 <= i <= |config|
        invariant forall k :: k in cache <==> Configured(config[..i], k)
        invariant forall k :: k in cache ==> cache[k] == Some(Sentinel)
      {
        TailFactsFront(config, i + 1);
        cache := cache[config[i].name := Some(Sentinel)];
        i := i + 1;
      }
      assert config[..i] == config;
      cachedIpAdd := cache;
      forall j | 0 <= j < |config| ensures config[j].name in cache {
        assert Configured(config, config[j].name);
      }
    }

    /** saveCache: the file afterwards holds the whole cache. */
    method SaveCache()
      modifies this`cacheFile
      ensures cacheFile == Stored(cachedIpAdd)
    {
      cacheFile := Stored(cachedIpAdd);
    }

    /** set_ip: one update request to the provider; its answer is not inspected. */
    method SetIp(currentIp: string, zoneId: string, recordId: string, recordName: string)
      modifies this`setIpLog
      ensures setIpLog == old(setIpLog) + [SetIpCall(currentIp, zoneId, recordId, recordName)]
    {
      setIpLog := setIpLog + [SetIpCall(currentIp, zoneId, recordId, recordName)];
    }

    /**
     * loadCache: overlay a readable file key by key; otherwise look every
     * configured record up, in configuration order, and mark the cache dirty.
     */
    method LoadCache(listing: Listing)
      requires Valid()
      modifies this`cachedIpAdd, this`cacheUpdated, this`fetchLog
      ensures Valid()
      ensures cachedIpAdd == Loaded(old(cachedIpAdd), config, cacheFile, listing)
      ensures cacheUpdated == (old(cacheUpdated) || cacheFile.Unreadable?)
      ensures fetchLog == old(fetchLog) + (if cacheFile.Unreadable? then config else [])
    {
      match cacheFile
      case Stored(stored) =>
        OverlayStored(stored);
      case Unreadable =>
        RediscoverAll(listing);
        cacheUpdated := true;
    }

    /** The success path of loadCache: each stored key overwrites its slot. */
    method OverlayStored(stored: CacheMap)
      requires Valid()
      modifies this`cachedIpAdd
      ensures Valid()
      ensures cachedIpAdd == Overlay(old(cachedIpAdd), stored)
    {
      var keys := stored.Keys;
      while keys != {}
        invariant keys <= stored.Keys
        invariant cachedIpAdd.Keys == old(cachedIpAdd).Keys + (stored.Keys - keys)
        invariant forall k :: k in stored && k !in keys ==> cachedIpAdd[k] == stored[k]
        invariant forall k :: k in old(cachedIpAdd) && (k !in stored || k in keys) ==> cachedIpAdd[k] == old(cachedIpAdd)[k]
        decreases keys
      {
        var key :| key in keys;
        cachedIpAdd := cachedIpAdd[key := stored[key]];
        keys := keys - {key};
      }
    }

    /** The failure path of loadCache: one get_ip_record per configured record, in order. */
    method RediscoverAll(listing: Listing)
      requires Valid()
      modifies this`cachedIpAdd, this`fetchLog
      ensures Valid()
      ensures cachedIpAdd == Rediscover(old(cachedIpAdd), config, 0, listing)
      ensures fetchLog == old(fetchLog) + config
    {
      var i := 0;
      while i < |config|
        invariant 0 <= i <= |config|
        invariant cachedIpAdd.Keys == old(cachedIpAdd).Keys
        invariant Rediscover(old(cachedIpAdd), config, 0, listing) == Rediscover(cachedIpAdd, config, i, listing)
        invariant fetchLog == old(fetchLog) + config[..i]
      {
        PrefixSnoc(config, i);
        var currentIpRecord := GetIpRecord(listing(config[i].zone));
        fetchLog := fetchLog + [config[i]];
        cachedIpAdd := cachedIpAdd[config[i].name := currentIpRecord];
        i := i + 1;
      }
      assert config[..i] == config;
    }

    /**
     * main: reset the dirty flag, load the cache, send one update request
     * per stale record and move it to the current IP, then save if dirty.
     * Returns false when the pass raises at a record whose slot is empty;
     * the requests sent before that point stay sent and nothing is saved.
     */
    method RunOnce(currentIp: string, listing: Listing) returns (completed: bool)
      requires Valid()
      modifies this`cachedIpAdd, this`cacheUpdated, this`fetchLog, this`setIpLog, this`cacheFile
      ensures Valid()
      ensures var o := Pass(old(cachedIpAdd), config, old(cacheFile), listing, currentIp);
        completed == o.completed && cachedIpAdd == o.cache && cacheUpdated == o.dirty &&
        fetchLog == old(fetchLog) + o.fetches && setIpLog == old(setIpLog) + o.calls && cacheFile == o.file
    {
      cacheUpdated := false;
      LoadCache(listing);
      completed := UpdateStale(currentIp);
      if !completed {
        return;
      }
      if cacheUpdated {
        SaveCache();
      }
    }

    /**
     * main's loop over the configured records, in order: a stale entry gets
     * one set_ip with its cached record id and becomes (current IP, same id);
     * an empty slot raises and ends the loop there.
     */
    method UpdateStale(currentIp: string) returns (completed: bool)
      requires Valid()
      modifies this`cachedIpAdd, this`cacheUpdated, this`setIpLog
      ensures Valid()
      ensures var r := Reconcile(old(cachedIpAdd), config, currentIp);
        completed == r.completed && cachedIpAdd == r.cache &&
        setIpLog == old(setIpLog) + r.calls && cacheUpdated == (old(cacheUpdated) || r.calls != [])
    {
      var i := 0;
      ghost var done: seq<SetIpCall> := [];
      ghost var whole := ReconcileFrom(cachedIpAdd, config, 0, currentIp, []);
      while i < |config|
        invariant 0 <= i <= |config|
        invariant cachedIpAdd.Keys == old(cachedIpAdd).Keys
        invariant setIpLog == old(setIpLog) + done
        invariant whole == ReconcileFrom(cachedIpAdd, config, i, currentIp, done)
        invariant cacheUpdated == (old(cacheUpdated) || done != [])
      {
        var recordName, zoneId := config[i].name, config[i].zone;
        match cachedIpAdd[recordName]
        case None =>
          break;
        case Some(entry) =>
          if currentIp != entry.ip {
            var recordId := entry.id;
            SetIp(currentIp, zoneId, recordId, recordName);
            done := done + [SetIpCall(currentIp, zoneId, recordId, recordName)];
            cachedIpAdd := cachedIpAdd[recordName := Some(Entry(currentIp, entry.id))];
            cacheUpdated := true;
          }
        i := i + 1;
      }
      completed := i == |config|;
      ReconcileFromAgrees(old(cachedIpAdd), config, 0, currentIp, []);
      assert config[0..] == config;
    }
  }
}
