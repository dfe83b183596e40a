/**
 * The load the script's docstring describes, beside the one its code
 * performs: a readable cache file is overlaid and then every configured
 * record the file lacks is looked up at the provider, in configuration
 * order, before main's loop runs. An unreadable file is handled as before.
 */
module Backfill {
  import opened Wrappers
  import opened Provider
  import opened Cache
  import opened Reconciler

  /** The configured records whose names a stored mapping lacks, in configuration order. */
  function Missing(cfg: seq<RecordConfig>, stored: CacheMap): (r: seq<RecordConfig>)
    ensures |r| <= |cfg|
    ensures forall rc :: rc in r <==> rc in cfg && rc.name !in stored
  {
    if cfg == [] then []
    else if cfg[0].name in stored then Missing(cfg[1..], stored)
    else [cfg[0]] + Missing(cfg[1..], stored)
  }

  /** Picking records out of a configuration keeps their names distinct. */
  lemma {:induction false} MissingDistinct(cfg: seq<RecordConfig>, stored: CacheMap)
    requires DistinctNames(cfg)
    ensures DistinctNames(Missing(cfg, stored))
  {
    if cfg != [] {
      TailFacts(cfg);
      MissingDistinct(cfg[1..], stored);
      var rest := Missing(cfg[1..], stored);
      if cfg[0].name !in stored {
        forall j | 0 <= j < |rest| ensures rest[j].name != cfg[0].name {
          assert rest[j] in cfg[1..];
          var i :| 0 <= i < |cfg[1..]| && cfg[1..][i] == rest[j];
          assert Configured(cfg[1..], rest[j].name);
        }
        var r := [cfg[0]] + rest;
        assert forall j :: 0 < j < |r| ==> r[j] == rest[j - 1];
      }
    }
  }

  /** A cache with a slot for every configured name has one for every missing record. */
  lemma MissingCovered(cache: CacheMap, cfg: seq<RecordConfig>, stored: CacheMap)
    requires Covers(cache, cfg)
    ensures Covers(cache, Missing(cfg, stored))
  {
    var r := Missing(cfg, stored);
    forall j | 0 <= j < |r| ensures r[j].name in cache {
      assert r[j] in cfg;
      var i :| 0 <= i < |cfg| && cfg[i] == r[j];
    }
  }

  /** loadCache as documented: overlay a readable file, then look up what it lacks. */
  function LoadedBackfilled(cache: CacheMap, cfg: seq<RecordConfig>, file: CacheFile, listing: Listing): (r: CacheMap)
    requires DistinctNames(cfg) && Covers(cache, cfg)
    ensures cache.Keys <= r.Keys && Covers(r, cfg)
  {
    match file
    case Unreadable => Rediscover(cache, cfg, 0, listing)
    case Stored(m) =>
      MissingDistinct(cfg, m);
      MissingCovered(Overlay(cache, m), cfg, m);
      Rediscover(Overlay(cache, m), Missing(cfg, m), 0, listing)
  }

  /**
   * main with the documented load: the lookups are those of the load, and
   * a pass that looked anything up is dirty, so the back-filled entries
   * are written back when the loop completes.
   */
  function PassBackfilled(cache: CacheMap, cfg: seq<RecordConfig>, file: CacheFile, listing: Listing, ip: string): (o: Outcome)
    requires Covers(cache, cfg) && DistinctNames(cfg)
    ensures Covers(o.cache, cfg)
    ensures o.saved ==> o.file == Stored(o.cache)
    ensures !o.saved ==> o.file == file
  {
    var loaded := LoadedBackfilled(cache, cfg, file, listing);
    var fetches := match file
      case Unreadable => cfg
      case Stored(m) => Missing(cfg, m);
    var r := Reconcile(loaded, cfg, ip);
    var dirty := file.Unreadable? || fetches != [] || r.calls != [];
    var saved := r.completed && dirty;
    Outcome(r.cache, fetches, r.calls, dirty, saved, if saved then Stored(r.cache) else file, r.completed)
  }

  /**
   * With a readable file, the documented load looks up exactly the
   * configured records the file lacks, each once, and any such lookup
   * makes the pass dirty.
   */
  lemma BackfillLookups(cache: CacheMap, cfg: seq<RecordConfig>, m: CacheMap, listing: Listing, ip: string)
    requires Covers(cache, cfg) && DistinctNames(cfg)
    ensures var o := PassBackfilled(cache, cfg, Stored(m), listing, ip);
      (forall rc :: rc in o.fetches <==> rc in cfg && rc.name !in m) &&
      DistinctNames(o.fetches) &&
      (o.fetches != [] ==> o.dirty)
  {
    MissingDistinct(cfg, m);
  }

  /** After the documented load of a readable file, a configured record holds the stored slot, or its lookup. */
  lemma BackfilledSlots(cache: CacheMap, cfg: seq<RecordConfig>, m: CacheMap, listing: Listing)
    requires DistinctNames(cfg) && Covers(cache, cfg)
    ensures var loaded := LoadedBackfilled(cache, cfg, Stored(m), listing);
      forall i :: 0 <= i < |cfg| ==>
        loaded[cfg[i].name] == (if cfg[i].name in m then m[cfg[i].name] else FirstA(listing(cfg[i].zone)))
  {
    var ov := Overlay(cache, m);
    var miss := Missing(cfg, m);
    MissingDistinct(cfg, m);
    MissingCovered(ov, cfg, m);
    var loaded := Rediscover(ov, miss, 0, listing);
    RediscoverSpec(ov, miss, 0, listing);
    forall i | 0 <= i < |cfg|
      ensures loaded[cfg[i].name] == (if cfg[i].name in m then m[cfg[i].name] else FirstA(listing(cfg[i].zone)))
    {
      var k := cfg[i].name;
      if k in m {
        forall j | 0 <= j < |miss| ensures miss[j].name != k {
          assert miss[j] in miss;
        }
      } else {
        assert cfg[i] in miss;
        var j :| 0 <= j < |miss| && miss[j] == cfg[i];
      }
    }
  }

  /**
   * After a completed pass with the documented load, a configured record
   * holds the all-zero record id only when its zone's first A record
   * really has that id (given a file that does not hold it): the sentinel
   * id never reaches an update request, whatever the cache held before.
   */
  lemma BackfillNoSentinelId(cache: CacheMap, cfg: seq<RecordConfig>, m: CacheMap, listing: Listing, ip: string)
    requires DistinctNames(cfg) && Covers(cache, cfg)
    requires forall k :: k in m && m[k].Some? ==> m[k].value.id != SentinelId
    requires PassBackfilled(cache, cfg, Stored(m), listing, ip).completed
    ensures var o := PassBackfilled(cache, cfg, Stored(m), listing, ip);
      forall i :: 0 <= i < |cfg| ==>
        (o.cache[cfg[i].name].Some? &&
         (o.cache[cfg[i].name].value.id == SentinelId ==>
            cfg[i].name !in m && FirstA(listing(cfg[i].zone)).Some? && FirstA(listing(cfg[i].zone)).value.id == SentinelId))
  {
    var loaded := LoadedBackfilled(cache, cfg, Stored(m), listing);
    BackfilledSlots(cache, cfg, m, listing);
    ReconcileCompletes(loaded, cfg, ip);
    ReconcileEntries(loaded, cfg, ip);
  }
}
