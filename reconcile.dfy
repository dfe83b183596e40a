/**
 * One reconciliation pass as values: main's loop over the configured
 * records (Reconcile), the pass around it (Pass: reset the dirty flag,
 * load, reconcile, save when dirty), and what they guarantee.
 */
module Reconciler {
  import opened Wrappers
  import opened Provider
  import opened Cache

  /** What main's loop leaves: the cache, the update requests in order, and whether it ran to the end. */
  datatype Reconciled = Reconciled(cache: CacheMap, calls: seq<SetIpCall>, completed: bool)

  /** A slot keeps its record id (and an empty slot stays empty). */
  predicate KeepsId(before: Slot, after: Slot)
  {
    match before
    case None => after == before
    case Some(e) => after.Some? && after.value.id == e.id
  }

  /**
   * main's loop, record by record in configuration order: a stale entry
   * gets one update request with its cached record id and becomes
   * (current IP, same id); an empty slot (no A record was found) ends the
   * pass, as indexing None raises in the source.
   */
  function Reconcile(cache: CacheMap, cfg: seq<RecordConfig>, ip: string): (r: Reconciled)
    requires Covers(cache, cfg)
    ensures r.cache.Keys == cache.Keys
    ensures |r.calls| <= |cfg|
    decreases |cfg|
  {
    if cfg == [] then Reconciled(cache, [], true)
    else
      var rc := cfg[0];
      TailIndex(cfg);
      match cache[rc.name]
      case None => Reconciled(cache, [], false)
      case Some(e) =>
        if ip == e.ip then Reconcile(cache, cfg[1..], ip)
        else
          var rest := Reconcile(cache[rc.name := Some(Entry(ip, e.id))], cfg[1..], ip);
          rest.(calls := [SetIpCall(ip, rc.zone, e.id, rc.name)] + rest.calls)
  }

  /** The loop never changes a record id and never fills or empties a slot. */
  lemma {:induction false} ReconcileKeepsIds(cache: CacheMap, cfg: seq<RecordConfig>, ip: string)
    requires Covers(cache, cfg)
    ensures forall k :: k in cache ==> KeepsId(cache[k], Reconcile(cache, cfg, ip).cache[k])
    decreases |cfg|
  {
    if cfg != [] {
      var rc := cfg[0];
      TailIndex(cfg);
      match cache[rc.name]
      case None =>
      case Some(e) =>
        if ip == e.ip {
          ReconcileKeepsIds(cache, cfg[1..], ip);
        } else {
          var c' := cache[rc.name := Some(Entry(ip, e.id))];
          ReconcileKeepsIds(c', cfg[1..], ip);
          assert forall k :: k in cache ==> KeepsId(cache[k], c'[k]);
        }
    }
  }

  /**
   * The same loop restated over an index `i` and the requests sent so far
   * in `sent`, the shape of UpdateStale's loop invariant; it is a proof
   * device for that method, and ReconcileFromAgrees shows it computes what
   * Reconcile does.
   */
  function ReconcileFrom(cache: CacheMap, cfg: seq<RecordConfig>, i: nat, ip: string, sent: seq<SetIpCall>): (r: Reconciled)
    requires Covers(cache, cfg) && i <= |cfg|
    ensures r.cache.Keys == cache.Keys
    decreases |cfg| - i
  {
    if i == |cfg| then Reconciled(cache, sent, true)
    else
      match cache[cfg[i].name]
      case None => Reconciled(cache, sent, false)
      case Some(e) =>
        if ip == e.ip then ReconcileFrom(cache, cfg, i + 1, ip, sent)
        else ReconcileFrom(cache[cfg[i].name := Some(Entry(ip, e.id))], cfg, i + 1, ip,
                           sent + [SetIpCall(ip, cfg[i].zone, e.id, cfg[i].name)])
  }

  /** One step of the loop at index `i`: an empty slot ends it. */
  lemma StepAbort(cache: CacheMap, cfg: seq<RecordConfig>, i: nat, ip: string)
    requires Covers(cache, cfg) && i < |cfg| && cache[cfg[i].name].None?
    ensures Covers(cache, cfg[i..])
    ensures Reconcile(cache, cfg[i..], ip) == Reconciled(cache, [], false)
  {
    assert cfg[i..][0] == cfg[i];
  }

  /** One step of the loop at index `i`: an up-to-date entry is passed over. */
  lemma StepSkip(cache: CacheMap, cfg: seq<RecordConfig>, i: nat, ip: string)
    requires Covers(cache, cfg) && i < |cfg| && cache[cfg[i].name].Some? && cache[cfg[i].name].value.ip == ip
    ensures Covers(cache, cfg[i..]) && Covers(cache, cfg[i + 1..])
    ensures Reconcile(cache, cfg[i..], ip) == Reconcile(cache, cfg[i + 1..], ip)
  {
    assert cfg[i..][0] == cfg[i] && cfg[i..][1..] == cfg[i + 1..];
  }

  /** One step of the loop at index `i`: a stale entry gets one request and moves to `ip`. */
  lemma StepUpdate(cache: CacheMap, cfg: seq<RecordConfig>, i: nat, ip: string, e: Entry)
    requires Covers(cache, cfg) && i < |cfg| && cache[cfg[i].name] == Some(e) && e.ip != ip
    ensures Covers(cache, cfg[i..]) && Covers(cache[cfg[i].name := Some(Entry(ip, e.id))], cfg[i + 1..])
    ensures var r := Reconcile(cache, cfg[i..], ip);
      var rest := Reconcile(cache[cfg[i].name := Some(Entry(ip, e.id))], cfg[i + 1..], ip);
      r.cache == rest.cache && r.completed == rest.completed &&
      r.calls == [SetIpCall(ip, cfg[i].zone, e.id, cfg[i].name)] + rest.calls
  {
    assert cfg[i..][0] == cfg[i] && cfg[i..][1..] == cfg[i + 1..];
  }

  /** The loop-shaped definition gives Reconcile's result, after the requests already sent. */
  lemma {:induction false} ReconcileFromAgrees(cache: CacheMap, cfg: seq<RecordConfig>, i: nat, ip: string, sent: seq<SetIpCall>)
    requires Covers(cache, cfg) && i <= |cfg|
    ensures Covers(cache, cfg[i..])
    ensures var r := Reconcile(cache, cfg[i..], ip);
      ReconcileFrom(cache, cfg, i, ip, sent) == Reconciled(r.cache, sent + r.calls, r.completed)
    decreases |cfg| - i
  {
    if i == |cfg| {
      assert cfg[i..] == [];
    } else {
      match cache[cfg[i].name]
      case None =>
        StepAbort(cache, cfg, i, ip);
      case Some(e) =>
        if ip == e.ip {
          StepSkip(cache, cfg, i, ip);
          ReconcileFromAgrees(cache, cfg, i + 1, ip, sent);
        } else {
          var c := SetIpCall(ip, cfg[i].zone, e.id, cfg[i].name);
          StepUpdate(cache, cfg, i, ip, e);
          ReconcileFromAgrees(cache[cfg[i].name := Some(Entry(ip, e.id))], cfg, i + 1, ip, sent + [c]);
          var rest := Reconcile(cache[cfg[i].name := Some(Entry(ip, e.id))], cfg[i + 1..], ip);
          assert sent + [c] + rest.calls == sent + ([c] + rest.calls);
        }
    }
  }

  /** How many configured records, from the first, have a filled slot: the records the loop gets through. */
  function ReachedCount(cache: CacheMap, cfg: seq<RecordConfig>): (n: nat)
    requires Covers(cache, cfg)
    ensures n <= |cfg|
    ensures forall i :: 0 <= i < n ==> cache[cfg[i].name].Some?
    ensures n < |cfg| ==> cache[cfg[n].name].None?
    decreases |cfg|
  {
    if cfg == [] || cache[cfg[0].name].None? then 0
    else
      TailIndex(cfg);
      1 + ReachedCount(cache, cfg[1..])
  }

  /**
   * Reference definition of the update requests: one per configured record
   * whose slot holds an IP other than `ip`, read from the cache as it was
   * before the loop, in configuration order.
   */
  function StaleCalls(cache: CacheMap, cfg: seq<RecordConfig>, ip: string): seq<SetIpCall>
    requires Covers(cache, cfg)
    decreases |cfg|
  {
    if cfg == [] then []
    else
      TailIndex(cfg);
      var here := match cache[cfg[0].name]
        case Some(e) => if e.ip != ip then [SetIpCall(ip, cfg[0].zone, e.id, cfg[0].name)] else []
        case None => [];
      here + StaleCalls(cache, cfg[1..], ip)
  }

  /** The request main sends for the record at index `i`, given the slot it read. */
  function RequestFor(cfg: seq<RecordConfig>, i: nat, e: Entry, ip: string): SetIpCall
    requires i < |cfg|
  {
    SetIpCall(ip, cfg[i].zone, e.id, cfg[i].name)
  }

  /** A request is among the reference ones exactly when it is the request for a stale configured record. */
  lemma {:induction false} StaleCallsMembers(cache: CacheMap, cfg: seq<RecordConfig>, ip: string, c: SetIpCall)
    requires Covers(cache, cfg)
    ensures c in StaleCalls(cache, cfg, ip) <==>
      exists i :: 0 <= i < |cfg| && cache[cfg[i].name].Some? && cache[cfg[i].name].value.ip != ip &&
        c == RequestFor(cfg, i, cache[cfg[i].name].value, ip)
    decreases |cfg|
  {
    if cfg != [] {
      TailIndex(cfg);
      StaleCallsMembers(cache, cfg[1..], ip, c);
      if c in StaleCalls(cache, cfg[1..], ip) {
        var i :| 0 <= i < |cfg| - 1 && cache[cfg[1..][i].name].Some? && cache[cfg[1..][i].name].value.ip != ip &&
          c == RequestFor(cfg[1..], i, cache[cfg[1..][i].name].value, ip);
        assert c == RequestFor(cfg, i + 1, cache[cfg[i + 1].name].value, ip);
      }
    }
  }

  lemma UnconfiguredPrefix(cfg: seq<RecordConfig>, n: nat, k: string)
    requires n <= |cfg| && !Configured(cfg, k)
    ensures !Configured(cfg[..n], k)
  {
  }

  /** Changing the slot of a name that is not configured changes neither the reach nor the requests. */
  lemma {:induction false} UnconfiguredFrame(cache: CacheMap, cfg: seq<RecordConfig>, ip: string, k: string, v: Slot)
    requires Covers(cache, cfg) && !Configured(cfg, k)
    ensures Covers(cache[k := v], cfg)
    ensures ReachedCount(cache[k := v], cfg) == ReachedCount(cache, cfg)
    ensures StaleCalls(cache[k := v], cfg, ip) == StaleCalls(cache, cfg, ip)
    decreases |cfg|
  {
    if cfg != [] {
      TailFacts(cfg);
      assert cfg[0].name != k;
      TailIndex(cfg);
      UnconfiguredFrame(cache, cfg[1..], ip, k, v);
    }
  }

  /** The loop runs to the end exactly when every configured record has a filled slot. */
  lemma {:induction false} ReconcileCompletes(cache: CacheMap, cfg: seq<RecordConfig>, ip: string)
    requires Covers(cache, cfg)
    ensures Reconcile(cache, cfg, ip).completed <==> forall i :: 0 <= i < |cfg| ==> cache[cfg[i].name].Some?
    decreases |cfg|
  {
    if cfg != [] {
      var rc := cfg[0];
      TailIndex(cfg);
      match cache[rc.name]
      case None =>
      case Some(e) =>
        if ip == e.ip {
          ReconcileCompletes(cache, cfg[1..], ip);
        } else {
          var c' := cache[rc.name := Some(Entry(ip, e.id))];
          ReconcileCompletes(c', cfg[1..], ip);
          assert forall i :: 0 <= i < |cfg| - 1 ==> (c'[cfg[1..][i].name].Some? <==> cache[cfg[1..][i].name].Some?);
        }
    }
  }

  /**
   * The update requests are exactly the reference ones for the records the
   * loop reaches: one per stale record, in configuration order, each with
   * the current IP and the cached record id, and none for an up-to-date one.
   */
  lemma {:induction false} ReconcileCalls(cache: CacheMap, cfg: seq<RecordConfig>, ip: string)
    requires Covers(cache, cfg) && DistinctNames(cfg)
    ensures Reconcile(cache, cfg, ip).calls == StaleCalls(cache, cfg[..ReachedCount(cache, cfg)], ip)
    decreases |cfg|
  {
    if cfg != [] {
      var rc := cfg[0];
      TailFacts(cfg);
      TailIndex(cfg);
      match cache[rc.name]
      case None =>
      case Some(e) =>
        var n' := ReachedCount(cache, cfg[1..]);
        assert cfg[..1 + n'][1..] == cfg[1..][..n'];
        if ip == e.ip {
          ReconcileCalls(cache, cfg[1..], ip);
        } else {
          var c' := cache[rc.name := Some(Entry(ip, e.id))];
          UnconfiguredFrame(cache, cfg[1..], ip, rc.name, Some(Entry(ip, e.id)));
          ReconcileCalls(c', cfg[1..], ip);
          UnconfiguredPrefix(cfg[1..], n', rc.name);
          UnconfiguredFrame(cache, cfg[1..][..n'], ip, rc.name, Some(Entry(ip, e.id)));
        }
    }
  }

  /** After the loop every record it reaches holds the current IP with its old record id. */
  lemma {:induction false} ReconcileEntries(cache: CacheMap, cfg: seq<RecordConfig>, ip: string)
    requires Covers(cache, cfg) && DistinctNames(cfg)
    ensures var r := Reconcile(cache, cfg, ip);
      forall i :: 0 <= i < ReachedCount(cache, cfg) ==> r.cache[cfg[i].name] == Some(Entry(ip, cache[cfg[i].name].value.id))
    decreases |cfg|
  {
    if cfg != [] && cache[cfg[0].name].Some? {
      var rc, e := cfg[0], cache[cfg[0].name].value;
      TailFacts(cfg);
      TailIndex(cfg);
      var n' := ReachedCount(cache, cfg[1..]);
      var c' := if ip == e.ip then cache else cache[rc.name := Some(Entry(ip, e.id))];
      if ip != e.ip {
        UnconfiguredFrame(cache, cfg[1..], ip, rc.name, Some(Entry(ip, e.id)));
      }
      ReconcileEntries(c', cfg[1..], ip);
      ReconcileUntouched(c', cfg[1..], ip);
      UnconfiguredPrefix(cfg[1..], n', rc.name);
      var r := Reconcile(cache, cfg, ip);
      assert r.cache == Reconcile(c', cfg[1..], ip).cache;
      assert r.cache[rc.name] == Some(Entry(ip, e.id));
      forall i | 1 <= i < 1 + n'
        ensures r.cache[cfg[i].name] == Some(Entry(ip, cache[cfg[i].name].value.id))
      {
        assert cfg[1..][i - 1] == cfg[i];
        assert cfg[i].name != rc.name;
      }
    }
  }

  /** Every key the loop does not reach, configured further on or not configured at all, keeps its slot. */
  lemma {:induction false} ReconcileUntouched(cache: CacheMap, cfg: seq<RecordConfig>, ip: string)
    requires Covers(cache, cfg) && DistinctNames(cfg)
    ensures var r := Reconcile(cache, cfg, ip);
      forall k :: k in cache && !Configured(cfg[..ReachedCount(cache, cfg)], k) ==> r.cache[k] == cache[k]
    decreases |cfg|
  {
    if cfg != [] && cache[cfg[0].name].Some? {
      var rc, e := cfg[0], cache[cfg[0].name].value;
      TailIndex(cfg);
      var c' := if ip == e.ip then cache else cache[rc.name := Some(Entry(ip, e.id))];
      assert Covers(c', cfg[1..]) && ReachedCount(c', cfg[1..]) == ReachedCount(cache, cfg[1..]) by {
        TailFacts(cfg);
        if ip != e.ip {
          UnconfiguredFrame(cache, cfg[1..], ip, rc.name, Some(Entry(ip, e.id)));
        }
      }
      var n' := ReachedCount(cache, cfg[1..]);
      var n := 1 + n';
      assert n == ReachedCount(cache, cfg);
      assert DistinctNames(cfg[1..]) by { TailFacts(cfg); }
      ReconcileUntouched(c', cfg[1..], ip);
      var r := Reconcile(cache, cfg, ip);
      assert r.cache == Reconcile(c', cfg[1..], ip).cache;
      forall k | k in cache && !Configured(cfg[..n], k)
        ensures r.cache[k] == cache[k]
      {
        assert cfg[..n][1..] == cfg[1..][..n'];
        TailFacts(cfg[..n]);
        assert k != rc.name && !Configured(cfg[1..][..n'], k);
      }
    }
  }

  /** After a loop that ran to the end, every configured record holds the current IP. */
  lemma AllCurrentAfterReconcile(cache: CacheMap, cfg: seq<RecordConfig>, ip: string)
    requires Covers(cache, cfg) && DistinctNames(cfg)
    requires Reconcile(cache, cfg, ip).completed
    ensures forall i :: 0 <= i < |cfg| ==>
      Reconcile(cache, cfg, ip).cache[cfg[i].name].Some? && Reconcile(cache, cfg, ip).cache[cfg[i].name].value.ip == ip
  {
    ReconcileCompletes(cache, cfg, ip);
    ReconcileEntries(cache, cfg, ip);
  }

  /** A cache in which every configured record already holds the current IP passes through the loop untouched. */
  lemma {:induction false} QuietWhenCurrent(cache: CacheMap, cfg: seq<RecordConfig>, ip: string)
    requires Covers(cache, cfg)
    requires forall i :: 0 <= i < |cfg| ==> cache[cfg[i].name].Some? && cache[cfg[i].name].value.ip == ip
    ensures Reconcile(cache, cfg, ip) == Reconciled(cache, [], true)
    decreases |cfg|
  {
    if cfg != [] {
      TailIndex(cfg);
      QuietWhenCurrent(cache, cfg[1..], ip);
    }
  }

  /** What one run of main produces and leaves behind. */
  datatype Outcome = Outcome(
    cache: CacheMap,              // cached_ip_add at the end
    fetches: seq<RecordConfig>,   // get_ip_record requests, in order
    calls: seq<SetIpCall>,        // set_ip requests, in order
    dirty: bool,                  // cache_updated at the end
    saved: bool,                  // whether saveCache ran
    file: CacheFile,              // the cache file afterwards
    completed: bool)              // false when the pass raised at a record without an A record

  /**
   * main, given the cache it starts from: reset the dirty flag, load,
   * reconcile, and save the whole cache when dirty and the loop completed.
   */
  function Pass(cache: CacheMap, cfg: seq<RecordConfig>, file: CacheFile, listing: Listing, ip: string): (o: Outcome)
    requires Covers(cache, cfg) && DistinctNames(cfg)
    ensures cache.Keys <= o.cache.Keys && Covers(o.cache, cfg)
    ensures |o.calls| <= |cfg| && |o.fetches| <= |cfg|
    ensures o.saved <==> o.completed && (file.Unreadable? || o.calls != [])
    ensures o.saved ==> o.file == Stored(o.cache)
    ensures !o.saved ==> o.file == file
  {
    var loaded := Loaded(cache, cfg, file, listing);
    var r := Reconcile(loaded, cfg, ip);
    var dirty := file.Unreadable? || r.calls != [];
    var saved := r.completed && dirty;
    Outcome(r.cache, if file.Unreadable? then cfg else [], r.calls, dirty, saved,
            if saved then Stored(r.cache) else file, r.completed)
  }

  /**
   * When every configured record has a filled slot, the loop completes and
   * a stale record at index `i` gets its request, with its cached record
   * id, and ends with the current IP and that id.
   */
  lemma StaleRecordUpdated(cache: CacheMap, cfg: seq<RecordConfig>, ip: string, i: nat)
    requires Covers(cache, cfg) && DistinctNames(cfg) && i < |cfg|
    requires forall j :: 0 <= j < |cfg| ==> cache[cfg[j].name].Some?
    requires cache[cfg[i].name].value.ip != ip
    ensures var r := Reconcile(cache, cfg, ip); var e := cache[cfg[i].name].value;
      r.completed && SetIpCall(ip, cfg[i].zone, e.id, cfg[i].name) in r.calls &&
      r.cache[cfg[i].name] == Some(Entry(ip, e.id))
  {
    var e := cache[cfg[i].name].value;
    var r := Reconcile(cache, cfg, ip);
    assert r.completed by {
      ReconcileCompletes(cache, cfg, ip);
    }
    assert r.cache[cfg[i].name] == Some(Entry(ip, e.id)) by {
      ReconcileEntries(cache, cfg, ip);
    }
    var c := SetIpCall(ip, cfg[i].zone, e.id, cfg[i].name);
    assert c in r.calls by {
      assert ReachedCount(cache, cfg) == |cfg|;
      ReconcileCalls(cache, cfg, ip);
      assert cfg[..|cfg|] == cfg;
      assert c == RequestFor(cfg, i, e, ip);
      StaleCallsMembers(cache, cfg, ip, c);
    }
  }

  /** A fresh load of a file with filled slots fills every configured slot; one the file lacks holds the sentinel. */
  lemma FreshLoadSlots(cfg: seq<RecordConfig>, m: CacheMap, i: nat)
    requires DistinctNames(cfg) && i < |cfg|
    requires forall k :: k in m ==> m[k].Some?
    ensures var loaded := Overlay(InitialCache(cfg), m);
      Covers(loaded, cfg) && (forall j :: 0 <= j < |cfg| ==> loaded[cfg[j].name].Some?) &&
      (cfg[i].name !in m ==> loaded[cfg[i].name] == Some(Sentinel))
  {
    var init := InitialCache(cfg);
    forall j | 0 <= j < |cfg| ensures cfg[j].name in init {
      assert Configured(cfg, cfg[j].name);
    }
  }

  /**
   * A configured record that a readable file lacks keeps the sentinel, so
   * (unless the current IP is the sentinel IP) main sends an update request
   * for the all-zero record id instead of looking the record up.
   */
  lemma MissingKeyUsesSentinelId(cfg: seq<RecordConfig>, m: CacheMap, listing: Listing, ip: string, i: nat)
    requires DistinctNames(cfg) && i < |cfg|
    requires forall k :: k in m ==> m[k].Some?
    requires cfg[i].name !in m && ip != SentinelIp
    ensures var o := FreshPass(cfg, Stored(m), listing, ip);
      o.fetches == [] && o.completed && SetIpCall(ip, cfg[i].zone, SentinelId, cfg[i].name) in o.calls &&
      o.cache[cfg[i].name] == Some(Entry(ip, SentinelId))
  {
    FreshLoadSlots(cfg, m, i);
    StaleRecordUpdated(Overlay(InitialCache(cfg), m), cfg, ip, i);
  }

  /**
   * Two configured records, both cached with an IP other than the current
   * one: two update requests in configuration order with the cached record
   * ids, both entries moved to the current IP, and one save.
   */
  lemma TwoStaleRecords(a: string, b: string, za: string, zb: string, ia: string, ib: string,
                        ra: string, rb: string, ip: string, listing: Listing)
    requires a != b && ia != ip && ib != ip
    ensures var cfg := [RecordConfig(a, za), RecordConfig(b, zb)];
      var o := FreshPass(cfg, Stored(map[a := Some(Entry(ia, ra)), b := Some(Entry(ib, rb))]), listing, ip);
      o.calls == [SetIpCall(ip, za, ra, a), SetIpCall(ip, zb, rb, b)] &&
      o.cache == map[a := Some(Entry(ip, ra)), b := Some(Entry(ip, rb))] &&
      o.completed && o.saved && o.file == Stored(o.cache) && o.fetches == []
  {
    var cfg := [RecordConfig(a, za), RecordConfig(b, zb)];
    var m := map[a := Some(Entry(ia, ra)), b := Some(Entry(ib, rb))];
    var init := InitialCache(cfg);
    assert Overlay(init, m) == m by {
      forall k | k in init ensures k in m {
        var i :| 0 <= i < |cfg| && cfg[i].name == k;
      }
    }
    var c1 := m[a := Some(Entry(ip, ra))];
    var c2 := c1[b := Some(Entry(ip, rb))];
    assert c2 == map[a := Some(Entry(ip, ra)), b := Some(Entry(ip, rb))];
    assert Reconcile(c2, cfg[1..][1..], ip) == Reconciled(c2, [], true) by {
      assert cfg[1..][1..] == [];
    }
    assert Reconcile(c1, cfg[1..], ip) == Reconciled(c2, [SetIpCall(ip, zb, rb, b)], true);
    assert Reconcile(m, cfg, ip) == Reconciled(c2, [SetIpCall(ip, za, ra, a), SetIpCall(ip, zb, rb, b)], true);
  }

  /** The same with the record names, zones, record ids and addresses of a worked example. */
  lemma TwoRecordScenario(listing: Listing)
    ensures var cfg := [RecordConfig("a.example.com", "zoneA"), RecordConfig("b.example.com", "zoneB")];
      var m := map["a.example.com" := Some(Entry("1.2.3.4", "ridA")), "b.example.com" := Some(Entry("5.6.7.8", "ridB"))];
      var o := FreshPass(cfg, Stored(m), listing, "9.9.9.9");
      o.calls == [SetIpCall("9.9.9.9", "zoneA", "ridA", "a.example.com"), SetIpCall("9.9.9.9", "zoneB", "ridB", "b.example.com")] &&
      o.cache == map["a.example.com" := Some(Entry("9.9.9.9", "ridA")), "b.example.com" := Some(Entry("9.9.9.9", "ridB"))] &&
      o.completed && o.saved && o.file == Stored(o.cache) && o.fetches == []
  {
    assert "a.example.com"[0] != "b.example.com"[0];
    assert "1.2.3.4"[0] != "9.9.9.9"[0] && "5.6.7.8"[0] != "9.9.9.9"[0];
    TwoStaleRecords("a.example.com", "b.example.com", "zoneA", "zoneB", "1.2.3.4", "5.6.7.8", "ridA", "ridB", "9.9.9.9", listing);
  }

  /** A fresh process: the sentinel cache for the configuration, then main. */
  function FreshPass(cfg: seq<RecordConfig>, file: CacheFile, listing: Listing, ip: string): (o: Outcome)
    requires DistinctNames(cfg)
    ensures Covers(o.cache, cfg)
    ensures file.Stored? ==> file.entries.Keys <= o.cache.Keys
  {
    Pass(InitialCache(cfg), cfg, file, listing, ip)
  }

  /**
   * The file is written exactly when the pass completed and either some
   * record was updated or the cache had to be rediscovered; a readable
   * file with nothing stale is left alone. A written file holds the final
   * cache, in which every configured record holds the current IP. The
   * first three facts follow from Pass's definition; that the script's
   * own handling of cache_updated and saveCache obeys them is
   * Ddns.Updater.RunOnce's contract, which ties the method to Pass. The
   * last fact takes the loop lemmas.
   */
  lemma PassSaves(cache: CacheMap, cfg: seq<RecordConfig>, file: CacheFile, listing: Listing, ip: string)
    requires Covers(cache, cfg) && DistinctNames(cfg)
    ensures var o := Pass(cache, cfg, file, listing, ip);
      (o.saved <==> o.completed && (file.Unreadable? || o.calls != [])) &&
      (o.saved ==> o.file == Stored(o.cache)) &&
      (!o.saved ==> o.file == file) &&
      (o.completed ==> forall i :: 0 <= i < |cfg| ==> o.cache[cfg[i].name].Some? && o.cache[cfg[i].name].value.ip == ip)
  {
    var loaded := Loaded(cache, cfg, file, listing);
    if Reconcile(loaded, cfg, ip).completed {
      AllCurrentAfterReconcile(loaded, cfg, ip);
    }
  }

  /**
   * An unreadable file costs one lookup per configured record, in
   * configuration order, and the pass is dirty; every configured record
   * with an A record is then reconciled from the looked-up entry.
   */
  lemma RediscoveryPass(cache: CacheMap, cfg: seq<RecordConfig>, listing: Listing, ip: string)
    requires Covers(cache, cfg) && DistinctNames(cfg)
    ensures var o := Pass(cache, cfg, Unreadable, listing, ip);
      o.fetches == cfg && o.dirty &&
      (o.completed <==> forall i :: 0 <= i < |cfg| ==> FirstA(listing(cfg[i].zone)).Some?) &&
      (o.completed ==> o.saved && forall i :: 0 <= i < |cfg| ==>
         o.cache[cfg[i].name] == Some(Entry(ip, FirstA(listing(cfg[i].zone)).value.id)))
  {
    var loaded := Rediscover(cache, cfg, 0, listing);
    RediscoverSpec(cache, cfg, 0, listing);
    ReconcileCompletes(loaded, cfg, ip);
    ReconcileEntries(loaded, cfg, ip);
  }

  /** Loading a file that holds a cache covering the configuration gives back exactly that cache. */
  lemma LoadAfterSave(cfg: seq<RecordConfig>, c: CacheMap)
    requires Covers(c, cfg)
    ensures Overlay(InitialCache(cfg), c) == c
  {
    var init := InitialCache(cfg);
    forall k | k in init ensures k in c {
      var i :| 0 <= i < |cfg| && cfg[i].name == k;
    }
  }

  /**
   * Idempotence: after a completed fresh run, a second fresh run with the
   * same current IP (whatever the provider now lists) reads the file it
   * left, makes no lookup and no update request, does not write the file,
   * and ends with the same cache.
   */
  lemma SecondPassIsQuiet(cfg: seq<RecordConfig>, file: CacheFile, listing: Listing, listing2: Listing, ip: string)
    requires DistinctNames(cfg)
    requires FreshPass(cfg, file, listing, ip).completed
    ensures var first := FreshPass(cfg, file, listing, ip);
      var second := FreshPass(cfg, first.file, listing2, ip);
      second.completed && second.fetches == [] && second.calls == [] && !second.dirty && !second.saved &&
      second.file == first.file && second.cache == first.cache
  {
    var init := InitialCache(cfg);
    var first := FreshPass(cfg, file, listing, ip);
    PassSaves(init, cfg, file, listing, ip);
    if first.saved {
      var r := Reconcile(Loaded(init, cfg, file, listing), cfg, ip);
      assert first.file == Stored(r.cache) && first.cache == r.cache;
      LoadAfterSave(cfg, r.cache);
      QuietWhenCurrent(r.cache, cfg, ip);
    } else {
      assert first.file == file && file.Stored?;
      assert Loaded(init, cfg, file, listing2) == Loaded(init, cfg, file, listing);
    }
  }
}
