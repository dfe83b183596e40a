# CloudflareDDNS reconciliation core in Dafny

This project models the state-keeping core of `ddns.py`, a script that keeps
a set of Cloudflare DNS A records pointing at the public IP address of the
machine that runs it. The script keeps a cache dictionary `cached_ip_add`.
It maps each configured record name to the last known (IP, record id) pair,
and every configured name starts with the sentinel `('0.0.0.0', 32 zeros)`.
`loadCache` fills the cache from a pickled file. If the file cannot be read,
it asks the provider for each record's first A record instead. `main` then
walks the configured records in order, sends one `set_ip` request for each
record whose cached IP differs from the current IP, and writes the cache back
when something changed.

Modules:

- `Wrappers`: the `Option` type.
- `Provider`: a zone's record list, the "first A record" scan of
  `get_ip_record` (the `FirstA` function and the `GetIpRecord` loop), and the
  update request value `SetIpCall`.
- `Cache`: the configuration, the sentinel cache `InitialCache`, and the two
  load paths `Overlay` (readable file) and `Rediscover` (unreadable file).
- `Reconciler`: main's loop as a value function `Reconcile`, the whole run
  `Pass`, and the lemmas about them. `ReconcileFrom` is the loop's
  index-and-accumulator shape.
- `Backfill`: the load the docstring describes (a readable file, then a
  lookup for every configured record it lacks), and what it guarantees.
- `Ddns`: class `Updater`, whose fields are the script's globals (`zone_ids`,
  `cached_ip_add`, `cache_updated`), the cache file and the logs of requests
  sent to the provider. Each method is proved to leave the state that the
  matching value function describes.

Entries are modelled as `Option<Entry>`. `get_ip_record` returns `None` when
a zone has no A record, and the unreadable-file path stores that `None` in
the cache. main then indexes it (`cached_ip_add[name][0]`), which raises.
The model treats this as the run ending at that record: the requests sent
before it stay sent, the cache keeps the updates made so far, and nothing is
saved (`completed == false`).

The module docstring says a record added to the configuration but missing
from a readable cache file is looked up at the provider. The code does not
do this. The overlay keeps the sentinel for such a record, so main sends
`set_ip` with the all-zero record id. The model follows the code, and
`Reconciler.MissingKeyUsesSentinelId` states the consequence. Module
`Backfill` models the documented behaviour beside it (see "## Findings").

## Model

| member | source | states |
|---|---|---|
| Provider.FirstA | ddns.py:160-162 | the scan's result (content and id of the first record with type "A", or nothing); a result it returns is the content and id of some A record of the zone |
| Provider.FirstAIsFirst | ddns.py:160-162 | the scan finds nothing exactly when no record has type "A"; otherwise it returns the content and id of the first record with type "A" |
| Provider.FirstAAt | ddns.py:160-162 | any index holding the first A record is the one whose (content, id) the scan returns |
| Provider.GetIpRecord | ddns.py:160-162 | the index loop returns the first A record's (content, id), or nothing when there is none |
| Cache.InitialCache | ddns.py:73-76 | the initial cache has exactly one key per configured record name, and each key holds the sentinel ('0.0.0.0', 32 zeros) |
| Cache.Overlay | ddns.py:97-98 | after loading, the keys are the old keys plus the stored keys; a stored key takes the stored value; any other key keeps its value |
| Cache.Rediscover | ddns.py:100-102 | rediscovery neither adds nor removes a key |
| Cache.RediscoverSpec | ddns.py:100-102 | after rediscovery, each configured record holds its zone's first A record (or nothing); every other key keeps its slot |
| Cache.Loaded | ddns.py:94-102 | loading only adds keys: every key of the cache before loading is still present |
| Reconciler.Reconcile | ddns.py:173-178 | the loop keeps the key set and sends no more requests than there are configured records (which requests they are: ReconcileCalls) |
| Reconciler.ReconcileKeepsIds | ddns.py:175-177 | the loop never changes a record id, never fills an empty slot and never empties a filled one |
| Reconciler.ReconcileFrom | ddns.py:173-178 | the loop in its index-and-accumulator form keeps the key set |
| Reconciler.ReconcileFromAgrees | ddns.py:173-178 | the index form, started after requests `sent`, yields Reconcile's cache and completion, with `sent` followed by Reconcile's requests |
| Reconciler.ReachedCount | ddns.py:173-174 | counts the records the loop handles before it stops at an empty slot; the count is at most the number of configured records |
| Reconciler.StaleCallsMembers | ddns.py:174-176 | a request is in the reference list exactly when it names a configured record whose entry is stale, with that record's zone, cached id and name |
| Reconciler.ReconcileCompletes | ddns.py:173-174 | the loop runs to the end exactly when every configured record has a filled slot |
| Reconciler.ReconcileCalls | ddns.py:173-176 | the requests sent are, in configuration order, one per stale record among those reached, with the cached record id |
| Reconciler.ReconcileEntries | ddns.py:177 | each reached record ends with (current IP, its cached record id) |
| Reconciler.ReconcileUntouched | ddns.py:173-178 | a key the loop does not reach keeps its slot, whether it is configured later or not configured at all |
| Reconciler.AllCurrentAfterReconcile | ddns.py:173-178 | after a loop that ran to the end, every configured record holds the current IP |
| Reconciler.QuietWhenCurrent | ddns.py:174 | when every configured record already holds the current IP, the loop sends nothing and changes nothing |
| Reconciler.StaleRecordUpdated | ddns.py:174-177 | with all slots filled, a stale record gets its request with its cached id and ends with the current IP |
| Reconciler.FreshLoadSlots | ddns.py:73-76 | when the stored slots are all filled, a fresh load fills every configured slot, and a configured name missing from the file keeps the sentinel |
| Reconciler.MissingKeyUsesSentinelId | ddns.py:97-98 | a configured record missing from a readable file is not looked up (the run makes no lookup at all) and gets an update request for the all-zero record id |
| Reconciler.TwoStaleRecords | ddns.py:173-181 | two stale records produce two requests in configuration order with the cached ids, both entries move to the current IP, and the file is saved with the new cache and no lookup |
| Reconciler.TwoRecordScenario | ddns.py:173-181 | the same outcome for concrete names, zones, ids and addresses |
| Reconciler.Pass | ddns.py:165-181 | one run of main from a given cache: load, loop, save; the cache only gains keys and covers the configuration; no more requests or lookups than configured records; the file is saved exactly when the loop completed and either the file was unreadable or at least one request was sent; a saved file holds the final cache and an unsaved one is unchanged |
| Reconciler.FreshPass | ddns.py:73-76 | a run of a fresh process: the sentinel cache, then main; afterwards every configured name and every stored key has a slot |
| Reconciler.PassSaves | ddns.py:165-181 | the file is written exactly when the run completed and either the load fell back to lookups or some request was sent; a written file holds the final cache; an unwritten file is unchanged; after a completed run, every configured record holds the current IP |
| Reconciler.RediscoveryPass | ddns.py:99-103 | an unreadable file causes one lookup per configured record, in order, and marks the run dirty; the run completes exactly when every zone has an A record, and then the file is saved and each record holds (current IP, the looked-up id) |
| Reconciler.LoadAfterSave | ddns.py:80-98 | loading a saved cache that covers the configuration on top of the sentinel cache gives back exactly the saved cache |
| Reconciler.SecondPassIsQuiet | ddns.py:165-181 | after a completed run, a second run with the same IP makes no lookup and sends no request, is not dirty, writes nothing, and ends with the same cache |
| Backfill.Missing | ddns.py:11-13 | the configured records a stored mapping lacks, in configuration order: a record is listed exactly when it is configured and its name is not stored |
| Backfill.MissingDistinct | ddns.py:11-13 | the missing records have distinct names, so each is looked up once |
| Backfill.LoadedBackfilled | ddns.py:11-13 | the documented load only adds keys and leaves a slot for every configured name |
| Backfill.BackfilledSlots | ddns.py:11-13 | after the documented load of a readable file, a configured record holds its stored slot if the file has one, and otherwise its zone's first A record |
| Backfill.PassBackfilled | ddns.py:11-13 | main with the documented load: every configured name has a slot afterwards; a saved file holds the final cache and an unsaved one is unchanged |
| Backfill.BackfillLookups | ddns.py:11-13 | with a readable file, the documented run looks up exactly the configured records the file lacks, each once, and any lookup makes the run dirty |
| Backfill.BackfillNoSentinelId | ddns.py:11-13 | after a completed documented run over a file holding no all-zero id, every configured record has a slot, and it holds the all-zero id only when the record was missing from the file and its zone's first A record has that id |
| Ddns.Updater.constructor | ddns.py:73-76 | the cache starts as the sentinel cache for the configuration, the dirty flag is false and no request has been sent |
| Ddns.Updater.SaveCache | ddns.py:80-85 | the file afterwards holds the whole current cache |
| Ddns.Updater.SetIp | ddns.py:115-133 | exactly one update request (IP, zone, record id, name) is appended to the request log |
| Ddns.Updater.LoadCache | ddns.py:87-103 | the cache becomes the loaded cache; the dirty flag is set exactly when the file was unreadable; lookups are logged only then, one per configured record |
| Ddns.Updater.OverlayStored | ddns.py:97-98 | the key-by-key loop leaves the cache equal to the overlay of the stored mapping |
| Ddns.Updater.RediscoverAll | ddns.py:100-102 | the lookup loop leaves the cache equal to the rediscovered cache and logs one lookup per configured record, in order |
| Ddns.Updater.UpdateStale | ddns.py:173-178 | the loop leaves the cache, requests and completion of Reconcile, and sets the dirty flag exactly when some request was sent |
| Ddns.Updater.RunOnce | ddns.py:165-181 | one run of main leaves completion, cache, dirty flag, lookups, requests and file exactly as Pass describes |

## Findings

| source | as written | input that shows it | evidently intended | confidence | as-written member | corrected member |
|---|---|---|---|---|---|---|
| ddns.py:97-98 | a readable cache file is only overlaid, so a configured record the file lacks keeps the sentinel ('0.0.0.0', 32 zeros) and is never looked up | records a and b configured, a file holding only a, any current IP other than 0.0.0.0: the run makes no lookup and sends set_ip for b with record id 00000000000000000000000000000000 | the docstring at ddns.py:11-13 says a newly added site is queried at Cloudflare: the records the file lacks are looked up, in configuration order, so no update request carries the all-zero id | not executed; high (follows from the overlay loop alone) | Reconciler.MissingKeyUsesSentinelId | Backfill.BackfillNoSentinelId |

The as-written behaviour stays the main model: `Pass`, `RunOnce` and the
lemmas about them describe the code. Module `Backfill` defines the load the
docstring describes beside it (`LoadedBackfilled`, `PassBackfilled`) and
proves its properties.

## Left out

- HTTP requests, JSON decoding and the API token are not modelled. A zone's record list is an input (a `Listing` function from zone id to records), and each request sent is recorded as a value.
- `get_ip` is not modelled: the current IP is an input, and the `strip()` of the response text is left out.
- HTTP status codes and network exceptions are not modelled. `set_ip`'s response is ignored and the cache entry is updated either way, as in the code.
- Printing (`print`, `pprint`) is not modelled.
- Pickle encoding, file paths and file permissions are not modelled. A cache file is either `Unreadable` (missing, corrupt or not a mapping) or a stored mapping of the same shape as the cache.
- A pickled mapping whose overlay fails partway through (for example, a key that cannot be hashed) is not modelled. A file that loads is overlaid completely.
- The `record_name` argument of `get_ip_record` is unused in the source and is dropped from `GetIpRecord`.
- Running main twice in one process is not modelled. `Reconciler.SecondPassIsQuiet` speaks of a fresh second process, which starts from the sentinel cache again, as the script does.
- `cache_updated` is only defined once main runs; the model gives it an initial value of `false`.
