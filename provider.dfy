/**
 * The DNS provider as the updater sees it: the records of a zone, the
 * "first A record" search over them, and the update request it sends.
 * The HTTP requests themselves are not modelled; a zone's record list is
 * an input (a Listing) and each update request is recorded as a value.
 */
module Provider {
  import opened Wrappers

  /** One entry of a zone's record list: its type ("A", "AAAA", "MX", ...), content and provider id. */
  datatype DnsRecord = DnsRecord(kind: string, content: string, id: string)

  /** What the cache keeps per record name: the last known IP and the provider's record id. */
  datatype Entry = Entry(ip: string, id: string)

  /** The record list the provider answers for each zone id. */
  type Listing = string -> seq<DnsRecord>

  /** An update request: set the A record `recordId` of zone `zone`, named `name`, to `ip`. */
  datatype SetIpCall = SetIpCall(ip: string, zone: string, recordId: string, name: string)

  /** Whether the record at index `i` is the first A record of `records`. */
  predicate IsFirstA(records: seq<DnsRecord>, i: int)
  {
    0 <= i < |records| && records[i].kind == "A" &&
    forall j :: 0 <= j < i ==> records[j].kind != "A"
  }

  /**
   * The content and id of the first record whose type is "A"; nothing
   * when the zone has no A record.
   */
  function FirstA(records: seq<DnsRecord>): (r: Option<Entry>)
    ensures r.Some? ==> exists i :: 0 <= i < |records| && records[i].kind == "A" && r.value == Entry(records[i].content, records[i].id)
  {
    if records == [] then None
    else if records[0].kind == "A" then Some(Entry(records[0].content, records[0].id))
    else FirstA(records[1..])
  }

  /**
   * FirstA finds nothing exactly when no record is an A record, and
   * otherwise the content and id of the record at the first A index.
   */
  lemma {:induction false} FirstAIsFirst(records: seq<DnsRecord>)
    ensures FirstA(records).None? <==> forall i :: 0 <= i < |records| ==> records[i].kind != "A"
    ensures FirstA(records).Some? ==>
      exists i :: IsFirstA(records, i) && FirstA(records).value == Entry(records[i].content, records[i].id)
  {
    if records != [] && records[0].kind != "A" {
      FirstAIsFirst(records[1..]);
      assert forall i :: 1 <= i < |records| ==> records[i] == records[1..][i - 1];
      if FirstA(records).Some? {
        var i :| IsFirstA(records[1..], i) && FirstA(records).value == Entry(records[1..][i].content, records[1..][i].id);
        assert IsFirstA(records, i + 1);
      }
    } else if records != [] {
      assert IsFirstA(records, 0);
    }
  }

  /** The first A record is unique: an index that is a first A record is the one FirstA reports. */
  lemma FirstAAt(records: seq<DnsRecord>, i: int)
    requires IsFirstA(records, i)
    ensures FirstA(records) == Some(Entry(records[i].content, records[i].id))
  {
    FirstAIsFirst(records);
  }

  /**
   * The scan of get_ip_record: walk the zone's records by index and
   * return at the first one whose type is "A".
   */
  method GetIpRecord(records: seq<DnsRecord>) returns (r: Option<Entry>)
    ensures r == FirstA(records)
  {
    var i := 0;
    while i < |records|
      invariant 0 <= i <= |records|
      invariant forall j :: 0 <= j < i ==> records[j].kind != "A"
    {
      if records[i].kind == "A" {
        FirstAAt(records, i);
        return Some(Entry(records[i].content, records[i].id));
      }
      i := i + 1;
    }
    FirstAIsFirst(records);
    return None;
  }
}
