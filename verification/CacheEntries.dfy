/** Cached responses and their lifetime: fresh, then stale, then dead. */
module CacheEntries {
  import opened Wrappers

  /** A cache key is its text. */
  datatype Key = Key(text: string)

  /** Header fields in some order; only their sizes and their identity matter here. */
  type Headers = seq<(string, seq<string>)>

  /** Times and durations are nanoseconds. */
  datatype Entry = Entry(
    headers: Headers, etag: string, created: int, body: seq<bv8>, ttl: int, swr: int, status: int)
  {
    function HardDeadline(): int {
      created + (ttl + swr)
    }

    predicate Expired(now: int) {
      now > created + ttl
    }

    predicate Stale(now: int) {
      swr > 0 && Expired(now) && !(now > HardDeadline())
    }
  }

  function ValuesSize(values: seq<string>): nat {
    if values == [] then 0 else |values[0]| + ValuesSize(values[1..])
  }

  function HeadersSize(headers: Headers): nat {
    if headers == [] then 0
    else |headers[0].0| + ValuesSize(headers[0].1) + HeadersSize(headers[1..])
  }

  function EntrySize(key: Key, entry: Entry): nat {
    |key.text| + |entry.body| + |entry.etag| + HeadersSize(entry.headers)
  }

  /** The accounting loop over header names and values. */
  method ComputeEntrySize(key: Key, entry: Entry) returns (size: nat)
    ensures size == EntrySize(key, entry)
  {
    size := |key.text| + |entry.body| + |entry.etag|;
    for i := 0 to |entry.headers|
      invariant size + HeadersSize(entry.headers[i..]) == EntrySize(key, entry)
    {
      var (name, values) := entry.headers[i];
      size := size + |name|;
      for j := 0 to |values|
        invariant size + ValuesSize(values[j..]) + HeadersSize(entry.headers[i + 1..]) == EntrySize(key, entry)
      {
        size := size + |values[j]|;
      }
    }
  }

  /** Fresh, stale and dead exclude each other, and with a non-negative window they cover all times. */
  lemma Partition(entry: Entry, now: int)
    ensures !(!entry.Expired(now) && entry.Stale(now))
    ensures entry.Stale(now) ==> now <= entry.HardDeadline()
    ensures entry.swr >= 0 ==>
              (now > entry.HardDeadline() <==> entry.Expired(now) && !entry.Stale(now))
  {
  }
}
