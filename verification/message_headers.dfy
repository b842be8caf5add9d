/**
 * HapiMessageHeaders: retry bookkeeping (a retry count and two failure timestamps)
 * plus a map of custom headers, merged into one flat map when a message is sent.
 */
module MessageHeaders {
  import opened Wrappers

  newtype Int32 = x: int | -0x8000_0000 <= x < 0x8000_0000
  newtype Int64 = x: int | -0x8000_0000_0000_0000 <= x < 0x8000_0000_0000_0000

  const RETRY_COUNT_KEY: string := "retryCount"
  const FIRST_FAILURE_KEY: string := "firstFailureTimestamp"
  const LAST_FAILURE_KEY: string := "lastFailureTimestamp"

  /** The three keys toMessageHeaders writes over the custom headers. */
  function ReservedKeys(): set<string>
  {
    {RETRY_COUNT_KEY, FIRST_FAILURE_KEY, LAST_FAILURE_KEY}
  }

  /** A header value: null, a boxed Integer, a boxed Long, or some other object. */
  datatype HeaderValue = NullValue | IntegerValue(i: Int32) | LongValue(l: Int64) | OtherValue(repr: string)

  function BoxInteger(x: Option<Int32>): (v: HeaderValue)
    ensures x.None? <==> v.NullValue?
    ensures x.Some? ==> v == IntegerValue(x.value)
  {
    if x.Some? then IntegerValue(x.value) else NullValue
  }

  function BoxLong(x: Option<Int64>): (v: HeaderValue)
    ensures x.None? <==> v.NullValue?
    ensures x.Some? ==> v == LongValue(x.value)
  {
    if x.Some? then LongValue(x.value) else NullValue
  }

  /** A java.util.Map<String, Object> that callers can hold and change. */
  class HeaderMap {
    var entries: map<string, HeaderValue>

    constructor (entries: map<string, HeaderValue>)
      ensures this.entries == entries
    {
      this.entries := entries;
    }
  }

  /** Why toMessageHeaders fails: copying a null map throws. */
  datatype Exception = NullPointerException

  class HapiMessageHeaders {
    var myRetryCount: Option<Int32>
    var myFirstFailureTimestamp: Option<Int64>
    var myLastFailureTimestamp: Option<Int64>
    /** The custom headers as given; null when the caller passed null. */
    const headers: HeaderMap?

    /** HapiMessageHeaders(theHeaders): keeps the caller's map, not a copy. */
    constructor WithHeaders(theHeaders: HeaderMap?)
      ensures headers == theHeaders
      ensures myRetryCount == Some(0)
      ensures myFirstFailureTimestamp.None? && myLastFailureTimestamp.None?
    {
      headers := theHeaders;
      myRetryCount := Some(0);
      myFirstFailureTimestamp := None;
      myLastFailureTimestamp := None;
    }

    /** HapiMessageHeaders(): a new empty custom map. */
    constructor ()
      ensures headers != null && fresh(headers) && headers.entries == map[]
      ensures myRetryCount == Some(0)
      ensures myFirstFailureTimestamp.None? && myLastFailureTimestamp.None?
    {
      headers := new HeaderMap(map[]);
      myRetryCount := Some(0);
      myFirstFailureTimestamp := None;
      myLastFailureTimestamp := None;
    }

    /** getRetryCount: a null count reads as 0. */
    function GetRetryCount(): (r: Int32)
      reads this
      ensures myRetryCount.None? ==> r == 0
      ensures myRetryCount.Some? ==> r == myRetryCount.value
    {
      if myRetryCount.None? then 0 else myRetryCount.value
    }

    function GetFirstFailureTimestamp(): Option<Int64>
      reads this
    {
      myFirstFailureTimestamp
    }

    function GetLastFailureTimestamp(): Option<Int64>
      reads this
    {
      myLastFailureTimestamp
    }

    /** setRetryCount: the getter then reads back the count, or 0 for null. */
    method SetRetryCount(theRetryCount: Option<Int32>)
      modifies this
      ensures myRetryCount == theRetryCount
      ensures GetRetryCount() == if theRetryCount.Some? then theRetryCount.value else 0
      ensures myFirstFailureTimestamp == old(myFirstFailureTimestamp)
      ensures myLastFailureTimestamp == old(myLastFailureTimestamp)
    {
      myRetryCount := theRetryCount;
    }

    method SetLastFailureTimestamp(theLastFailureTimestamp: Option<Int64>)
      modifies this
      ensures GetLastFailureTimestamp() == theLastFailureTimestamp
      ensures myRetryCount == old(myRetryCount)
      ensures myFirstFailureTimestamp == old(myFirstFailureTimestamp)
    {
      myLastFailureTimestamp := theLastFailureTimestamp;
    }

    method SetFirstFailureTimestamp(theFirstFailureTimestamp: Option<Int64>)
      modifies this
      ensures GetFirstFailureTimestamp() == theFirstFailureTimestamp
      ensures myRetryCount == old(myRetryCount)
      ensures myLastFailureTimestamp == old(myLastFailureTimestamp)
    {
      myFirstFailureTimestamp := theFirstFailureTimestamp;
    }

    /**
     * getCustomHeaders: the stored map itself, so changes through it are seen by
     * this object; a fresh empty map, not stored, when there is none.
     */
    method GetCustomHeaders() returns (r: HeaderMap)
      ensures headers != null ==> r == headers
      ensures headers == null ==> fresh(r) && r.entries == map[]
    {
      if headers == null {
        r := new HeaderMap(map[]);
      } else {
        r := headers;
      }
    }

    /**
     * toMessageHeaders: a copy of the custom headers with the three retry entries
     * written over it from the raw fields (a null retry count stays null). The
     * stored map is not changed. A null custom map makes the copy throw.
     */
    method ToMessageHeaders() returns (r: Result<map<string, HeaderValue>, Exception>)
      ensures headers == null <==> r.Failure?
      ensures r.Success? ==> r.value.Keys == headers.entries.Keys + ReservedKeys()
      ensures r.Success? ==> forall k :: k in headers.entries && k !in ReservedKeys() ==> r.value[k] == headers.entries[k]
      ensures r.Success? ==> r.value[RETRY_COUNT_KEY] == BoxInteger(myRetryCount)
      ensures r.Success? ==> r.value[FIRST_FAILURE_KEY] == BoxLong(myFirstFailureTimestamp)
      ensures r.Success? ==> r.value[LAST_FAILURE_KEY] == BoxLong(myLastFailureTimestamp)
    {
      if headers == null {
        return Failure(NullPointerException);
      }
      var returnedHeaders := headers.entries;
      returnedHeaders := returnedHeaders[RETRY_COUNT_KEY := BoxInteger(myRetryCount)];
      returnedHeaders := returnedHeaders[FIRST_FAILURE_KEY := BoxLong(myFirstFailureTimestamp)];
      returnedHeaders := returnedHeaders[LAST_FAILURE_KEY := BoxLong(myLastFailureTimestamp)];
      return Success(returnedHeaders);
    }
  }
}
