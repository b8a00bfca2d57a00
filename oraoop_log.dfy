/**
 * `OraOopLog`: a wrapper around a commons-logging log that can divert
 * messages into an in-memory buffer instead of passing them on.
 */
module Logging {
  import opened Wrappers

  datatype Level = Trace | Debug | Info | Warn | Error | Fatal

  /**
   * A call that reached the wrapped log. `message` is the message object's
   * text, `None` for a null message; `withThrowable` tells the two-argument
   * overloads apart.
   */
  datatype LogEvent = LogEvent(level: Level, message: Option<string>, withThrowable: bool)

  class OraOopLog {
    /** The `StringBuilder cache` field: `None` while caching is off. */
    var cache: Option<string>
    /** Everything passed on to the wrapped log, oldest first. */
    var delegated: seq<LogEvent>

    /** A new wrapper does not cache and has passed nothing on. */
    constructor ()
      ensures cache == None && delegated == []
    {
      cache := None;
      delegated := [];
    }

    /** `getCacheLogEntries`: caching is on exactly when the buffer exists. */
    function GetCacheLogEntries(): (r: bool)
      reads this
      ensures r <==> cache.Some?
    {
      cache.Some?
    }

    /** `getLogEntries`: the buffered text, or `""` while caching is off. */
    function GetLogEntries(): (r: string)
      reads this
      ensures cache.Some? ==> r == cache.value
      ensures cache.None? ==> r == ""
    {
      if cache.Some? then cache.value else ""
    }

    /**
     * `setCacheLogEntries`: turning caching on starts an empty buffer only
     * when it was off, keeping existing text otherwise; turning it off
     * discards the buffer.
     */
    method SetCacheLogEntries(value: bool)
      modifies this
      ensures GetCacheLogEntries() == value
      ensures value && old(cache).Some? ==> cache == old(cache)
      ensures value && old(cache).None? ==> cache == Some("")
      ensures !value ==> GetLogEntries() == ""
      ensures delegated == old(delegated)
    {
      if GetCacheLogEntries() && !value {
        cache := None;
      } else if !GetCacheLogEntries() && value {
        cache := Some("");
      }
    }

    /** `clearCache`: empties the buffer while caching, otherwise does nothing. */
    method ClearCache()
      modifies this
      ensures GetCacheLogEntries() == old(GetCacheLogEntries())
      ensures GetLogEntries() == ""
      ensures delegated == old(delegated)
    {
      if GetCacheLogEntries() {
        cache := Some("");
      }
    }

    /**
     * `cacheLogEntry`: while caching, appends the message text (nothing for
     * a null message, no separator) and reports that the message was taken.
     */
    method CacheLogEntry(message: Option<string>) returns (cached: bool)
      modifies this
      ensures cached == old(GetCacheLogEntries())
      ensures GetCacheLogEntries() == old(GetCacheLogEntries())
      ensures GetLogEntries() == old(GetLogEntries()) + (if cached && message.Some? then message.value else "")
      ensures delegated == old(delegated)
    {
      cached := GetCacheLogEntries();
      if cached && message.Some? {
        cache := Some(cache.value + message.value);
      }
    }

    /**
     * `debug`, `info`, `warn`, `error`, `fatal` (both overloads) and
     * `trace(message, t)`: a message goes to the buffer while caching and
     * to the wrapped log otherwise, never to both.
     */
    method Log(level: Level, message: Option<string>, withThrowable: bool)
      requires level == Trace ==> withThrowable
      modifies this
      ensures GetCacheLogEntries() == old(GetCacheLogEntries())
      ensures old(GetCacheLogEntries()) ==>
                GetLogEntries() == old(GetLogEntries()) + (if message.Some? then message.value else "")
                && delegated == old(delegated)
      ensures !old(GetCacheLogEntries()) ==>
                cache == old(cache) && delegated == old(delegated) + [LogEvent(level, message, withThrowable)]
    {
      var cached := CacheLogEntry(message);
      if cached {
        return;
      }
      delegated := delegated + [LogEvent(level, message, withThrowable)];
    }

    /** `trace(message)`: always passed on, and also buffered while caching. */
    method TraceMessage(message: Option<string>)
      modifies this
      ensures delegated == old(delegated) + [LogEvent(Trace, message, false)]
      ensures GetCacheLogEntries() == old(GetCacheLogEntries())
      ensures GetLogEntries()
              == old(GetLogEntries()) + (if old(GetCacheLogEntries()) && message.Some? then message.value else "")
    {
      delegated := delegated + [LogEvent(Trace, message, false)];
      var _ := CacheLogEntry(message);
    }
  }
}
