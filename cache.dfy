/**
 * The web API's cache (src/api/cache.rs): two slots, the day's extremes and
 * the latest snapshot, behind a process-wide lock. The lock is not modelled;
 * the cache is an object passed to the functions that use the global.
 */
module Cache {
  import opened Base
  import opened Snapshot

  class ApiCache {
    var daytime: DaytimeData
    var latest: DataPoint

    /** `new`: unset extremes and a snapshot in which no sensor has reported. */
    constructor ()
      ensures daytime == NewDaytimeData() && latest == NewDataPoint()
      ensures daytime.windMin < 0.0 && !latest.anemometer.IsValid()
    {
      daytime := NewDaytimeData();
      latest := NewDataPoint();
    }

    method UpdateDaytimeData(d: DaytimeData)
      modifies this
      ensures daytime == d && latest == old(latest)
    {
      daytime := d;
    }

    method UpdateLatestData(l: DataPoint)
      modifies this
      ensures latest == l && daytime == old(daytime)
    {
      latest := l;
    }

    /** The getters hand out copies and change nothing. */
    method GetDaytimeData() returns (d: DaytimeData)
      ensures d == daytime
    {
      d := daytime;
    }

    method GetLatestData() returns (l: DataPoint)
      ensures l == latest
    {
      l := latest;
    }
  }

  /**
   * `update_api_cache`: each slot given is overwritten, each slot not given
   * keeps its value.
   */
  method UpdateApiCache(cache: ApiCache, daytime: Option<DaytimeData>, latest: Option<DataPoint>)
    modifies cache
    ensures cache.daytime == (if daytime.Some? then daytime.value else old(cache.daytime))
    ensures cache.latest == (if latest.Some? then latest.value else old(cache.latest))
  {
    if daytime.Some? {
      cache.UpdateDaytimeData(daytime.value);
    }
    if latest.Some? {
      cache.UpdateLatestData(latest.value);
    }
  }

  /**
   * An update followed by reads: the readers see exactly what was written,
   * and an update with neither slot leaves the cache as it was.
   */
  method UpdateThenRead(cache: ApiCache, daytime: Option<DaytimeData>, latest: Option<DataPoint>)
    returns (d: DaytimeData, l: DataPoint)
    modifies cache
    ensures daytime.Some? ==> d == daytime.value
    ensures latest.Some? ==> l == latest.value
    ensures daytime.None? ==> d == old(cache.daytime)
    ensures latest.None? ==> l == old(cache.latest)
  {
    UpdateApiCache(cache, daytime, latest);
    d := cache.GetDaytimeData();
    l := cache.GetLatestData();
  }
}
