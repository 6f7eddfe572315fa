/**
 * CacheData: a cached value together with the date it was cached, and the
 * check whether it is still alive under a lifetime at a given date.
 */
module Entry {

  import opened Lifetimes
  import opened Cacheable

  datatype CacheData = CacheData(value: Value, cacheDate: Date)
  {
    /**
     * `isAlive(validatedWith:and:)` as written: it builds the closed range
     * from the cache date, so it is only defined when that range can be built.
     */
    function IsAliveAsWritten(lifetime: Lifetime, currentDate: Date): (alive: bool)
      requires lifetime.Admits(cacheDate)
      ensures alive <==> cacheDate <= currentDate <= lifetime.makeExpiredDate(cacheDate)
    {
      lifetime.Range(cacheDate).Contains(currentDate)
    }

    /**
     * The aliveness check the rest of the model uses: a window whose expiry
     * lies before the cache date contains no date, instead of trapping.
     */
    function IsAlive(lifetime: Lifetime, currentDate: Date): (alive: bool)
      ensures alive <==> cacheDate <= currentDate <= lifetime.makeExpiredDate(cacheDate)
      ensures lifetime.Admits(cacheDate) ==> alive == IsAliveAsWritten(lifetime, currentDate)
      ensures !lifetime.Admits(cacheDate) ==> !alive
    {
      lifetime.Admits(cacheDate) && lifetime.Range(cacheDate).Contains(currentDate)
    }
  }
}
