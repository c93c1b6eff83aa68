/**
 * What the browser supplies to the diary components: readings of the local
 * clock and `localStorage`. The clock is taken as an input; the store is a map
 * from keys to records (the JSON encoding in between is not modelled), and
 * whether a write or a read throws is decided by the caller.
 */
module Browser {
  import opened Wrappers

  /** One reading of the local clock: `getFullYear()`, `getMonth()` (0 for
      January), `getDate()` and `getDay()` (0 for Sunday). */
  datatype ClockReading = ClockReading(fullYear: int, month: int, date: int, weekday: int)

  /** The ranges `Date` guarantees for its fields. */
  predicate IsCalendarReading(now: ClockReading) {
    0 <= now.month < 12 && 1 <= now.date <= 31 && 0 <= now.weekday < 7
  }

  /** `localStorage`, holding records of type `V`. */
  class LocalStorage<V> {
    var items: map<string, V>

    constructor (initial: map<string, V>)
      ensures items == initial
    {
      items := initial;
    }

    /** `setItem`: stores `value` under `key` unless the write throws (for
        instance when the quota is exceeded), in which case nothing changes. */
    method SetItem(key: string, value: V, throws: bool) returns (ok: bool)
      modifies this
      ensures ok == !throws
      ensures items == if ok then old(items)[key := value] else old(items)
    {
      ok := !throws;
      if ok {
        items := items[key := value];
      }
    }

    /** `getItem`: the record under `key`, or `null`. */
    method GetItem(key: string) returns (value: Option<V>)
      ensures value.Some? <==> key in items
      ensures value.Some? ==> value.value == items[key]
    {
      value := if key in items then Some(items[key]) else None;
    }
  }
}
