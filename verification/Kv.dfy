/** Small values with a lifetime: the coordinator's key-value store. */
module Kv {
  import opened Wrappers

  datatype Entry<+V> = Entry(value: V, expiresAt: int)

  /** What a read serves: never a value past its lifetime. */
  function Served<V>(values: map<string, Entry<V>>, key: string, at: int): Option<V> {
    if key in values && values[key].expiresAt > at then Some(values[key].value) else None
  }

  /** A read of a lapsed value forgets it. */
  function AfterGet<V>(values: map<string, Entry<V>>, key: string, at: int): map<string, Entry<V>> {
    if key in values && values[key].expiresAt <= at then values - {key} else values
  }

  function WithoutPrefix<V>(values: map<string, Entry<V>>, prefix: string): map<string, Entry<V>> {
    map k | k in values && !(prefix <= k) :: values[k]
  }

  class Store<V> {
    var values: map<string, Entry<V>>

    constructor ()
      ensures values == map[]
    {
      values := map[];
    }

    method Set(key: string, value: V, ttl: int, at: int)
      modifies this
      ensures values == old(values)[key := Entry(value, at + ttl)]
    {
      values := values[key := Entry(value, at + ttl)];
    }

    method Get(key: string, at: int) returns (answer: Option<V>)
      modifies this
      ensures answer == Served(old(values), key, at)
      ensures values == AfterGet(old(values), key, at)
    {
      if key !in values {
        return None;
      }
      if values[key].expiresAt <= at {
        values := values - {key};
        return None;
      }
      answer := Some(values[key].value);
    }

    method Del(key: string)
      modifies this
      ensures values == old(values) - {key}
    {
      values := values - {key};
    }

    method DelPrefix(prefix: string)
      modifies this
      ensures values == WithoutPrefix(old(values), prefix)
    {
      var todo := values.Keys;
      ghost var was := values;
      while todo != {}
        invariant values == map k | k in was && (k in todo || !(prefix <= k)) :: was[k]
        decreases todo
      {
        var key :| key in todo;
        todo := todo - {key};
        if prefix <= key {
          values := values - {key};
        }
      }
    }
  }
}
