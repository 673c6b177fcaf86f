/** nels_galaxy_api/states.py: a process-wide store that hands out a fresh
    key for each piece of data and gives the data back once asked. */
module States {
  import opened Wrappers

  class StateStore<T> {
    var states: map<string, T>

    constructor ()
      ensures states == map[]
    {
      states := map[];
    }

    /** `set`: the data is stored under `uuid` (the random key drawn by
        the caller) and the key is returned. */
    method Set(data: T, uuid: string) returns (key: string)
      modifies this
      ensures key == uuid
      ensures states == old(states)[uuid := data]
      ensures key in states && states[key] == data
    {
      states := states[uuid := data];
      key := uuid;
    }

    /** `get`: `None` for an unknown key, with nothing changed; otherwise the
        data, and with `purge` the entry is removed and no other. */
    method Get(uuid: string, purge: bool) returns (r: Option<T>)
      modifies this
      ensures uuid !in old(states) ==> r == None && states == old(states)
      ensures uuid in old(states) ==> r == Some(old(states)[uuid])
      ensures !purge ==> states == old(states)
      ensures purge ==> states == old(states) - {uuid}
      ensures purge ==> uuid !in states
      ensures forall k :: k != uuid && k in old(states) ==> k in states && states[k] == old(states)[k]
    {
      if uuid !in states {
        return None;
      }
      r := Some(states[uuid]);
      if purge {
        states := states - {uuid};
      }
    }

    /** Storing and then reading with purge gives the data back once: the
        second read finds nothing, and other entries are untouched. */
    method SetGetPurge(data: T, uuid: string) returns (first: Option<T>, second: Option<T>)
      modifies this
      ensures first == Some(data) && second == None
      ensures states == old(states) - {uuid}
    {
      var key := Set(data, uuid);
      first := Get(key, true);
      second := Get(key, true);
    }
  }
}
