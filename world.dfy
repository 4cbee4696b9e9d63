/**
 The server's global state (the package-level maps of Server/API.go) and the
 handlers that change it, with request parsing and JSON output stripped off:
 every operation takes its already-parsed arguments, and the current time is
 the parameter `now`.
 */
module World {
  import opened Sessions
  import Reaper
  import MetaBlobStore
  import GlobalFlags

  class WorldState {
    /** Map id -> uuid -> player. */
    var Maps: Registry
    /** owner -> purpose -> client -> primarykey -> secondarykey -> value. */
    var MetaBlob: MetaBlobStore.Blob
    /** The global switches, as loaded from their configuration file. */
    var GameSwitches: map<string, bool>
    /** The global variables, as loaded from their configuration file. */
    var GameVariable: map<string, int>

    /** Every stored player sits under its own uuid with a well-formed action
        list; `AQ` relies on the list being non-empty. */
    ghost predicate Valid()
      reads this
    {
      WellFormed(Maps)
    }

    /** A fresh server: no maps, no blobs, and the switches and variables
        holding their configured initial values. */
    constructor (switches: map<string, bool>, variables: map<string, int>)
      ensures Valid()
      ensures Maps == map[] && MetaBlob == map[]
      ensures GameSwitches == switches && GameVariable == variables
    {
      Maps := map[];
      MetaBlob := map[];
      GameSwitches := switches;
      GameVariable := variables;
    }

    /** `Map`: give back a map's player table, creating an empty one when the
        map has none yet. A table that exists is left alone. */
    method Map(mapId: int) returns (table: Table)
      requires Valid()
      modifies this`Maps
      ensures Valid()
      ensures mapId in Maps && table == Maps[mapId]
      ensures mapId in old(Maps) ==> Maps == old(Maps)
      ensures mapId !in old(Maps) ==> Maps == old(Maps)[mapId := map[]]
    {
      if mapId !in Maps {
        Maps := Maps[mapId := map[]];
      }
      table := Maps[mapId];
    }

    /** `PlayerLogin`: make sure the map has a table, then install a fresh
        player under `uuid`, replacing any earlier one. No other player and
        no other map changes. */
    method PlayerLogin(uuid: string, mapId: int, x: int, y: int, now: int)
      requires Valid()
      modifies this`Maps
      ensures Valid()
      ensures Maps.Keys == old(Maps).Keys + {mapId}
      ensures Maps[mapId] ==
        (if mapId in old(Maps) then old(Maps)[mapId] else map[])[uuid := Player(uuid, MakeActionList(x, y, mapId), now)]
      ensures forall m :: m in old(Maps) && m != mapId ==> Maps[m] == old(Maps)[m]
    {
      var _ := Map(mapId);
      Maps := Maps[mapId := Maps[mapId][uuid := Player(uuid, MakeActionList(x, y, mapId), now)]];
    }

    /** `AQ`: append an action to a player's list and refresh its time stamp.
        When the player is missing the Go handler panics on a nil pointer
        before it changes anything; here that is `found == false` with the
        state unchanged. Otherwise only that player's actions and time stamp
        change. */
    method AQ(uuid: string, mapId: int, actionId: int, x: int, y: int, now: int) returns (found: bool)
      requires Valid()
      modifies this`Maps
      ensures Valid()
      ensures found <==> mapId in old(Maps) && uuid in old(Maps)[mapId]
      ensures !found ==> Maps == old(Maps)
      ensures found ==> Maps == old(Maps)[mapId := old(Maps)[mapId][uuid :=
        Player(old(Maps)[mapId][uuid].uuid, NextActions(old(Maps)[mapId][uuid].actions, actionId, x, y, mapId), now)]]
    {
      found := mapId in Maps && uuid in Maps[mapId];
      if !found {
        return;
      }
      var player := Maps[mapId][uuid];
      var t := player.actions;
      NextActionsWellFormed(t, actionId, x, y, mapId);
      t := NextActions(t, actionId, x, y, mapId);
      Maps := Maps[mapId := Maps[mapId][uuid := Player(player.uuid, t, now)]];
    }

    /** `PlayerLogout`: delete the uuid from the map's table; nothing happens
        when the map or the player is absent. */
    method PlayerLogout(uuid: string, mapId: int)
      requires Valid()
      modifies this`Maps
      ensures Valid()
      ensures mapId in old(Maps) ==> Maps == old(Maps)[mapId := old(Maps)[mapId] - {uuid}]
      ensures mapId !in old(Maps) ==> Maps == old(Maps)
    {
      if mapId in Maps {
        Maps := Maps[mapId := Maps[mapId] - {uuid}];
      }
    }

    /** One iteration of `TimeOut`: collect the uuids that are expired on some
        map, then delete each of them from every map. */
    method TimeOut(now: int)
      requires Valid()
      modifies this`Maps
      ensures Valid()
      ensures Maps == Reaper.Sweep(old(Maps), now)
    {
      var keys := Reaper.CollectExpired(Maps, now);
      ghost var before := Maps;
      ghost var expired := Reaper.ExpiredIds(before, now);
      var pending := Maps.Keys;
      while exists m :: m in pending
        invariant pending <= Maps.Keys == before.Keys
        invariant forall m :: m in Maps ==> Maps[m] == if m in pending then before[m] else before[m] - expired
        decreases pending
      {
        var m :| m in pending;
        var table := Reaper.RemoveKeys(Maps[m], keys);
        assert table == before[m] - expired;
        Maps := Maps[m := table];
        pending := pending - {m};
      }
      assert forall m :: m in Maps ==> Maps[m] == Reaper.Sweep(before, now)[m];
      Reaper.SweepWellFormed(before, now);
    }

    /** `MetaBlobEntry`: store the value under owner, purpose, client,
        primary key and secondary key (in that order of nesting, although
        the route lists the primary key before the client), creating each
        missing level. */
    method MetaBlobEntry(owner: string, purpose: string, primaryKey: string, client: string, secondaryKey: string, input: string)
      modifies this`MetaBlob
      ensures MetaBlob == MetaBlobStore.Put(old(MetaBlob), owner, purpose, client, primaryKey, secondaryKey, input)
    {
      MetaBlob := MetaBlobStore.Put(MetaBlob, owner, purpose, client, primaryKey, secondaryKey, input);
    }

    /** `MetaBlobDeleteEntry`. */
    method MetaBlobDeleteEntry(owner: string, purpose: string, client: string, primaryKey: string, secondaryKey: string)
      modifies this`MetaBlob
      ensures MetaBlob == MetaBlobStore.DeleteEntry(old(MetaBlob), owner, purpose, client, primaryKey, secondaryKey)
    {
      MetaBlob := MetaBlobStore.DeleteEntry(MetaBlob, owner, purpose, client, primaryKey, secondaryKey);
    }

    /** `MetaBlobDeletePrimary`. */
    method MetaBlobDeletePrimary(owner: string, purpose: string, client: string, primaryKey: string)
      modifies this`MetaBlob
      ensures MetaBlob == MetaBlobStore.DeletePrimary(old(MetaBlob), owner, purpose, client, primaryKey)
    {
      MetaBlob := MetaBlobStore.DeletePrimary(MetaBlob, owner, purpose, client, primaryKey);
    }

    /** `MetaBlobDeleteClient`. */
    method MetaBlobDeleteClient(owner: string, purpose: string, client: string)
      modifies this`MetaBlob
      ensures MetaBlob == MetaBlobStore.DeleteClient(old(MetaBlob), owner, purpose, client)
    {
      MetaBlob := MetaBlobStore.DeleteClient(MetaBlob, owner, purpose, client);
    }

    /** `MetaBlobDeletePurpose`. */
    method MetaBlobDeletePurpose(owner: string, purpose: string)
      modifies this`MetaBlob
      ensures MetaBlob == MetaBlobStore.DeletePurpose(old(MetaBlob), owner, purpose)
    {
      MetaBlob := MetaBlobStore.DeletePurpose(MetaBlob, owner, purpose);
    }

    /** `MetaBlobDeleteOwner`. */
    method MetaBlobDeleteOwner(owner: string)
      modifies this`MetaBlob
      ensures MetaBlob == MetaBlobStore.DeleteOwner(old(MetaBlob), owner)
    {
      MetaBlob := MetaBlobStore.DeleteOwner(MetaBlob, owner);
    }

    /** `SetSwitch`: change the switch only if it already exists; the set of
        switches never changes. */
    method SetSwitch(id: string, value: bool)
      modifies this`GameSwitches
      ensures GameSwitches == GlobalFlags.SetExisting(old(GameSwitches), id, value)
      ensures GameSwitches.Keys == old(GameSwitches).Keys
    {
      var found := GlobalFlags.ScanForKey(GameSwitches, id);
      if found {
        GameSwitches := GameSwitches[id := value];
      }
    }

    /** `SetVariable` as written: the same guarded write as `SetSwitch`,
        followed by an unconditional write, so `id` always ends up holding
        `value`, and is added when it was not a key. */
    method SetVariable(id: string, value: int)
      modifies this`GameVariable
      ensures GameVariable == GlobalFlags.SetVariableAsWritten(old(GameVariable), id, value)
      ensures id in GameVariable && GameVariable[id] == value
    {
      var found := GlobalFlags.ScanForKey(GameVariable, id);
      if found {
        GameVariable := GameVariable[id := value];
      }
      GameVariable := GameVariable[id := value];
    }
  }

  /** A player who logs in and then out is not found by a later `AQ`. */
  method LoginLogoutThenAction(w: WorldState, uuid: string, mapId: int, x: int, y: int, actionId: int, now: int)
    returns (found: bool)
    requires w.Valid()
    modifies w
    ensures w.Valid() && !found
  {
    w.PlayerLogin(uuid, mapId, x, y, now);
    w.PlayerLogout(uuid, mapId);
    found := w.AQ(uuid, mapId, actionId, x, y, now);
  }
}
