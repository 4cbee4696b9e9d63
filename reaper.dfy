/**
 One sweep of the idle-player reaper `TimeOut` (Server/API.go): the expiry
 test, the uuids a sweep collects and the registry it leaves behind.
 Time is an integer count of nanoseconds.
 */
module Reaper {
  import opened Sessions

  /** `time.Minute`, in nanoseconds. */
  const Minute: int := 60_000_000_000

  /** A player idle for more than this many whole minutes is removed. */
  const IdleMinutes: int := 5

  /** Whole minutes from `since` to `now`, rounded toward zero as Go's integer
      division of a `time.Duration` rounds. */
  function ElapsedMinutes(now: int, since: int): (r: int)
    ensures now >= since ==> 0 <= r && r * Minute <= now - since < (r + 1) * Minute
    ensures now < since ==> r <= 0 && (r - 1) * Minute < now - since <= r * Minute
  {
    var d := now - since;
    if d >= 0 then d / Minute else -((-d) / Minute)
  }

  /** The test of the first phase: more than five whole minutes since the
      player's last request, that is, at least six full minutes. */
  predicate Expired(p: Player, now: int): (b: bool)
    ensures b <==> now - p.timeStamp >= (IdleMinutes + 1) * Minute
  {
    ElapsedMinutes(now, p.timeStamp) > IdleMinutes
  }

  /** Every uuid that is expired on some map. */
  ghost function ExpiredIds(maps: Registry, now: int): set<string>
  {
    set m, u | m in maps && u in maps[m] && Expired(maps[m][u], now) :: u
  }

  /** The registry after one sweep: every collected uuid is gone from every
      map. A player survives exactly when its uuid is expired on no map at
      all; survivors and the set of maps are unchanged. */
  ghost function Sweep(maps: Registry, now: int): (r: Registry)
    ensures r.Keys == maps.Keys
    ensures forall m, u :: m in maps && u in maps[m] ==>
      (u in r[m] <==> forall m' :: m' in maps && u in maps[m'] ==> !Expired(maps[m'][u], now))
    ensures forall m, u :: m in r && u in r[m] ==> u in maps[m] && r[m][u] == maps[m][u]
  {
    map m | m in maps :: maps[m] - ExpiredIds(maps, now)
  }

  /** The first phase: visit every player of every map and collect the uuids
      of the expired ones, in whatever order the maps are visited. */
  method CollectExpired(maps: Registry, now: int) returns (keys: seq<string>)
    ensures forall u :: u in keys <==> u in ExpiredIds(maps, now)
  {
    keys := [];
    var pending := maps.Keys;
    while exists id :: id in pending
      invariant pending <= maps.Keys
      invariant forall u :: u in keys <==>
        exists m :: m in maps && m !in pending && u in maps[m] && Expired(maps[m][u], now)
      decreases pending
    {
      var id :| id in pending;
      keys := CollectFromTable(maps[id], now, keys);
      pending := pending - {id};
    }
  }

  /** The inner loop of the first phase: append to `keys` the uuid of every
      expired player of one map. */
  method CollectFromTable(table: Table, now: int, keys: seq<string>) returns (keys': seq<string>)
    ensures forall u :: u in keys' <==> u in keys || (u in table && Expired(table[u], now))
  {
    keys' := keys;
    var unseen := table.Keys;
    while exists u :: u in unseen
      invariant unseen <= table.Keys
      invariant forall u :: u in keys' <==> u in keys || (u in table && u !in unseen && Expired(table[u], now))
      decreases unseen
    {
      var u :| u in unseen;
      if Expired(table[u], now) {
        keys' := keys' + [u];
      }
      unseen := unseen - {u};
    }
  }

  /** The inner loop of the second phase: delete every collected uuid from
      one map's table. */
  method RemoveKeys(table: Table, keys: seq<string>) returns (t: Table)
    ensures forall u :: u in t <==> u in table && u !in keys
    ensures forall u :: u in t ==> t[u] == table[u]
  {
    t := table;
    var i := 0;
    while i < |keys|
      invariant 0 <= i <= |keys|
      invariant forall u :: u in t <==> u in table && u !in keys[..i]
      invariant forall u :: u in t ==> t[u] == table[u]
    {
      t := t - {keys[i]};
      i := i + 1;
    }
    assert keys[..i] == keys;
  }

  /** A sweep keeps the registry invariant. */
  lemma SweepWellFormed(maps: Registry, now: int)
    requires WellFormed(maps)
    ensures WellFormed(Sweep(maps, now))
  {
  }

  /** The second phase removes collected uuids from every map, not only from
      the map where they expired: a player that is active on map `b` is
      removed there when the same uuid has gone stale on map `a`. */
  lemma SweepRemovesAcrossMaps(maps: Registry, now: int, a: int, b: int, u: string)
    requires a in maps && u in maps[a] && Expired(maps[a][u], now)
    requires b in maps && u in maps[b] && !Expired(maps[b][u], now)
    ensures u !in Sweep(maps, now)[b]
  {
  }
}
