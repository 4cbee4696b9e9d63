/**
 The player side of the world state: a player's record, its bounded action
 list and the computation `AQ` performs on that list (Server/API.go).
 */
module Sessions {

  /** One symbolic action of a player: `Action{Enum, actionid, x, y, mapid}`. */
  datatype Action = Action(enum: int, actionId: int, x: int, y: int, mapId: int)

  /** A logged-in player: its uuid, its action list and the time of its last
      request, counted in nanoseconds. */
  datatype Player = Player(uuid: string, actions: seq<Action>, timeStamp: int)

  /** The players of one map, keyed by uuid. */
  type Table = map<string, Player>

  /** Every map's player table, keyed by map id (the global `Maps`). */
  type Registry = map<int, Table>

  /** `AQ` drops the oldest action when the list holds more than this many. */
  const TrimAbove: nat := 10

  /** The longest list `AQ` can leave behind: it trims before it appends. */
  const MaxActions: nat := TrimAbove + 1

  /** The action id of the entry a login creates. */
  const SpawnActionId: int := 0

  /** The list a login starts a player with: one entry numbered 0 at the
      login position. */
  function MakeActionList(x: int, y: int, mapId: int): (r: seq<Action>)
    ensures |r| == 1 && r[0].enum == 0 && r[0].actionId == SpawnActionId
    ensures r[0].x == x && r[0].y == y && r[0].mapId == mapId
  {
    [Action(0, SpawnActionId, x, y, mapId)]
  }

  /** Each action is numbered one more than the one before it; stated for
      every pair of positions, so the numbers are strictly increasing and two
      entries differ by exactly their distance in the list. */
  ghost predicate Consecutive(t: seq<Action>)
  {
    forall i, j :: 0 <= i <= j < |t| ==> t[j].enum == t[i].enum + (j - i)
  }

  /** What every stored action list satisfies: non-empty, at most
      `MaxActions` long, consecutively numbered, and all of its actions on
      the map that holds the player. */
  ghost predicate WellFormedLog(t: seq<Action>, mapId: int)
  {
    && 0 < |t| <= MaxActions
    && Consecutive(t)
    && forall i :: 0 <= i < |t| ==> t[i].mapId == mapId
  }

  /** The invariant of the registry: each player is stored under its own uuid
      and has a well-formed action list. */
  ghost predicate WellFormed(maps: Registry)
  {
    forall m, u :: m in maps && u in maps[m] ==>
      maps[m][u].uuid == u && WellFormedLog(maps[m][u].actions, m)
  }

  /** The new action list `AQ` stores: the next number is the last one plus
      one; a list longer than `TrimAbove` loses its oldest entry; then the new
      action is appended. */
  function NextActions(t: seq<Action>, actionId: int, x: int, y: int, mapId: int): (r: seq<Action>)
    requires |t| > 0
    ensures |r| == if |t| > TrimAbove then |t| else |t| + 1
    ensures r[|r| - 1] == Action(t[|t| - 1].enum + 1, actionId, x, y, mapId)
    ensures forall i :: 0 <= i < |r| - 1 ==> r[i] == t[i + |t| + 1 - |r|]
    ensures |t| <= MaxActions ==> |r| <= MaxActions
  {
    var enum := t[|t| - 1].enum + 1;
    var kept := if |t| > TrimAbove then t[1..] else t;
    kept + [Action(enum, actionId, x, y, mapId)]
  }

  /** `AQ` keeps a consecutively numbered list consecutively numbered. */
  lemma NextActionsConsecutive(t: seq<Action>, actionId: int, x: int, y: int, mapId: int)
    requires |t| > 0 && Consecutive(t)
    ensures Consecutive(NextActions(t, actionId, x, y, mapId))
  {
    var r := NextActions(t, actionId, x, y, mapId);
    var k := |t| + 1 - |r|;
    forall i, j | 0 <= i <= j < |r|
      ensures r[j].enum == r[i].enum + (j - i)
    {
      if i == |r| - 1 {
      } else if j < |r| - 1 {
        assert r[i] == t[k + i];
        assert r[j] == t[k + j];
      } else {
        assert t[|t| - 1].enum == t[k + i].enum + (|t| - 1 - k - i);
      }
    }
  }

  /** The number `AQ` gives the new action is larger than every number still
      in the list, so numbers are never reused. */
  lemma NextEnumIsFresh(t: seq<Action>, actionId: int, x: int, y: int, mapId: int)
    requires |t| > 0 && Consecutive(t)
    ensures var r := NextActions(t, actionId, x, y, mapId);
      forall a :: a in t ==> a.enum < r[|r| - 1].enum
  {
    forall a | a in t
      ensures a.enum < t[|t| - 1].enum + 1
    {
      var i :| 0 <= i < |t| && t[i] == a;
      assert t[|t| - 1].enum == t[i].enum + (|t| - 1 - i);
    }
  }

  /** `AQ` keeps a well-formed list well-formed when it is given the id of the
      map the list belongs to. */
  lemma NextActionsWellFormed(t: seq<Action>, actionId: int, x: int, y: int, mapId: int)
    requires WellFormedLog(t, mapId)
    ensures WellFormedLog(NextActions(t, actionId, x, y, mapId), mapId)
  {
    NextActionsConsecutive(t, actionId, x, y, mapId);
    var r := NextActions(t, actionId, x, y, mapId);
    var k := |t| + 1 - |r|;
    forall i | 0 <= i < |r|
      ensures r[i].mapId == mapId
    {
      if i < |r| - 1 {
        assert r[i] == t[k + i];
      }
    }
  }

  /** The action list after `n` calls of `AQ` with the same arguments. */
  function Replay(t: seq<Action>, n: nat, actionId: int, x: int, y: int, mapId: int): (r: seq<Action>)
    requires |t| > 0
    ensures |r| > 0
    decreases n
  {
    if n == 0 then t
    else NextActions(Replay(t, n - 1, actionId, x, y, mapId), actionId, x, y, mapId)
  }

  /** One `AQ` step on a consecutive list: which entry comes first and how
      long the list is afterwards. */
  lemma NextActionsShape(t: seq<Action>, actionId: int, x: int, y: int, mapId: int)
    requires |t| > 0 && Consecutive(t)
    ensures var r := NextActions(t, actionId, x, y, mapId);
      && Consecutive(r)
      && r[0].enum == (if |t| > TrimAbove then t[0].enum + 1 else t[0].enum)
  {
    NextActionsConsecutive(t, actionId, x, y, mapId);
    if |t| > TrimAbove {
      assert t[1].enum == t[0].enum + (1 - 0);
    }
  }

  /** The shape of the list after a login and `n` actions: the newest
      `min(n + 1, 11)` entries, numbered consecutively up to `n`. */
  ghost predicate ShapeAfter(t: seq<Action>, n: nat)
  {
    && |t| == (if n < MaxActions then n + 1 else MaxActions)
    && t[|t| - 1].enum == n
    && t[0].enum == (if n < MaxActions then 0 else n - TrimAbove)
    && Consecutive(t)
  }

  /** One more `AQ` moves the shape from `n` to `n + 1`. */
  lemma ShapeAfterStep(s: seq<Action>, n: nat, actionId: int, x: int, y: int, mapId: int)
    requires ShapeAfter(s, n)
    ensures ShapeAfter(NextActions(s, actionId, x, y, mapId), n + 1)
  {
    NextActionsShape(s, actionId, x, y, mapId);
  }

  /** A player who logs in and then submits `n` actions holds the newest
      `min(n + 1, 11)` entries, numbered consecutively up to `n`. */
  lemma {:induction false} LoginThenActions(n: nat, x0: int, y0: int, actionId: int, x: int, y: int, mapId: int)
    ensures ShapeAfter(Replay(MakeActionList(x0, y0, mapId), n, actionId, x, y, mapId), n)
  {
    var start := MakeActionList(x0, y0, mapId);
    if n == 0 {
      assert Replay(start, 0, actionId, x, y, mapId) == start;
    } else {
      var s := Replay(start, n - 1, actionId, x, y, mapId);
      assert ShapeAfter(NextActions(s, actionId, x, y, mapId), n) by {
        LoginThenActions(n - 1, x0, y0, actionId, x, y, mapId);
        ShapeAfterStep(s, n - 1, actionId, x, y, mapId);
      }
      assert Replay(start, n, actionId, x, y, mapId) == NextActions(s, actionId, x, y, mapId);
    }
  }

  /** Eleven actions after a login: the list holds eleven entries, only the
      login entry is gone, and the newest entry is numbered 11. */
  lemma ElevenActionsAfterLogin(x0: int, y0: int, actionId: int, x: int, y: int, mapId: int)
    ensures var t := Replay(MakeActionList(x0, y0, mapId), 11, actionId, x, y, mapId);
      && |t| == 11 && t[0].enum == 1 && t[10].enum == 11
      && forall i :: 0 <= i < 11 ==> t[i].enum == i + 1
  {
    LoginThenActions(11, x0, y0, actionId, x, y, mapId);
  }
}
