/**
 * The module-level helpers of the first proximity resolver: filtering the
 * simulator's non-player agents by kind, building a spatial index of one kind,
 * the orientation gate, and the traffic light that governs the car.
 */
module Helpers {
  import opened Wrappers
  import opened Geometry
  import Spatial

  /** Traffic-light states, with the values the simulator reports. */
  datatype TrafficLight = GREEN | YELLOW | RED | ERROR | NONE {
    function Value(): (v: nat)
      ensures v < 5
    {
      match this
      case GREEN => 0
      case YELLOW => 1
      case RED => 2
      case ERROR => 3
      case NONE => 4
    }
  }

  /**
   * The body of a non-player agent: the one field of the simulator's agent
   * message that is set.
   */
  datatype Body =
    | Vehicle(transform: Transform)
    | Pedestrian(transform: Transform)
    | TrafficLightAgent(transform: Transform, state: TrafficLight)
    | SpeedLimitSign(transform: Transform, speedLimit: real)

  datatype Agent = Agent(id: int, body: Body)

  /** The name of the message field that holds the body. */
  function FieldName(b: Body): string
  {
    match b
    case Vehicle(_) => "vehicle"
    case Pedestrian(_) => "pedestrian"
    case TrafficLightAgent(_, _) => "traffic_light"
    case SpeedLimitSign(_, _) => "speed_limit_sign"
  }

  /** `agent.HasField(name)`: the agent's body is held in the field `name`. */
  predicate HasField(a: Agent, name: string)
  {
    FieldName(a.body) == name
  }

  /**
   * `agent.traffic_light.transform`: the light's transform, or the default
   * transform when the field is not set (the message default).
   */
  function LightTransform(a: Agent): Transform
  {
    if a.body.TrafficLightAgent? then a.body.transform else DefaultTransform
  }

  /** `agent.traffic_light.state`, the message default (0, GREEN) when not set. */
  function LightState(a: Agent): TrafficLight
  {
    if a.body.TrafficLightAgent? then a.body.state else GREEN
  }

  /** `k` is the position of the first agent with id `agentId`. */
  ghost predicate IsFirstWithId(agents: seq<Agent>, agentId: int, k: int)
  {
    0 <= k < |agents| && agents[k].id == agentId
    && forall j :: 0 <= j < k ==> agents[j].id != agentId
  }

  /** `get_agent`: the first agent with the given id, `None` when there is none. */
  function GetAgent(agentId: int, agents: seq<Agent>): (r: Option<Agent>)
    ensures r.None? <==> forall i :: 0 <= i < |agents| ==> agents[i].id != agentId
    ensures r.Some? ==> exists k :: IsFirstWithId(agents, agentId, k) && agents[k] == r.value
  {
    if agents == [] then None
    else if agents[0].id == agentId then
      assert IsFirstWithId(agents, agentId, 0);
      Some(agents[0])
    else
      var r := GetAgent(agentId, agents[1..]);
      assert r.Some? ==> exists k :: IsFirstWithId(agents, agentId, k) && agents[k] == r.value by {
        if r.Some? {
          var k :| IsFirstWithId(agents[1..], agentId, k) && agents[1..][k] == r.value;
          assert IsFirstWithId(agents, agentId, k + 1);
        }
      }
      r
  }

  /** `r` keeps some of the elements of `s`, in their order in `s`. */
  ghost predicate IsSubsequence(r: seq<Agent>, s: seq<Agent>)
    decreases |s|
  {
    r == [] || (s != [] && ((r[0] == s[0] && IsSubsequence(r[1..], s[1..])) || IsSubsequence(r, s[1..])))
  }

  /**
   * `get_agents`: the agents whose body is held in the field `agentType`,
   * all of them and only them, in their original order.
   */
  function GetAgents(agents: seq<Agent>, agentType: string): (r: seq<Agent>)
    ensures IsSubsequence(r, agents)
    ensures forall a :: multiset(r)[a] == if HasField(a, agentType) then multiset(agents)[a] else 0
  {
    if agents == [] then []
    else
      var rest := GetAgents(agents[1..], agentType);
      assert agents == [agents[0]] + agents[1..];
      if HasField(agents[0], agentType) then
        assert ([agents[0]] + rest)[1..] == rest;
        [agents[0]] + rest
      else rest
  }

  lemma {:induction false} GetAgentsOnlyMatching(agents: seq<Agent>, agentType: string, a: Agent)
    ensures a in GetAgents(agents, agentType) <==> a in agents && HasField(a, agentType)
  {
    var r := GetAgents(agents, agentType);
    assert a in r <==> multiset(r)[a] > 0;
    assert a in agents <==> multiset(agents)[a] > 0;
  }

  /** The agents filtered as `"traffic_light"` are exactly the traffic lights. */
  lemma GetLightsOnlyLights(agents: seq<Agent>, a: Agent)
    ensures a in GetAgents(agents, "traffic_light") <==> a in agents && a.body.TrafficLightAgent?
  {
    GetAgentsOnlyMatching(agents, "traffic_light", a);
    assert |FieldName(a.body)| == 13 <==> a.body.TrafficLightAgent?;
  }

  /** A spatial index of one kind of agent: the points and the ids of their agents. */
  datatype KDResult =
    | NoTree
    | Tree(points: seq<Point>, ids: seq<int>)

  /** The loop of `get_KDtree`: the locations and ids it collects from `filtered`. */
  function CollectLocations(filtered: seq<Agent>, agentType: string): (r: (seq<Point>, seq<int>))
    ensures |r.0| == |r.1|
    ensures agentType == "traffic_light" || agentType == "speed_limit" ==>
              |r.0| == |filtered|
              && forall i :: 0 <= i < |filtered| ==>
                   r.0[i] == LightTransform(filtered[i]).location && r.1[i] == filtered[i].id
    ensures agentType != "traffic_light" && agentType != "speed_limit" ==> r.0 == []
  {
    if filtered == [] then ([], [])
    else
      var rest := CollectLocations(filtered[1..], agentType);
      if agentType == "traffic_light" || agentType == "speed_limit" then
        ([LightTransform(filtered[0]).location] + rest.0, [filtered[0].id] + rest.1)
      else rest
  }

  /**
   * `get_KDtree`: an index over the agents of one kind, with the ids in the
   * order of the points, or `NoTree` when no point was collected.
   */
  function GetKDTree(agents: seq<Agent>, agentType: string): (r: KDResult)
    ensures r.Tree? ==> |r.points| == |r.ids| > 0
    ensures r.NoTree? <==>
              GetAgents(agents, agentType) == []
              || (agentType != "traffic_light" && agentType != "speed_limit")
    ensures r.Tree? ==> var filtered := GetAgents(agents, agentType);
              |r.points| == |filtered|
              && forall i :: 0 <= i < |filtered| ==>
                   r.points[i] == LightTransform(filtered[i]).location && r.ids[i] == filtered[i].id
  {
    var collected := CollectLocations(GetAgents(agents, agentType), agentType);
    if collected.0 != [] then Tree(collected.0, collected.1) else NoTree
  }

  /**
   * The index is built only for `"traffic_light"` and `"speed_limit"`; any
   * other kind, such as the `"speed_limit_sign"` the older controller asks
   * for, yields no index whatever the agents are.
   */
  lemma OnlyLightsAndSpeedLimitsIndexed(agents: seq<Agent>, agentType: string)
    requires agentType != "traffic_light" && agentType != "speed_limit"
    ensures GetKDTree(agents, agentType) == NoTree
  {
  }

  /**
   * No agent body is held in a field named `"speed_limit"`, so that branch of
   * `get_KDtree` never collects a point either.
   */
  lemma {:induction false} SpeedLimitKindNeverIndexed(agents: seq<Agent>)
    ensures GetKDTree(agents, "speed_limit") == NoTree
  {
    if GetAgents(agents, "speed_limit") != [] {
      var a := GetAgents(agents, "speed_limit")[0];
      GetAgentsOnlyMatching(agents, "speed_limit", a);
    }
  }

  /**
   * `is_valid_yaw`: after shifting both yaws by 180 degrees, the wrapped
   * difference minus 90 lies strictly between -0.5 and 5.0.
   */
  predicate IsValidYaw(carYaw: real, agentYaw: real)
  {
    var car := carYaw + 180.0;
    var agent := agentYaw + 180.0;
    var yawDiff := Mod360(car - agent + 180.0) - 90.0;
    yawDiff < 5.0 && yawDiff > -0.5
  }

  /** `(x + 180) % 360` is `x % 360` turned by half a circle. */
  lemma HalfTurn(x: real)
    ensures Mod360(x + 180.0) == if Mod360(x) < 180.0 then Mod360(x) + 180.0 else Mod360(x) - 180.0
  {
    var f := (x / 360.0).Floor;
    var g := ((x + 180.0) / 360.0).Floor;
    assert (x + 180.0) / 360.0 == x / 360.0 + 0.5;
    if Mod360(x) < 180.0 {
      assert g == f;
    } else {
      assert g == f + 1;
    }
  }

  /**
   * The gate in plain terms: the agent's yaw lies between 269.5 and 275
   * degrees (exclusive) behind the car's yaw, measured around the circle.
   * Both open bounds of the source are kept.
   */
  lemma ValidYawWindow(carYaw: real, agentYaw: real)
    ensures IsValidYaw(carYaw, agentYaw) <==> 269.5 < Mod360(carYaw - agentYaw) < 275.0
  {
    var x := carYaw - agentYaw;
    assert (carYaw + 180.0) - (agentYaw + 180.0) + 180.0 == x + 180.0;
    HalfTurn(x);
  }

  /** Adding a full turn to either yaw does not change the verdict. */
  lemma ValidYawPeriodic(carYaw: real, agentYaw: real)
    ensures IsValidYaw(carYaw + 360.0, agentYaw) == IsValidYaw(carYaw, agentYaw)
    ensures IsValidYaw(carYaw, agentYaw + 360.0) == IsValidYaw(carYaw, agentYaw)
  {
    var x := carYaw - agentYaw;
    ValidYawWindow(carYaw, agentYaw);
    ValidYawWindow(carYaw + 360.0, agentYaw);
    ValidYawWindow(carYaw, agentYaw + 360.0);
    Mod360Periodic(x, 1);
    Mod360Periodic(x, -1);
    assert carYaw + 360.0 - agentYaw == x + 360.0 * (1 as real);
    assert carYaw - (agentYaw + 360.0) == x + 360.0 * (-1 as real);
  }

  /** Some point of the index within `radius` of `location` carries the id `id`. */
  ghost predicate IdWithinRadius(tree: KDResult, location: Point, radius: real, id: int)
    requires tree.Tree? && |tree.points| == |tree.ids|
  {
    exists i :: 0 <= i < |tree.points| && tree.ids[i] == id
                && NoFartherThan(SqDist(tree.points[i], location), radius)
  }

  /**
   * The ids, from the index, of the points within `radius` of `location`,
   * in index order.
   */
  function InRadiusIds(tree: KDResult, location: Point, radius: real): (ids: seq<int>)
    requires tree.Tree? && |tree.points| == |tree.ids|
    ensures forall id :: id in ids <==> IdWithinRadius(tree, location, radius, id)
  {
    var ix := Spatial.QueryBall(tree.points, location, radius);
    assert forall k :: 0 <= k < |ix| ==> ix[k] in ix;
    var ids := seq(|ix|, k requires 0 <= k < |ix| => tree.ids[ix[k]]);
    assert forall id :: id in ids ==> IdWithinRadius(tree, location, radius, id) by {
      forall id | id in ids ensures IdWithinRadius(tree, location, radius, id) {
        var k :| 0 <= k < |ix| && ids[k] == id;
        assert ix[k] in ix;
      }
    }
    assert forall id :: IdWithinRadius(tree, location, radius, id) ==> id in ids by {
      forall id | IdWithinRadius(tree, location, radius, id) ensures id in ids {
        var i :| 0 <= i < |tree.points| && tree.ids[i] == id
                 && NoFartherThan(SqDist(tree.points[i], location), radius);
        assert i in ix;
        var k :| 0 <= k < |ix| && ix[k] == i;
        assert ids[k] == id;
      }
    }
    ids
  }

  /**
   * The current traffic lights whose ids were found within the radius: each
   * id looked up among `lights`, the ids that match no light dropped.
   */
  function ResolveIds(ids: seq<int>, lights: seq<Agent>): (found: seq<Agent>)
    ensures forall a :: a in found ==> a in lights && a.id in ids
  {
    if ids == [] then []
    else
      var rest := ResolveIds(ids[1..], lights);
      match GetAgent(ids[0], lights)
      case None => rest
      case Some(a) =>
        [a] + rest
  }

  /** Every id that names a light is resolved to some light with that id. */
  lemma {:induction false} ResolveIdsComplete(ids: seq<int>, lights: seq<Agent>, a: Agent)
    requires a.id in ids && a in lights
    ensures exists b :: b in ResolveIds(ids, lights) && b.id == a.id
  {
    if ids[0] == a.id {
      var i :| 0 <= i < |lights| && lights[i] == a;
      var r := GetAgent(ids[0], lights);
      var k :| IsFirstWithId(lights, a.id, k) && lights[k] == r.value;
      assert r.value in ResolveIds(ids, lights);
    } else {
      ResolveIdsComplete(ids[1..], lights, a);
      var b :| b in ResolveIds(ids[1..], lights) && b.id == a.id;
      assert b in ResolveIds(ids, lights);
    }
  }

  /**
   * `find_current_traffic_light`: the state of the traffic light that
   * governs the car. `NONE` without an index; `GREEN` when no current light
   * was indexed within the radius; otherwise the state of the nearest such
   * light if its yaw passes the gate, and `GREEN` if it does not.
   */
  function FindCurrentTrafficLight(tree: KDResult, agents: seq<Agent>, car: Transform,
                                   radius: real := 12.0): (r: TrafficLight)
    requires tree.Tree? ==> |tree.points| == |tree.ids|
    ensures tree.NoTree? ==> r == NONE
    ensures tree.Tree? && r != GREEN ==>
              exists a :: a in agents && a.body.TrafficLightAgent? && a.body.state == r
                          && a.id in InRadiusIds(tree, car.location, radius)
                          && IsValidYaw(car.yaw, a.body.transform.yaw)
  {
    if tree.NoTree? then NONE
    else
      var allLights := GetAgents(agents, "traffic_light");
      var inRadius := InRadiusIds(tree, car.location, radius);
      var found := ResolveIds(inRadius, allLights);
      if found == [] then GREEN
      else
        assert forall a :: a in found ==> a in allLights && a.body.TrafficLightAgent? by {
          forall a | a in found ensures a in allLights && a.body.TrafficLightAgent? {
            GetLightsOnlyLights(agents, a);
          }
        }
        match ClosestLight(found, allLights, car.location)
        case None => GREEN
        case Some(closest) =>
          if IsValidYaw(car.yaw, LightTransform(closest).yaw) then
            ClosestIsCandidate(agents, inRadius, closest);
            LightState(closest)
          else GREEN
  }

  lemma ClosestIsCandidate(agents: seq<Agent>, inRadius: seq<int>, closest: Agent)
    requires closest in GetAgents(agents, "traffic_light")
    requires exists a :: a in ResolveIds(inRadius, GetAgents(agents, "traffic_light")) && a.id == closest.id
    ensures closest in agents && closest.body.TrafficLightAgent? && closest.id in inRadius
  {
    GetLightsOnlyLights(agents, closest);
    var a :| a in ResolveIds(inRadius, GetAgents(agents, "traffic_light")) && a.id == closest.id;
  }

  /** Position `k` of `found` holds a light no farther from `location` than any other. */
  ghost predicate IsNearestLight(found: seq<Agent>, k: int, location: Point)
  {
    0 <= k < |found|
    && forall j :: 0 <= j < |found| ==>
         SqDist(LightTransform(found[k]).location, location) <= SqDist(LightTransform(found[j]).location, location)
  }

  /** Every light before position `k` of `found` is strictly farther from `location` than the one at `k`. */
  ghost predicate EarlierLightsFarther(found: seq<Agent>, k: int, location: Point)
    requires 0 <= k < |found|
  {
    forall j :: 0 <= j < k ==>
      SqDist(LightTransform(found[k]).location, location) < SqDist(LightTransform(found[j]).location, location)
  }

  /**
   * The nearest of the lights found within the radius, looked up again by id
   * among all current lights (the second index `find_current_traffic_light`
   * builds, and its `query`).
   */
  function ClosestLight(found: seq<Agent>, allLights: seq<Agent>, location: Point): (c: Option<Agent>)
    requires found != []
    requires forall a :: a in found ==> a in allLights && a.body.TrafficLightAgent?
    ensures c.Some? ==> c.value in allLights && exists a :: a in found && a.id == c.value.id
    ensures exists k :: 0 <= k < |found| && IsNearestLight(found, k, location) && EarlierLightsFarther(found, k, location)
                        && c == GetAgent(found[k].id, allLights)
  {
    GetAgentsKeepsAll(found, "traffic_light");
    var sub := GetKDTree(found, "traffic_light");
    var k := Spatial.Nearest(sub.points, location);
    var c := GetAgent(sub.ids[k], allLights);
    NearestPointIsFirstNearestLight(found, sub.points, location);
    assert sub.ids[k] == found[k].id && found[k] in found;
    assert c.Some? ==> c.value in allLights by {
      if c.Some? {
        var j :| IsFirstWithId(allLights, sub.ids[k], j) && allLights[j] == c.value;
      }
    }
    c
  }

  /** The nearest of the lights' points is a nearest light, and the first of them. */
  lemma NearestPointIsFirstNearestLight(found: seq<Agent>, points: seq<Point>, location: Point)
    requires |points| == |found| > 0
    requires forall i :: 0 <= i < |found| ==> points[i] == LightTransform(found[i]).location
    ensures var k := Spatial.Nearest(points, location);
              IsNearestLight(found, k, location) && EarlierLightsFarther(found, k, location)
  {
  }

  /** Filtering agents that all have the field keeps every one of them. */
  lemma {:induction false} GetAgentsKeepsAll(agents: seq<Agent>, agentType: string)
    requires forall a :: a in agents ==> HasField(a, agentType)
    ensures GetAgents(agents, agentType) == agents
  {
    if agents != [] {
      GetAgentsKeepsAll(agents[1..], agentType);
    }
  }

  /** Every current traffic light id appears once. */
  ghost predicate UniqueLightIds(agents: seq<Agent>)
  {
    forall a, b ::
      (a in agents && b in agents && a.body.TrafficLightAgent? && b.body.TrafficLightAgent? && a.id == b.id) ==> a == b
  }

  /**
   * With no current traffic light among those indexed within the radius, the
   * light is `GREEN`.
   */
  lemma NoCandidateGivesGreen(tree: KDResult, agents: seq<Agent>, car: Transform, radius: real)
    requires tree.Tree? && |tree.points| == |tree.ids|
    requires forall a :: a in agents && a.body.TrafficLightAgent? ==>
               a.id !in InRadiusIds(tree, car.location, radius)
    ensures FindCurrentTrafficLight(tree, agents, car, radius) == GREEN
  {
    var allLights := GetAgents(agents, "traffic_light");
    var found := ResolveIds(InRadiusIds(tree, car.location, radius), allLights);
    if found != [] {
      GetLightsOnlyLights(agents, found[0]);
    }
  }

  /**
   * Only the nearest candidate decides. When light `c` is indexed within the
   * radius and is strictly nearer (by its current location) than every other
   * such light, the result is `c`'s state if `c`'s yaw passes the gate and
   * `GREEN` if not, however well a farther light is oriented.
   */
  lemma NearestCandidateDecides(tree: KDResult, agents: seq<Agent>, car: Transform, radius: real, c: Agent)
    requires tree.Tree? && |tree.points| == |tree.ids|
    requires UniqueLightIds(agents)
    requires c in agents && c.body.TrafficLightAgent?
    requires c.id in InRadiusIds(tree, car.location, radius)
    requires forall b :: b in agents && b.body.TrafficLightAgent? && b != c
                         && b.id in InRadiusIds(tree, car.location, radius) ==>
               SqDist(c.body.transform.location, car.location) < SqDist(b.body.transform.location, car.location)
    ensures FindCurrentTrafficLight(tree, agents, car, radius) ==
              if IsValidYaw(car.yaw, c.body.transform.yaw) then c.body.state else GREEN
  {
    var allLights := GetAgents(agents, "traffic_light");
    var inRadius := InRadiusIds(tree, car.location, radius);
    var found := ResolveIds(inRadius, allLights);
    CandidateFound(agents, inRadius, c);
    FoundAreLights(agents, inRadius);
    UniqueAmongLights(agents, c);
    NearestAmongFound(agents, inRadius, c, car.location);
    StrictlyNearestIsClosest(found, allLights, car.location, c);
  }

  /** A light strictly nearest among the current lights within the radius is strictly nearest among those resolved. */
  lemma NearestAmongFound(agents: seq<Agent>, inRadius: seq<int>, c: Agent, location: Point)
    requires c.body.TrafficLightAgent?
    requires forall b :: b in agents && b.body.TrafficLightAgent? && b != c && b.id in inRadius ==>
               SqDist(c.body.transform.location, location) < SqDist(b.body.transform.location, location)
    ensures forall b :: b in ResolveIds(inRadius, GetAgents(agents, "traffic_light")) && b != c ==>
              SqDist(LightTransform(c).location, location) < SqDist(LightTransform(b).location, location)
  {
    forall b | b in ResolveIds(inRadius, GetAgents(agents, "traffic_light")) && b != c
      ensures SqDist(LightTransform(c).location, location) < SqDist(LightTransform(b).location, location)
    {
      GetLightsOnlyLights(agents, b);
    }
  }

  /** A current light whose id was found within the radius is among the lights resolved from the ids. */
  lemma CandidateFound(agents: seq<Agent>, inRadius: seq<int>, c: Agent)
    requires UniqueLightIds(agents)
    requires c in agents && c.body.TrafficLightAgent? && c.id in inRadius
    ensures c in ResolveIds(inRadius, GetAgents(agents, "traffic_light"))
  {
    var allLights := GetAgents(agents, "traffic_light");
    GetLightsOnlyLights(agents, c);
    ResolveIdsComplete(inRadius, allLights, c);
    var a :| a in ResolveIds(inRadius, allLights) && a.id == c.id;
    GetLightsOnlyLights(agents, a);
  }

  /** The lights resolved from the ids are current traffic lights. */
  lemma FoundAreLights(agents: seq<Agent>, inRadius: seq<int>)
    ensures forall b :: b in ResolveIds(inRadius, GetAgents(agents, "traffic_light")) ==>
              b in GetAgents(agents, "traffic_light") && b.body.TrafficLightAgent?
  {
    forall b | b in ResolveIds(inRadius, GetAgents(agents, "traffic_light"))
      ensures b in GetAgents(agents, "traffic_light") && b.body.TrafficLightAgent?
    {
      GetLightsOnlyLights(agents, b);
    }
  }

  /** With unique light ids, no other current light shares `c`'s id. */
  lemma UniqueAmongLights(agents: seq<Agent>, c: Agent)
    requires UniqueLightIds(agents)
    requires c in agents && c.body.TrafficLightAgent?
    ensures forall b :: b in GetAgents(agents, "traffic_light") && b.id == c.id ==> b == c
  {
    forall b | b in GetAgents(agents, "traffic_light") && b.id == c.id ensures b == c {
      GetLightsOnlyLights(agents, b);
    }
  }

  /** A light strictly nearer than every other found light, with a unique id, is the closest one. */
  lemma StrictlyNearestIsClosest(found: seq<Agent>, allLights: seq<Agent>, location: Point, c: Agent)
    requires forall a :: a in found ==> a in allLights && a.body.TrafficLightAgent?
    requires c in found
    requires forall b :: b in allLights && b.id == c.id ==> b == c
    requires forall b :: b in found && b != c ==>
               SqDist(LightTransform(c).location, location) < SqDist(LightTransform(b).location, location)
    ensures ClosestLight(found, allLights, location) == Some(c)
  {
    var closest := ClosestLight(found, allLights, location);
    var k :| 0 <= k < |found| && IsNearestLight(found, k, location) && EarlierLightsFarther(found, k, location)
             && closest == GetAgent(found[k].id, allLights);
    var ci :| 0 <= ci < |found| && found[ci] == c;
    NearestIsStrictlyNearest(found, k, ci, location);
    GetAgentFindsUnique(allLights, c);
  }

  /** A nearest position holds the light that is strictly nearer than every other. */
  lemma NearestIsStrictlyNearest(found: seq<Agent>, k: int, ci: int, location: Point)
    requires IsNearestLight(found, k, location) && 0 <= ci < |found|
    requires forall b :: b in found && b != found[ci] ==>
               SqDist(LightTransform(found[ci]).location, location) < SqDist(LightTransform(b).location, location)
    ensures found[k] == found[ci]
  {
    assert found[k] in found;
  }

  /** Looking up the id of a light whose id is unique finds that light. */
  lemma GetAgentFindsUnique(lights: seq<Agent>, c: Agent)
    requires c in lights
    requires forall b :: b in lights && b.id == c.id ==> b == c
    ensures GetAgent(c.id, lights) == Some(c)
  {
    var i :| 0 <= i < |lights| && lights[i] == c;
    var r := GetAgent(c.id, lights);
    var k :| IsFirstWithId(lights, c.id, k) && lights[k] == r.value;
  }
}
