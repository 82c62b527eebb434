/**
 * The second proximity resolver: an object per kind of agent that holds the
 * agents of that kind, a spatial index over their locations, and the flag
 * saying whether the index exists, and answers "the nearest agent, if it is
 * within the radius and oriented correctly".
 */
module NonPlayer {
  import opened Wrappers
  import opened Geometry
  import opened Helpers
  import Spatial

  /**
   * `_is_valid_rot`: the difference of the two yaws, wrapped into
   * [-180, 180), shifted by `rotDif`, lies in the closed window
   * [-thresh, thresh].
   */
  predicate IsValidRot(rot1: real, rot2: real, rotDif: real, thresh: real)
  {
    var yawDiff := Mod360(rot1 - rot2 + 180.0) - 180.0 + rotDif;
    -thresh <= yawDiff <= thresh
  }

  /**
   * The gate in plain terms for the shift of -90 degrees both callers use:
   * `rot1` is between `90 - thresh` and `90 + thresh` degrees ahead of `rot2`
   * around the circle, both bounds included.
   */
  lemma RotWindow(rot1: real, rot2: real, thresh: real)
    requires 0.0 <= thresh < 90.0
    ensures IsValidRot(rot1, rot2, -90.0, thresh) <==> 90.0 - thresh <= Mod360(rot1 - rot2) <= 90.0 + thresh
  {
    var x := rot1 - rot2;
    assert rot1 - rot2 + 180.0 == x + 180.0;
    HalfTurn(x);
    if Mod360(x) < 180.0 {
      assert Mod360(x + 180.0) - 180.0 - 90.0 == Mod360(x) - 90.0;
    } else {
      assert Mod360(x + 180.0) - 180.0 - 90.0 < -thresh;
    }
  }

  /** Adding a full turn to either yaw does not change the verdict. */
  lemma ValidRotPeriodic(rot1: real, rot2: real, rotDif: real, thresh: real)
    ensures IsValidRot(rot1 + 360.0, rot2, rotDif, thresh) == IsValidRot(rot1, rot2, rotDif, thresh)
    ensures IsValidRot(rot1, rot2 + 360.0, rotDif, thresh) == IsValidRot(rot1, rot2, rotDif, thresh)
  {
    var x := rot1 - rot2 + 180.0;
    Mod360Periodic(x, 1);
    Mod360Periodic(x, -1);
    assert rot1 + 360.0 - rot2 + 180.0 == x + 360.0 * (1 as real);
    assert rot1 - (rot2 + 360.0) + 180.0 == x + 360.0 * (-1 as real);
  }

  /**
   * What `update_agents` keeps: the sub-object (the body) of each agent that
   * has the field `agentType`, in order.
   */
  function SubObjects(allAgents: seq<Agent>, agentType: string): (subs: seq<Body>)
    ensures |subs| == |GetAgents(allAgents, agentType)|
    ensures forall i :: 0 <= i < |subs| ==> subs[i] == GetAgents(allAgents, agentType)[i].body
    ensures forall i :: 0 <= i < |subs| ==> FieldName(subs[i]) == agentType
  {
    var filtered := GetAgents(allAgents, agentType);
    assert forall i :: 0 <= i < |filtered| ==> HasField(filtered[i], agentType) by {
      forall i | 0 <= i < |filtered| ensures HasField(filtered[i], agentType) {
        GetAgentsOnlyMatching(allAgents, agentType, filtered[i]);
      }
    }
    seq(|filtered|, i requires 0 <= i < |filtered| => filtered[i].body)
  }

  /** The fields the agent message declares, one per kind of body. */
  const DeclaredFields: seq<string> := ["vehicle", "pedestrian", "traffic_light", "speed_limit_sign"]

  /**
   * `getattr(agent, name)` for a declared field: the body when it is held in
   * that field, and otherwise the field's default message, which lies at the
   * origin with state 0 and limit 0.
   */
  function FieldOf(a: Agent, name: string): (b: Body)
    requires name in DeclaredFields
    ensures FieldName(b) == name
    ensures HasField(a, name) ==> b == a.body
    ensures !HasField(a, name) ==> b.transform == DefaultTransform
  {
    if HasField(a, name) then a.body
    else if name == "vehicle" then Vehicle(DefaultTransform)
    else if name == "pedestrian" then Pedestrian(DefaultTransform)
    else if name == "traffic_light" then TrafficLightAgent(DefaultTransform, GREEN)
    else SpeedLimitSign(DefaultTransform, 0.0)
  }

  /**
   * `update_agents` as written: on a protobuf message `hasattr` holds for
   * every declared field, set or not, so no agent is filtered out, and
   * `getattr` turns an agent of another kind into the field's default.
   */
  function SubObjectsAsWritten(allAgents: seq<Agent>, agentType: string): (subs: seq<Body>)
    ensures agentType !in DeclaredFields ==> subs == []
    ensures agentType in DeclaredFields ==>
              |subs| == |allAgents| && forall i :: 0 <= i < |allAgents| ==> subs[i] == FieldOf(allAgents[i], agentType)
  {
    if agentType !in DeclaredFields then []
    else seq(|allAgents|, i requires 0 <= i < |allAgents| => FieldOf(allAgents[i], agentType))
  }

  /**
   * A frame whose only agent is a vehicle: the sign resolver should hold no
   * sign, but as written it holds a sign with limit 0 at the origin, and a car
   * at the origin heading -90 degrees finds that sign within 12, facing it.
   */
  lemma HasattrKeepsVehicleAsSign(o: NonPlayerObjects, v: Transform)
    requires o.Valid() && o.agentType == "speed_limit_sign"
    requires o.agents == Some(SubObjectsAsWritten([Agent(1, Vehicle(v))], o.agentType))
    requires o.tree == Some(Locations(o.agents.value))
    ensures SubObjects([Agent(1, Vehicle(v))], o.agentType) == []
    ensures o.agents == Some([SpeedLimitSign(DefaultTransform, 0.0)])
    ensures o.GetClosestWithRotation(Transform(Origin, -90.0), 12.0, -90.0, 20.0)
              == Returned(Closest(Some(SpeedLimitSign(DefaultTransform, 0.0)), Some(0.0)))
  {
    assert DeclaredFields[3] == o.agentType;
    assert o.agents.value[0] == FieldOf(Agent(1, Vehicle(v)), o.agentType) == SpeedLimitSign(DefaultTransform, 0.0);
    assert |o.agents.value| == 1;
    assert o.agents.value == [SpeedLimitSign(DefaultTransform, 0.0)];
    assert GetAgents([Agent(1, Vehicle(v))], o.agentType) == [] by {
      assert GetAgents([Agent(1, Vehicle(v))][1..], o.agentType) == [];
    }
    assert Mod360(-90.0 - 0.0 + 180.0 + 180.0) == 270.0 by {
      assert ((270.0 / 360.0).Floor) == 0;
    }
  }

  /** The locations the index is built from, one per sub-object, in order. */
  function Locations(subs: seq<Body>): (points: seq<Point>)
    ensures |points| == |subs|
    ensures forall i :: 0 <= i < |subs| ==> points[i] == subs[i].transform.location
  {
    seq(|subs|, i requires 0 <= i < |subs| => subs[i].transform.location)
  }

  /** The answer of `get_closest_with_rotation`: both parts `None`, or an agent and its distance. */
  datatype Closest = Closest(agent: Option<Body>, distance: Option<real>)

  class NonPlayerObjects {
    /** `_agents`: `None` until `update_agents` runs. */
    var agents: Option<seq<Body>>
    /** `_KD_tree`: the points the index was built from, `None` until it is built. */
    var tree: Option<seq<Point>>
    /** `_agent_type`: the field name of the kind this object tracks. */
    const agentType: string
    var valid: bool

    /** The index exists exactly when `valid` is set, is never empty, and the agents were set before it. */
    ghost predicate Valid()
      reads this
    {
      (valid <==> tree.Some?)
      && (valid ==> |tree.value| > 0 && agents.Some?)
    }

    constructor (agentType: string)
      ensures Valid()
      ensures this.agentType == agentType
      ensures agents == None && tree == None && !valid
    {
      this.agentType := agentType;
      agents, tree := None, None;
      valid := false;
    }

    /** `update_agents`: keep the sub-objects of the agents of this kind; the index is left alone. */
    method UpdateAgents(allAgents: seq<Agent>)
      requires Valid()
      modifies this`agents
      ensures Valid()
      ensures agents == Some(SubObjects(allAgents, agentType))
    {
      agents := Some(SubObjects(allAgents, agentType));
    }

    /**
     * `initialize_KD_tree`: build the index over the agents' locations and
     * set `valid`, unless there is no agent, in which case nothing changes.
     */
    method InitializeKDTree()
      requires Valid() && agents.Some?
      modifies this`tree, this`valid
      ensures Valid()
      ensures |agents.value| > 0 ==> tree == Some(Locations(agents.value)) && valid
      ensures |agents.value| == 0 ==> tree == old(tree) && valid == old(valid)
    {
      var subs := agents.value;
      var locations: seq<Point> := [];
      var i := 0;
      while i < |subs|
        invariant 0 <= i <= |subs|
        invariant locations == Locations(subs[..i])
      {
        locations := locations + [subs[i].transform.location];
        i := i + 1;
      }
      assert subs[..i] == subs;
      if locations != [] {
        tree := Some(locations);
        valid := true;
      }
    }

    /**
     * `get_closest_with_rotation`: the agent at the point nearest to the
     * player, with its (squared) distance, if the index exists, that distance
     * is below `radius`, and the agent's yaw passes the gate; `(None, None)`
     * otherwise. Only the nearest agent is ever examined. When the agent list
     * has shrunk since the index was built, looking the nearest point up in
     * it raises `IndexError`.
     */
    function GetClosestWithRotation(player: Transform, radius: real, rotDif: real, thresh: real)
      : (r: Outcome<Closest>)
      requires Valid()
      reads this
      ensures !valid ==> r == Returned(Closest(None, None))
      ensures r.Returned? ==> (r.value.agent.None? <==> r.value.distance.None?)
      ensures valid ==>
        var k := Spatial.Nearest(tree.value, player.location);
        var d2 := SqDist(tree.value[k], player.location);
        && (r.RaisedIndexError? <==> CloserThan(d2, radius) && k >= |agents.value|)
        && (r.Returned? && r.value.agent.Some? <==>
              CloserThan(d2, radius) && k < |agents.value|
              && IsValidRot(agents.value[k].transform.yaw, player.yaw, rotDif, thresh))
        && (r.Returned? && r.value.agent.Some? ==>
              r.value == Closest(Some(agents.value[k]), Some(d2)))
    {
      if !valid then Returned(Closest(None, None))
      else
        var points := tree.value;
        var index := Spatial.Nearest(points, player.location);
        var distance := SqDist(points[index], player.location);
        if !CloserThan(distance, radius) then Returned(Closest(None, None))
        else if index >= |agents.value| then RaisedIndexError
        else
          var closestAgent := agents.value[index];
          if IsValidRot(closestAgent.transform.yaw, player.yaw, rotDif, thresh)
          then Returned(Closest(Some(closestAgent), Some(distance)))
          else Returned(Closest(None, None))
    }
  }
}
