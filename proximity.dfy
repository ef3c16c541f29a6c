/** The nearest-island lookup of app/hooks/useBoatController.ts: the first
    island, in list order, that lies within the snap distance of the boat. */
module Proximity {
  import opened Motion

  /** An island as the controller sees it: its id and its position on the track. */
  datatype Island = Island(id: string, position: real)

  predicate Near(i: Island, boatX: real, snapDistance: real) {
    Abs(i.position - boatX) < snapDistance
  }

  /** Index of the first island near the boat, if any. */
  function FirstNear(islands: seq<Island>, boatX: real, snapDistance: real): (r: Option<nat>)
    ensures r.Some? ==> r.value < |islands| && Near(islands[r.value], boatX, snapDistance)
    ensures r.Some? ==> forall j :: 0 <= j < r.value ==> !Near(islands[j], boatX, snapDistance)
    ensures r.None? <==> forall j :: 0 <= j < |islands| ==> !Near(islands[j], boatX, snapDistance)
    decreases |islands|
  {
    if islands == [] then None
    else if Near(islands[0], boatX, snapDistance) then Some(0)
    else match FirstNear(islands[1..], boatX, snapDistance)
      case None => None
      case Some(k) => Some(k + 1)
  }

  /** `nearestIsland`: the id of the first island within snapDistance of
      the boat, or none when no island is that close. */
  function NearestIsland(islands: seq<Island>, boatX: real, snapDistance: real): (r: Option<string>)
    ensures r.None? <==> forall j :: 0 <= j < |islands| ==> !Near(islands[j], boatX, snapDistance)
    ensures r.Some? ==>
      exists k :: 0 <= k < |islands| && islands[k].id == r.value && Near(islands[k], boatX, snapDistance) &&
        forall j :: 0 <= j < k ==> !Near(islands[j], boatX, snapDistance)
  {
    match FirstNear(islands, boatX, snapDistance)
    case None => None
    case Some(k) => Some(islands[k].id)
  }

  /** Ties go to list order: when two islands are both near, the later one
      is never chosen over the earlier. */
  lemma FirstMatchWins(islands: seq<Island>, boatX: real, snapDistance: real, i: nat)
    requires i < |islands| && Near(islands[i], boatX, snapDistance)
    ensures var k := FirstNear(islands, boatX, snapDistance);
      k.Some? && k.value <= i
  {
  }

  /** Two islands at 10 and 50 and a snap distance of 8: the boat at 12 is
      at the first, at 30 at neither, at 50 at the second. */
  lemma TwoIslandsExample()
    ensures var isles := [Island("a", 10.0), Island("b", 50.0)];
      && NearestIsland(isles, 12.0, 8.0) == Some("a")
      && NearestIsland(isles, 30.0, 8.0) == None
      && NearestIsland(isles, 50.0, 8.0) == Some("b")
  {
    var isles := [Island("a", 10.0), Island("b", 50.0)];
    assert isles[1..] == [Island("b", 50.0)];
    assert isles[1..][1..] == [];
  }
}
