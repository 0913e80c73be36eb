/**
 * The greedy fuel-stop planner of planner/domain/optimizer.py.
 *
 * `OptimizeFuelPlan` is the imperative forward simulation; `Plan` is the same
 * simulation written as a function over the node list (one `Step` per
 * segment, folded by `Run`), and the lemmas below state what the planner
 * promises about it.
 */
module Optimizer {
  import opened Wrappers
  import opened Domain

  /** The numeric tolerance used by every comparison of the planner. */
  const TOLERANCE: real := 0.000001

  /** One variant per `FuelPlanningError` raised by the planner. */
  datatype FuelPlanningError =
    | NonPositiveMpg
    | NonPositiveMaxRange
    | TooFewNodes
    | NodesNotOrdered
    | SegmentExceedsRange
    | NoReachableNode
    | PurchaseAtNonPurchasableNode
    | NegativeFuelBalance

  /** The planner's return value: total cost, total gallons and the stop actions. */
  datatype FuelPlan = FuelPlan(totalCost: real, totalGallons: real, stopActions: seq<StopAction>)

  /**
   * The simulated variables after some segments. `stopIndexes` records at
   * which node index each action was taken; the planner itself does not keep it.
   */
  datatype SimState = SimState(
    fuel: real,
    totalCost: real,
    totalGallons: real,
    actions: seq<StopAction>,
    stopIndexes: seq<nat>)

  function Max(a: real, b: real): real {
    if a >= b then a else b
  }

  function SegmentMiles(nodes: seq<FuelNode>, idx: nat): real
    requires idx + 1 < |nodes|
  {
    nodes[idx + 1].distanceMiles - nodes[idx].distanceMiles
  }

  /** Node indexes from `probe` on, as long as they are within range of node `idx`. */
  function Window(nodes: seq<FuelNode>, idx: nat, probe: nat, maxRangeMiles: real): seq<nat>
    requires idx < |nodes| && probe <= |nodes|
    decreases |nodes| - probe
  {
    if probe == |nodes| then []
    else if nodes[probe].distanceMiles - nodes[idx].distanceMiles > maxRangeMiles + TOLERANCE then []
    else [probe] + Window(nodes, idx, probe + 1, maxRangeMiles)
  }

  /** The "reachable window" of node `idx`: the nodes after it up to the first one out of range. */
  function ReachableWindow(nodes: seq<FuelNode>, idx: nat, maxRangeMiles: real): seq<nat>
    requires idx < |nodes|
  {
    Window(nodes, idx, idx + 1, maxRangeMiles)
  }

  /** A node with a price strictly below `price`. */
  predicate PricedBelow(node: FuelNode, price: real) {
    node.pricePerGallon.Some? && node.pricePerGallon.value < price
  }

  /** The first node of `window`, in window order, whose price is strictly below `price`. */
  function FirstCheaper(nodes: seq<FuelNode>, price: real, window: seq<nat>): (r: Option<nat>)
    requires forall k :: 0 <= k < |window| ==> window[k] < |nodes|
    ensures r.Some? ==> r.value in window && PricedBelow(nodes[r.value], price)
  {
    if window == [] then None
    else if PricedBelow(nodes[window[0]], price) then Some(window[0])
    else FirstCheaper(nodes, price, window[1..])
  }

  lemma {:induction false} WindowInRange(nodes: seq<FuelNode>, idx: nat, probe: nat, maxRangeMiles: real)
    requires idx < |nodes| && probe <= |nodes|
    ensures forall k :: 0 <= k < |Window(nodes, idx, probe, maxRangeMiles)| ==>
      probe <= Window(nodes, idx, probe, maxRangeMiles)[k] < |nodes|
    decreases |nodes| - probe
  {
    if probe < |nodes| {
      WindowInRange(nodes, idx, probe + 1, maxRangeMiles);
    }
  }

  /** The fuel level the planner aims for at node `idx`. */
  function TargetFuel(nodes: seq<FuelNode>, idx: nat, mpg: real, maxRangeMiles: real): real
    requires idx < |nodes| && mpg > 0.0
  {
    var window := ReachableWindow(nodes, idx, maxRangeMiles);
    WindowInRange(nodes, idx, idx + 1, maxRangeMiles);
    var cheaper :=
      if nodes[idx].pricePerGallon.Some? then FirstCheaper(nodes, nodes[idx].pricePerGallon.value, window) else None;
    if cheaper.Some? then
      (nodes[cheaper.value].distanceMiles - nodes[idx].distanceMiles) / mpg
    else
      var distanceToEnd := nodes[|nodes| - 1].distanceMiles - nodes[idx].distanceMiles;
      if distanceToEnd <= maxRangeMiles + TOLERANCE then distanceToEnd / mpg else maxRangeMiles / mpg
  }

  /** `max(0.0, target_fuel - current_fuel_gallons)`: what the planner buys at node `idx` if it buys at all. */
  function Shortfall(nodes: seq<FuelNode>, mpg: real, maxRangeMiles: real, idx: nat, st: SimState): real
    requires idx < |nodes| && mpg > 0.0
  {
    Max(0.0, TargetFuel(nodes, idx, mpg, maxRangeMiles) - st.fuel)
  }

  /** One iteration of the planner's loop: the segment from node `idx` to node `idx + 1`. */
  function Step(nodes: seq<FuelNode>, mpg: real, maxRangeMiles: real, idx: nat, st: SimState)
    : Result<SimState, FuelPlanningError>
    requires idx + 1 < |nodes| && mpg > 0.0
  {
    var node := nodes[idx];
    var segment := SegmentMiles(nodes, idx);
    if segment < -TOLERANCE then Err(NodesNotOrdered)
    else if segment > maxRangeMiles + TOLERANCE then Err(SegmentExceedsRange)
    else if ReachableWindow(nodes, idx, maxRangeMiles) == [] then Err(NoReachableNode)
    else
      var toBuy := Shortfall(nodes, mpg, maxRangeMiles, idx, st);
      if toBuy > TOLERANCE && (!node.purchasable || node.pricePerGallon.None?) then Err(PurchaseAtNonPurchasableNode)
      else
        var bought := if toBuy > TOLERANCE then Buy(st, node, idx, toBuy) else st;
        var fuel := bought.fuel - segment / mpg;
        if fuel < -TOLERANCE then Err(NegativeFuelBalance)
        else Ok(bought.(fuel := Max(fuel, 0.0)))
  }

  /** The record of buying `gallons` at `node`: the cost is gallons times the node's price. */
  function Purchase(node: FuelNode, gallons: real): StopAction
    requires node.pricePerGallon.Some?
  {
    StopAction(node, gallons, gallons * node.pricePerGallon.value)
  }

  /** Records a purchase of `gallons` at `node`, the node at index `idx`. */
  function Buy(st: SimState, node: FuelNode, idx: nat, gallons: real): SimState
    requires node.pricePerGallon.Some?
  {
    var action := Purchase(node, gallons);
    SimState(st.fuel + gallons, st.totalCost + action.purchaseCost, st.totalGallons + gallons,
             st.actions + [action], st.stopIndexes + [idx])
  }

  lemma BuyRecords(st: SimState, node: FuelNode, idx: nat, gallons: real, cost: real)
    requires node.pricePerGallon.Some? && cost == gallons * node.pricePerGallon.value
    ensures Buy(st, node, idx, gallons) == SimState(st.fuel + gallons, st.totalCost + cost, st.totalGallons + gallons,
                                                    st.actions + [StopAction(node, gallons, cost)], st.stopIndexes + [idx])
  {
    var b := Buy(st, node, idx, gallons);
    assert b.totalCost == st.totalCost + cost;
    assert b.actions == st.actions + [StopAction(node, gallons, cost)];
  }

  const Initial: SimState := SimState(0.0, 0.0, 0.0, [], [])

  /** The state after the first `k` segments, or the first error raised. */
  function Run(nodes: seq<FuelNode>, mpg: real, maxRangeMiles: real, k: nat): Result<SimState, FuelPlanningError>
    requires k < |nodes| && mpg > 0.0
  {
    if k == 0 then Ok(Initial)
    else
      match Run(nodes, mpg, maxRangeMiles, k - 1)
      case Err(e) => Err(e)
      case Ok(st) => Step(nodes, mpg, maxRangeMiles, k - 1, st)
  }

  /** The whole planner as a function of its inputs. */
  function Plan(nodes: seq<FuelNode>, mpg: real, maxRangeMiles: real): Result<FuelPlan, FuelPlanningError> {
    if mpg <= 0.0 then Err(NonPositiveMpg)
    else if maxRangeMiles <= 0.0 then Err(NonPositiveMaxRange)
    else if |nodes| < 2 then Err(TooFewNodes)
    else
      match Run(nodes, mpg, maxRangeMiles, |nodes| - 1)
      case Err(e) => Err(e)
      case Ok(st) => Ok(FuelPlan(st.totalCost, st.totalGallons, st.actions))
  }

  function SumGallons(actions: seq<StopAction>): real {
    if actions == [] then 0.0 else SumGallons(actions[..|actions| - 1]) + actions[|actions| - 1].gallonsPurchased
  }

  function SumCosts(actions: seq<StopAction>): real {
    if actions == [] then 0.0 else SumCosts(actions[..|actions| - 1]) + actions[|actions| - 1].purchaseCost
  }

  /** Once an error is raised, the later segments do not change it. */
  lemma {:induction false} RunErrorPersists(nodes: seq<FuelNode>, mpg: real, maxRangeMiles: real, k: nat, m: nat)
    requires k <= m < |nodes| && mpg > 0.0
    requires Run(nodes, mpg, maxRangeMiles, k).Err?
    ensures Run(nodes, mpg, maxRangeMiles, m) == Run(nodes, mpg, maxRangeMiles, k)
    decreases m - k
  {
    if k < m {
      RunErrorPersists(nodes, mpg, maxRangeMiles, k, m - 1);
    }
  }

  /** The `while probe` loop: collects the reachable window of node `idx`. */
  method CollectReachable(nodes: seq<FuelNode>, idx: nat, maxRangeMiles: real) returns (reachableIndexes: seq<nat>)
    requires idx < |nodes|
    ensures reachableIndexes == ReachableWindow(nodes, idx, maxRangeMiles)
    ensures forall k :: 0 <= k < |reachableIndexes| ==> idx < reachableIndexes[k] < |nodes|
  {
    WindowInRange(nodes, idx, idx + 1, maxRangeMiles);
    reachableIndexes := [];
    var probe := idx + 1;
    while probe < |nodes|
      invariant idx + 1 <= probe <= |nodes|
      invariant reachableIndexes + Window(nodes, idx, probe, maxRangeMiles) == ReachableWindow(nodes, idx, maxRangeMiles)
      decreases |nodes| - probe
    {
      var probeDistance := nodes[probe].distanceMiles - nodes[idx].distanceMiles;
      if probeDistance > maxRangeMiles + TOLERANCE {
        break;
      }
      reachableIndexes := reachableIndexes + [probe];
      probe := probe + 1;
    }
  }

  /** The `for reachable_idx` loop: the first reachable node priced strictly below `price`. */
  method FindCheaper(nodes: seq<FuelNode>, price: real, reachableIndexes: seq<nat>) returns (cheaper: Option<nat>)
    requires forall k :: 0 <= k < |reachableIndexes| ==> reachableIndexes[k] < |nodes|
    ensures cheaper == FirstCheaper(nodes, price, reachableIndexes)
  {
    cheaper := None;
    var k := 0;
    while k < |reachableIndexes|
      invariant 0 <= k <= |reachableIndexes|
      invariant FirstCheaper(nodes, price, reachableIndexes[k..]) == FirstCheaper(nodes, price, reachableIndexes)
    {
      var candidatePrice := nodes[reachableIndexes[k]].pricePerGallon;
      if candidatePrice.Some? && candidatePrice.value < price {
        cheaper := Some(reachableIndexes[k]);
        return;
      }
      assert reachableIndexes[k..][1..] == reachableIndexes[k + 1..];
      k := k + 1;
    }
  }

  /** The target-fuel decision for node `idx`, given its reachable window. */
  method ChooseTargetFuel(nodes: seq<FuelNode>, idx: nat, mpg: real, maxRangeMiles: real, reachableIndexes: seq<nat>)
    returns (targetFuel: real)
    requires idx < |nodes| && mpg > 0.0
    requires reachableIndexes == ReachableWindow(nodes, idx, maxRangeMiles)
    ensures targetFuel == TargetFuel(nodes, idx, mpg, maxRangeMiles)
  {
    WindowInRange(nodes, idx, idx + 1, maxRangeMiles);
    var currentNode := nodes[idx];
    var tankCapacityGallons := maxRangeMiles / mpg;
    var cheaperStationIndex: Option<nat> := None;
    if currentNode.pricePerGallon.Some? {
      cheaperStationIndex := FindCheaper(nodes, currentNode.pricePerGallon.value, reachableIndexes);
    }
    if cheaperStationIndex.Some? {
      var targetDistance := nodes[cheaperStationIndex.value].distanceMiles - currentNode.distanceMiles;
      targetFuel := targetDistance / mpg;
    } else {
      var distanceToEnd := nodes[|nodes| - 1].distanceMiles - currentNode.distanceMiles;
      targetFuel := if distanceToEnd <= maxRangeMiles + TOLERANCE then distanceToEnd / mpg else tankCapacityGallons;
    }
  }

  /** The greedy planner, simulating the route node by node. */
  method OptimizeFuelPlan(nodes: seq<FuelNode>, mpg: real, maxRangeMiles: real)
    returns (r: Result<FuelPlan, FuelPlanningError>)
    ensures r == Plan(nodes, mpg, maxRangeMiles)
    ensures mpg <= 0.0 ==> r == Err(NonPositiveMpg)
    ensures mpg > 0.0 && maxRangeMiles <= 0.0 ==> r == Err(NonPositiveMaxRange)
    ensures mpg > 0.0 && maxRangeMiles > 0.0 && |nodes| < 2 ==> r == Err(TooFewNodes)
  {
    if mpg <= 0.0 {
      return Err(NonPositiveMpg);
    }
    if maxRangeMiles <= 0.0 {
      return Err(NonPositiveMaxRange);
    }
    if |nodes| < 2 {
      return Err(TooFewNodes);
    }

    var currentFuelGallons := 0.0;
    var totalCost := 0.0;
    var totalGallons := 0.0;
    var stopActions: seq<StopAction> := [];
    ghost var stopIndexes: seq<nat> := [];

    for idx := 0 to |nodes| - 1
      invariant Run(nodes, mpg, maxRangeMiles, idx)
        == Ok(SimState(currentFuelGallons, totalCost, totalGallons, stopActions, stopIndexes))
    {
      ghost var before := SimState(currentFuelGallons, totalCost, totalGallons, stopActions, stopIndexes);
      var currentNode := nodes[idx];
      var nextNode := nodes[idx + 1];
      var segmentDistanceMiles := nextNode.distanceMiles - currentNode.distanceMiles;

      if segmentDistanceMiles < -TOLERANCE {
        RunErrorPersists(nodes, mpg, maxRangeMiles, idx + 1, |nodes| - 1);
        return Err(NodesNotOrdered);
      }
      if segmentDistanceMiles > maxRangeMiles + TOLERANCE {
        RunErrorPersists(nodes, mpg, maxRangeMiles, idx + 1, |nodes| - 1);
        return Err(SegmentExceedsRange);
      }

      var reachableIndexes := CollectReachable(nodes, idx, maxRangeMiles);
      if reachableIndexes == [] {
        return Err(NoReachableNode);
      }

      var targetFuel := ChooseTargetFuel(nodes, idx, mpg, maxRangeMiles, reachableIndexes);
      var gallonsToBuy := Max(0.0, targetFuel - currentFuelGallons);

      if gallonsToBuy > TOLERANCE {
        if !currentNode.purchasable || currentNode.pricePerGallon.None? {
          RunErrorPersists(nodes, mpg, maxRangeMiles, idx + 1, |nodes| - 1);
          return Err(PurchaseAtNonPurchasableNode);
        }
        var purchaseCost := gallonsToBuy * currentNode.pricePerGallon.value;
        currentFuelGallons := currentFuelGallons + gallonsToBuy;
        totalGallons := totalGallons + gallonsToBuy;
        totalCost := totalCost + purchaseCost;
        stopActions := stopActions + [StopAction(currentNode, gallonsToBuy, purchaseCost)];
        stopIndexes := stopIndexes + [idx];
        BuyRecords(before, currentNode, idx, gallonsToBuy, purchaseCost);
      }
      ghost var bought := SimState(currentFuelGallons, totalCost, totalGallons, stopActions, stopIndexes);
      assert bought == if gallonsToBuy > TOLERANCE then Buy(before, currentNode, idx, gallonsToBuy) else before;

      var fuelNeeded := segmentDistanceMiles / mpg;
      currentFuelGallons := currentFuelGallons - fuelNeeded;
      if currentFuelGallons < -TOLERANCE {
        RunErrorPersists(nodes, mpg, maxRangeMiles, idx + 1, |nodes| - 1);
        return Err(NegativeFuelBalance);
      }
      currentFuelGallons := Max(currentFuelGallons, 0.0);
      assert SegmentMiles(nodes, idx) == segmentDistanceMiles;
      assert ReachableWindow(nodes, idx, maxRangeMiles) != [];
      assert Max(0.0, TargetFuel(nodes, idx, mpg, maxRangeMiles) - before.fuel) == gallonsToBuy;
      assert Step(nodes, mpg, maxRangeMiles, idx, before)
        == Ok(SimState(currentFuelGallons, totalCost, totalGallons, stopActions, stopIndexes));
    }

    return Ok(FuelPlan(totalCost, totalGallons, stopActions));
  }
}

/** What the planner promises, stated about `Optimizer.Plan`. */
module OptimizerProperties {
  import opened Wrappers
  import opened Domain
  import opened Optimizer

  ghost predicate InRange(nodes: seq<FuelNode>, idx: nat, j: nat, maxRangeMiles: real)
    requires idx < |nodes| && j < |nodes|
  {
    nodes[j].distanceMiles - nodes[idx].distanceMiles <= maxRangeMiles + TOLERANCE
  }

  /** Node `j` lies after node `idx` and no node up to it is out of range of `idx`. */
  ghost predicate Reachable(nodes: seq<FuelNode>, idx: nat, j: int, maxRangeMiles: real)
  {
    && idx < j < |nodes|
    && forall p :: idx < p <= j ==> InRange(nodes, idx, p, maxRangeMiles)
  }

  /** Node `j` is reachable from a priced node `idx` and is priced strictly below it. */
  ghost predicate CheaperAhead(nodes: seq<FuelNode>, idx: nat, j: int, maxRangeMiles: real)
  {
    && Reachable(nodes, idx, j, maxRangeMiles)
    && nodes[idx].pricePerGallon.Some?
    && nodes[j].pricePerGallon.Some?
    && nodes[j].pricePerGallon.value < nodes[idx].pricePerGallon.value
  }

  /** A purchase as the planner records it. */
  ghost predicate WellFormedAction(a: StopAction) {
    && a.gallonsPurchased > TOLERANCE
    && a.node.purchasable
    && a.node.pricePerGallon.Some?
    && a.purchaseCost == a.gallonsPurchased * a.node.pricePerGallon.value
  }

  /** What holds of the simulated variables after the first `k` segments. */
  ghost predicate StateInvariant(nodes: seq<FuelNode>, st: SimState, k: nat)
    requires k < |nodes|
  {
    && st.fuel >= 0.0
    && st.totalGallons == SumGallons(st.actions)
    && st.totalCost == SumCosts(st.actions)
    && |st.stopIndexes| == |st.actions|
    && (forall a, b :: 0 <= a < b < |st.stopIndexes| ==> st.stopIndexes[a] < st.stopIndexes[b])
    && (forall a :: 0 <= a < |st.stopIndexes| ==>
          st.stopIndexes[a] < k && st.actions[a].node == nodes[st.stopIndexes[a]])
    && (forall a :: 0 <= a < |st.actions| ==> WellFormedAction(st.actions[a]))
  }

  /** The reachable window is the run of consecutive nodes after `idx` that are in range. */
  lemma {:induction false} WindowShape(nodes: seq<FuelNode>, idx: nat, probe: nat, maxRangeMiles: real)
    requires idx < |nodes| && idx < probe <= |nodes|
    ensures var w := Window(nodes, idx, probe, maxRangeMiles);
      && probe + |w| <= |nodes|
      && (forall k :: 0 <= k < |w| ==> w[k] == probe + k && InRange(nodes, idx, w[k], maxRangeMiles))
      && (probe + |w| == |nodes| || !InRange(nodes, idx, probe + |w|, maxRangeMiles))
    decreases |nodes| - probe
  {
    if probe < |nodes| && InRange(nodes, idx, probe, maxRangeMiles) {
      WindowShape(nodes, idx, probe + 1, maxRangeMiles);
    }
  }

  /** `FirstCheaper` returns the window entry at `m` when it is the first one priced below `price`. */
  lemma {:induction false} FirstCheaperFindsFirst(nodes: seq<FuelNode>, price: real, window: seq<nat>, m: nat)
    requires forall k :: 0 <= k < |window| ==> window[k] < |nodes|
    requires m < |window| && PricedBelow(nodes[window[m]], price)
    requires forall k :: 0 <= k < m ==> !PricedBelow(nodes[window[k]], price)
    ensures FirstCheaper(nodes, price, window) == Some(window[m])
  {
    if m > 0 {
      var rest := window[1..];
      assert !PricedBelow(nodes[window[0]], price);
      assert rest[m - 1] == window[m];
      assert forall k :: 0 <= k < m - 1 ==> rest[k] == window[k + 1];
      FirstCheaperFindsFirst(nodes, price, rest, m - 1);
    }
  }

  /** `FirstCheaper` finds nothing exactly when no window entry is priced below `price`. */
  lemma {:induction false} FirstCheaperNone(nodes: seq<FuelNode>, price: real, window: seq<nat>)
    requires forall k :: 0 <= k < |window| ==> window[k] < |nodes|
    ensures FirstCheaper(nodes, price, window).None? <==>
      forall k :: 0 <= k < |window| ==> !PricedBelow(nodes[window[k]], price)
  {
    if window != [] {
      var rest := window[1..];
      assert forall k :: 0 <= k < |rest| ==> rest[k] == window[k + 1];
      FirstCheaperNone(nodes, price, rest);
      if !PricedBelow(nodes[window[0]], price) {
        assert forall k :: 1 <= k < |window| ==> window[k] == rest[k - 1];
      }
    }
  }

  /** The reachable window lists, in order, exactly the reachable nodes. */
  lemma ReachableIsWindow(nodes: seq<FuelNode>, idx: nat, maxRangeMiles: real)
    requires idx < |nodes|
    ensures var w := ReachableWindow(nodes, idx, maxRangeMiles);
      && (forall k :: 0 <= k < |w| ==> w[k] == idx + 1 + k && Reachable(nodes, idx, w[k], maxRangeMiles))
      && (forall j :: Reachable(nodes, idx, j, maxRangeMiles) ==> j - idx - 1 < |w|)
  {
    var w := ReachableWindow(nodes, idx, maxRangeMiles);
    WindowShape(nodes, idx, idx + 1, maxRangeMiles);
    forall k | 0 <= k < |w| ensures Reachable(nodes, idx, w[k], maxRangeMiles) {
      forall p | idx < p <= w[k] ensures InRange(nodes, idx, p, maxRangeMiles) {
        assert w[p - idx - 1] == p;
      }
    }
  }

  /**
   * The target-fuel rule, first half: from a priced node with a strictly
   * cheaper reachable node, aim for just enough fuel to reach the first such
   * node in route order.
   */
  lemma TargetFuelFirstCheaper(nodes: seq<FuelNode>, idx: nat, mpg: real, maxRangeMiles: real, j: int)
    requires idx < |nodes| && mpg > 0.0
    requires CheaperAhead(nodes, idx, j, maxRangeMiles)
    requires forall p :: idx < p < j ==> !CheaperAhead(nodes, idx, p, maxRangeMiles)
    ensures TargetFuel(nodes, idx, mpg, maxRangeMiles) == (nodes[j].distanceMiles - nodes[idx].distanceMiles) / mpg
  {
    var w := ReachableWindow(nodes, idx, maxRangeMiles);
    ReachableIsWindow(nodes, idx, maxRangeMiles);
    WindowInRange(nodes, idx, idx + 1, maxRangeMiles);
    var price := nodes[idx].pricePerGallon.value;
    var mj := j - idx - 1;
    assert w[mj] == j;
    forall k | 0 <= k < mj ensures !PricedBelow(nodes[w[k]], price) {
      assert Reachable(nodes, idx, w[k], maxRangeMiles);
      assert idx < w[k] < j;
      assert !CheaperAhead(nodes, idx, w[k], maxRangeMiles);
    }
    FirstCheaperFindsFirst(nodes, price, w, mj);
  }

  /**
   * The target-fuel rule, second half: with no strictly cheaper reachable node
   * (or no price at the current node), aim for the end if it is within range,
   * else for a full tank.
   */
  lemma TargetFuelNoCheaper(nodes: seq<FuelNode>, idx: nat, mpg: real, maxRangeMiles: real)
    requires idx < |nodes| && mpg > 0.0
    requires forall j :: !CheaperAhead(nodes, idx, j, maxRangeMiles)
    ensures var distanceToEnd := nodes[|nodes| - 1].distanceMiles - nodes[idx].distanceMiles;
      TargetFuel(nodes, idx, mpg, maxRangeMiles)
        == if distanceToEnd <= maxRangeMiles + TOLERANCE then distanceToEnd / mpg else maxRangeMiles / mpg
  {
    var w := ReachableWindow(nodes, idx, maxRangeMiles);
    ReachableIsWindow(nodes, idx, maxRangeMiles);
    WindowInRange(nodes, idx, idx + 1, maxRangeMiles);
    if nodes[idx].pricePerGallon.Some? {
      var price := nodes[idx].pricePerGallon.value;
      forall k | 0 <= k < |w| ensures !PricedBelow(nodes[w[k]], price) {
        assert !CheaperAhead(nodes, idx, w[k], maxRangeMiles);
      }
      FirstCheaperNone(nodes, price, w);
    }
  }

  /** A purchase at node `idx` keeps the invariant, now counting node `idx` as passed. */
  lemma BuyKeepsInvariant(nodes: seq<FuelNode>, st: SimState, idx: nat, gallons: real)
    requires idx + 1 < |nodes| && StateInvariant(nodes, st, idx)
    requires gallons > TOLERANCE && nodes[idx].purchasable && nodes[idx].pricePerGallon.Some?
    ensures StateInvariant(nodes, Buy(st, nodes[idx], idx, gallons), idx + 1)
  {
    var b := Buy(st, nodes[idx], idx, gallons);
    assert b.actions[..|b.actions| - 1] == st.actions;
    assert WellFormedAction(b.actions[|b.actions| - 1]);
  }

  /** One successful segment keeps the invariant. */
  lemma StepKeepsInvariant(nodes: seq<FuelNode>, mpg: real, maxRangeMiles: real, idx: nat, st: SimState)
    requires idx + 1 < |nodes| && mpg > 0.0
    requires StateInvariant(nodes, st, idx)
    requires Step(nodes, mpg, maxRangeMiles, idx, st).Ok?
    ensures StateInvariant(nodes, Step(nodes, mpg, maxRangeMiles, idx, st).value, idx + 1)
  {
    var toBuy := Max(0.0, TargetFuel(nodes, idx, mpg, maxRangeMiles) - st.fuel);
    if toBuy > TOLERANCE {
      BuyKeepsInvariant(nodes, st, idx, toBuy);
    }
  }

  /**
   * The purchase at node `idx` once its segment checks pass: the shortfall
   * `max(0, target - tank)` is bought only when it exceeds the tolerance, at
   * gallons times price, and a shortfall at a node that cannot sell fuel is
   * an error.
   */
  lemma StepPurchase(nodes: seq<FuelNode>, mpg: real, maxRangeMiles: real, idx: nat, st: SimState)
    requires idx + 1 < |nodes| && mpg > 0.0
    requires -TOLERANCE <= SegmentMiles(nodes, idx) <= maxRangeMiles + TOLERANCE
    ensures Shortfall(nodes, mpg, maxRangeMiles, idx, st) > TOLERANCE
            && (!nodes[idx].purchasable || nodes[idx].pricePerGallon.None?) ==>
      Step(nodes, mpg, maxRangeMiles, idx, st) == Err(PurchaseAtNonPurchasableNode)
    ensures Shortfall(nodes, mpg, maxRangeMiles, idx, st) <= TOLERANCE && Step(nodes, mpg, maxRangeMiles, idx, st).Ok? ==>
      var next := Step(nodes, mpg, maxRangeMiles, idx, st).value;
      next.actions == st.actions && next.totalGallons == st.totalGallons && next.totalCost == st.totalCost
    ensures Shortfall(nodes, mpg, maxRangeMiles, idx, st) > TOLERANCE
            && nodes[idx].purchasable && nodes[idx].pricePerGallon.Some? && Step(nodes, mpg, maxRangeMiles, idx, st).Ok? ==>
      var next := Step(nodes, mpg, maxRangeMiles, idx, st).value;
      var action := Purchase(nodes[idx], Shortfall(nodes, mpg, maxRangeMiles, idx, st));
      && next.actions == st.actions + [action]
      && next.totalGallons == st.totalGallons + action.gallonsPurchased
      && next.totalCost == st.totalCost + action.purchaseCost
  {
    var toBuy := Shortfall(nodes, mpg, maxRangeMiles, idx, st);
    if toBuy > TOLERANCE && nodes[idx].purchasable && nodes[idx].pricePerGallon.Some? {
      var action := Purchase(nodes[idx], toBuy);
      assert Buy(st, nodes[idx], idx, toBuy).actions == st.actions + [action];
    }
  }

  /** Every successful prefix of the simulation keeps `StateInvariant`. */
  lemma {:induction false} RunKeepsInvariant(nodes: seq<FuelNode>, mpg: real, maxRangeMiles: real, k: nat)
    requires k < |nodes| && mpg > 0.0
    ensures Run(nodes, mpg, maxRangeMiles, k).Ok? ==> StateInvariant(nodes, Run(nodes, mpg, maxRangeMiles, k).value, k)
  {
    if k > 0 && Run(nodes, mpg, maxRangeMiles, k).Ok? {
      RunKeepsInvariant(nodes, mpg, maxRangeMiles, k - 1);
      StepKeepsInvariant(nodes, mpg, maxRangeMiles, k - 1, Run(nodes, mpg, maxRangeMiles, k - 1).value);
    }
  }

  /** The simulation never raises "No reachable node": node idx + 1 is always in the window. */
  lemma {:induction false} RunNeverLacksReachableNode(nodes: seq<FuelNode>, mpg: real, maxRangeMiles: real, k: nat)
    requires k < |nodes| && mpg > 0.0
    ensures Run(nodes, mpg, maxRangeMiles, k) != Err(NoReachableNode)
  {
    if k > 0 {
      RunNeverLacksReachableNode(nodes, mpg, maxRangeMiles, k - 1);
    }
  }

  lemma {:induction false} RunOkSegmentsFeasible(nodes: seq<FuelNode>, mpg: real, maxRangeMiles: real, k: nat)
    requires k < |nodes| && mpg > 0.0
    requires Run(nodes, mpg, maxRangeMiles, k).Ok?
    ensures forall i :: 0 <= i < k ==>
      -TOLERANCE <= SegmentMiles(nodes, i) <= maxRangeMiles + TOLERANCE
  {
    if k > 0 {
      RunOkSegmentsFeasible(nodes, mpg, maxRangeMiles, k - 1);
    }
  }

  /** "No reachable node within max range" can never be the planner's answer. */
  lemma PlanNeverLacksReachableNode(nodes: seq<FuelNode>, mpg: real, maxRangeMiles: real)
    ensures Plan(nodes, mpg, maxRangeMiles) != Err(NoReachableNode)
  {
    if mpg > 0.0 && maxRangeMiles > 0.0 && |nodes| >= 2 {
      RunNeverLacksReachableNode(nodes, mpg, maxRangeMiles, |nodes| - 1);
    }
  }

  /** A successful plan had every segment ordered and within range (up to the tolerance). */
  lemma PlanOkSegmentsFeasible(nodes: seq<FuelNode>, mpg: real, maxRangeMiles: real)
    requires Plan(nodes, mpg, maxRangeMiles).Ok?
    ensures forall i :: 0 <= i < |nodes| - 1 ==>
      -TOLERANCE <= SegmentMiles(nodes, i) <= maxRangeMiles + TOLERANCE
  {
    RunOkSegmentsFeasible(nodes, mpg, maxRangeMiles, |nodes| - 1);
  }

  /**
   * The first segment that is out of order or out of range decides the error,
   * unless an earlier segment already raised one.
   */
  lemma BadSegmentFails(nodes: seq<FuelNode>, mpg: real, maxRangeMiles: real, i: nat)
    requires mpg > 0.0 && maxRangeMiles > 0.0 && i + 1 < |nodes|
    requires Run(nodes, mpg, maxRangeMiles, i).Ok?
    ensures SegmentMiles(nodes, i) < -TOLERANCE ==> Plan(nodes, mpg, maxRangeMiles) == Err(NodesNotOrdered)
    ensures -TOLERANCE <= SegmentMiles(nodes, i) && SegmentMiles(nodes, i) > maxRangeMiles + TOLERANCE ==>
      Plan(nodes, mpg, maxRangeMiles) == Err(SegmentExceedsRange)
  {
    if SegmentMiles(nodes, i) < -TOLERANCE || SegmentMiles(nodes, i) > maxRangeMiles + TOLERANCE {
      RunErrorPersists(nodes, mpg, maxRangeMiles, i + 1, |nodes| - 1);
    }
  }

  /** The reported totals are the sums over the reported actions. */
  lemma PlanTotalsAreSums(nodes: seq<FuelNode>, mpg: real, maxRangeMiles: real)
    requires Plan(nodes, mpg, maxRangeMiles).Ok?
    ensures var plan := Plan(nodes, mpg, maxRangeMiles).value;
      && plan.totalGallons == SumGallons(plan.stopActions)
      && plan.totalCost == SumCosts(plan.stopActions)
  {
    RunKeepsInvariant(nodes, mpg, maxRangeMiles, |nodes| - 1);
  }

  /**
   * Each action buys more than the tolerance at a purchasable, priced node, at
   * gallons times price; the actions follow node order, at most one per node,
   * never at the last node.
   */
  lemma PlanActionsInNodeOrder(nodes: seq<FuelNode>, mpg: real, maxRangeMiles: real)
    requires Plan(nodes, mpg, maxRangeMiles).Ok?
    ensures var actions := Plan(nodes, mpg, maxRangeMiles).value.stopActions;
      && (forall a :: 0 <= a < |actions| ==> WellFormedAction(actions[a]))
      && var at := Run(nodes, mpg, maxRangeMiles, |nodes| - 1).value.stopIndexes;
         && |at| == |actions|
         && (forall a, b :: 0 <= a < b < |at| ==> at[a] < at[b])
         && (forall a :: 0 <= a < |at| ==> at[a] < |nodes| - 1 && actions[a].node == nodes[at[a]])
  {
    RunKeepsInvariant(nodes, mpg, maxRangeMiles, |nodes| - 1);
  }

  /** After every segment the tank level is non-negative. */
  lemma TankNeverNegative(nodes: seq<FuelNode>, mpg: real, maxRangeMiles: real, k: nat)
    requires k < |nodes| && mpg > 0.0
    requires Run(nodes, mpg, maxRangeMiles, k).Ok?
    ensures Run(nodes, mpg, maxRangeMiles, k).value.fuel >= 0.0
  {
    RunKeepsInvariant(nodes, mpg, maxRangeMiles, k);
  }

  /** The fuel the planner aims for never exceeds a tank of `maxRangeMiles + TOLERANCE` miles. */
  lemma TargetFuelWithinCapacity(nodes: seq<FuelNode>, idx: nat, mpg: real, maxRangeMiles: real)
    requires idx < |nodes| && mpg > 0.0
    ensures TargetFuel(nodes, idx, mpg, maxRangeMiles) <= (maxRangeMiles + TOLERANCE) / mpg
  {
    var w := ReachableWindow(nodes, idx, maxRangeMiles);
    WindowInRange(nodes, idx, idx + 1, maxRangeMiles);
    WindowShape(nodes, idx, idx + 1, maxRangeMiles);
    if nodes[idx].pricePerGallon.Some? {
      var cheaper := FirstCheaper(nodes, nodes[idx].pricePerGallon.value, w);
      if cheaper.Some? {
        var m :| 0 <= m < |w| && w[m] == cheaper.value;
        assert InRange(nodes, idx, w[m], maxRangeMiles);
        DivideMonotone(nodes[cheaper.value].distanceMiles - nodes[idx].distanceMiles, maxRangeMiles + TOLERANCE, mpg);
      }
    }
    var distanceToEnd := nodes[|nodes| - 1].distanceMiles - nodes[idx].distanceMiles;
    if distanceToEnd <= maxRangeMiles + TOLERANCE {
      DivideMonotone(distanceToEnd, maxRangeMiles + TOLERANCE, mpg);
    }
    DivideMonotone(maxRangeMiles, maxRangeMiles + TOLERANCE, mpg);
  }

  lemma DivideMonotone(a: real, b: real, d: real)
    requires a <= b && d > 0.0
    ensures a / d <= b / d
  {
  }

  /**
   * The tank never holds more than a full tank, `max_range / mpg`, plus the
   * tolerance, on a route whose node distances never decrease.
   */
  lemma {:induction false} TankWithinCapacity(nodes: seq<FuelNode>, mpg: real, maxRangeMiles: real, k: nat)
    requires k < |nodes| && mpg > 0.0 && maxRangeMiles > 0.0
    requires forall i :: 0 <= i < |nodes| - 1 ==> nodes[i].distanceMiles <= nodes[i + 1].distanceMiles
    requires Run(nodes, mpg, maxRangeMiles, k).Ok?
    ensures Run(nodes, mpg, maxRangeMiles, k).value.fuel <= (maxRangeMiles + TOLERANCE) / mpg
  {
    var cap := (maxRangeMiles + TOLERANCE) / mpg;
    if k == 0 {
      DivideMonotone(0.0, maxRangeMiles + TOLERANCE, mpg);
    } else {
      var idx := k - 1;
      TankWithinCapacity(nodes, mpg, maxRangeMiles, idx);
      var st := Run(nodes, mpg, maxRangeMiles, idx).value;
      TargetFuelWithinCapacity(nodes, idx, mpg, maxRangeMiles);
      RunKeepsInvariant(nodes, mpg, maxRangeMiles, idx);
      var toBuy := Shortfall(nodes, mpg, maxRangeMiles, idx, st);
      var bought := if toBuy > TOLERANCE then Buy(st, nodes[idx], idx, toBuy) else st;
      assert bought.fuel <= cap;
      DivideMonotone(0.0, SegmentMiles(nodes, idx), mpg);
    }
  }

  /** The five-node route of the planner's tests. */
  function ScenarioNodes(): seq<FuelNode> {
    [ FuelNode("start", 0.0, Some(4.5), true, None),
      FuelNode("s1", 200.0, Some(4.0), true, None),
      FuelNode("s2", 450.0, Some(3.0), true, None),
      FuelNode("s3", 700.0, Some(5.0), true, None),
      FuelNode("end", 900.0, None, false, None) ]
  }

  /**
   * With 10 mpg and a 500-mile range the planner buys at start, s1 and s2
   * only: 20, 25 and 45 gallons, 90 gallons for 325 in all.
   */
  lemma CheaperStationAheadScenario()
    ensures var nodes := ScenarioNodes();
      Plan(nodes, 10.0, 500.0) == Ok(FuelPlan(325.0, 90.0,
        [StopAction(nodes[0], 20.0, 90.0), StopAction(nodes[1], 25.0, 100.0), StopAction(nodes[2], 45.0, 135.0)]))
  {
    var nodes := ScenarioNodes();
    var a0 := StopAction(nodes[0], 20.0, 90.0);
    var a1 := StopAction(nodes[1], 25.0, 100.0);
    var a2 := StopAction(nodes[2], 45.0, 135.0);
    assert ReachableWindow(nodes, 0, 500.0) == [1, 2];
    assert TargetFuel(nodes, 0, 10.0, 500.0) == 20.0;
    assert Buy(Initial, nodes[0], 0, 20.0) == SimState(20.0, 90.0, 20.0, [a0], [0]);
    assert Step(nodes, 10.0, 500.0, 0, Initial) == Ok(SimState(0.0, 90.0, 20.0, [a0], [0]));
    assert Run(nodes, 10.0, 500.0, 1) == Ok(SimState(0.0, 90.0, 20.0, [a0], [0]));
    assert ReachableWindow(nodes, 1, 500.0) == [2, 3];
    assert TargetFuel(nodes, 1, 10.0, 500.0) == 25.0;
    var st1 := SimState(0.0, 90.0, 20.0, [a0], [0]);
    assert Buy(st1, nodes[1], 1, 25.0) == SimState(25.0, 190.0, 45.0, [a0, a1], [0, 1]);
    assert Step(nodes, 10.0, 500.0, 1, st1) == Ok(SimState(0.0, 190.0, 45.0, [a0, a1], [0, 1]));
    assert Run(nodes, 10.0, 500.0, 2) == Ok(SimState(0.0, 190.0, 45.0, [a0, a1], [0, 1]));
    assert ReachableWindow(nodes, 2, 500.0) == [3, 4];
    assert TargetFuel(nodes, 2, 10.0, 500.0) == 45.0;
    var st2 := SimState(0.0, 190.0, 45.0, [a0, a1], [0, 1]);
    assert Buy(st2, nodes[2], 2, 45.0) == SimState(45.0, 325.0, 90.0, [a0, a1, a2], [0, 1, 2]);
    assert Step(nodes, 10.0, 500.0, 2, st2) == Ok(SimState(20.0, 325.0, 90.0, [a0, a1, a2], [0, 1, 2]));
    assert Run(nodes, 10.0, 500.0, 3) == Ok(SimState(20.0, 325.0, 90.0, [a0, a1, a2], [0, 1, 2]));
    assert ReachableWindow(nodes, 3, 500.0) == [4];
    assert TargetFuel(nodes, 3, 10.0, 500.0) == 20.0;
    assert Run(nodes, 10.0, 500.0, 4) == Ok(SimState(0.0, 325.0, 90.0, [a0, a1, a2], [0, 1, 2]));
  }

  /** Two nodes 700 miles apart with a 500-mile range: the segment exceeds the range. */
  lemma SegmentTooLongScenario()
    ensures Plan([FuelNode("start", 0.0, Some(3.5), true, None), FuelNode("end", 700.0, None, false, None)],
                 10.0, 500.0) == Err(SegmentExceedsRange)
  {
    var nodes := [FuelNode("start", 0.0, Some(3.5), true, None), FuelNode("end", 700.0, None, false, None)];
    assert Run(nodes, 10.0, 500.0, 1) == Err(SegmentExceedsRange);
  }
}
