/**
 The route-table manager (control-plane-04/controlplane/routetable/manager.go).

 The EC2 API appears as the two maps it keeps: which route table each subnet is associated with, and
 which attachment each (route table, CIDR) pair points at.  Whether a call succeeds is a parameter.
 */
module Routetable {
  import opened Options
  import opened RealArithmetic
  import opened MapSums
  import opened Sorting
  import opened Apportionment

  datatype RegionRoutes = RegionRoutes(tgwAttachmentId: string, targetCidrs: seq<string>, subnetIds: seq<string>, routeTableIds: seq<string>)

  type Config = map<string, RegionRoutes>

  datatype Pair = Pair(routeTable: string, cidr: string)

  type Routes = map<Pair, string>

  /** A region that is not configured reads as Go's zero value. */
  function ConfigOf(cfg: Config, region: string): RegionRoutes {
    if region in cfg then cfg[region] else RegionRoutes("", [], [], [])
  }

  // ----- subnet assignment -----

  datatype Assignment = Assignment(subnetId: string, rtId: string, targetRegion: string)

  /** How one association call ends: refused before anything changed, or with the old association gone and
      the new one refused, or done. */
  datatype Outcome = Refused | Stripped | Done

  function AllSubnets(cfg: Config, regions: seq<string>): seq<string> {
    if regions == [] then []
    else AllSubnets(cfg, regions[..|regions| - 1]) + ConfigOf(cfg, regions[|regions| - 1]).subnetIds
  }

  /** The subnets divided are those configured for the regions, one region after the other. */
  lemma {:induction false} SubnetsInPlace(cfg: Config, regions: seq<string>, i: nat)
    requires i < |regions|
    ensures var before, own := AllSubnets(cfg, regions[..i]), if regions[i] in cfg then cfg[regions[i]].subnetIds else [];
            before + own <= AllSubnets(cfg, regions) && (i == |regions| - 1 ==> AllSubnets(cfg, regions) == before + own)
  {
    if i < |regions| - 1 {
      SubnetsInPlace(cfg, regions[..|regions| - 1], i);
      assert regions[..|regions| - 1][..i] == regions[..i];
    }
  }

  lemma {:induction false} SubnetsListedIff(cfg: Config, regions: seq<string>, s: string)
    ensures s in AllSubnets(cfg, regions) <==> exists r :: r in regions && r in cfg && s in cfg[r].subnetIds
  {
    if regions != [] {
      var before, last := regions[..|regions| - 1], regions[|regions| - 1];
      SubnetsListedIff(cfg, before, s);
      assert regions == before + [last];
    }
  }

  function WeightsOf(weights: map<string, real>, regions: seq<string>): seq<real>
    requires forall r :: r in regions ==> r in weights
  {
    seq(|regions|, i requires 0 <= i < |regions| => assert regions[i] in regions; weights[regions[i]])
  }

  function FirstTable(cfg: Config, region: string): string {
    var tables := ConfigOf(cfg, region).routeTableIds;
    if tables == [] then "" else tables[0]
  }

  /** `count` subnets from index `from` on go to one region. */
  function Block(cfg: Config, region: string, subnets: seq<string>, from: nat, count: nat): seq<Assignment>
    requires from + count <= |subnets|
  {
    seq(count, k requires 0 <= k < count => Assignment(subnets[from + k], FirstTable(cfg, region), region))
  }

  /** The blocks of the first i regions, one after the other. */
  function Blocks(cfg: Config, regions: seq<string>, asks: seq<int>, subnets: seq<string>, i: nat): (r: seq<Assignment>)
    requires i <= |regions| == |asks|
    ensures |r| == Taken(asks, |subnets|, i)
  {
    if i == 0 then []
    else
      Blocks(cfg, regions, asks, subnets, i - 1) +
      Block(cfg, regions[i - 1], subnets, Taken(asks, |subnets|, i - 1), Share(asks, |subnets|, i - 1))
  }

  /** Subnet k is assigned at most once, by assignment k, and the regions' blocks are contiguous. */
  lemma {:induction false} BlocksAreContiguous(cfg: Config, regions: seq<string>, asks: seq<int>, subnets: seq<string>, i: nat, j: nat, k: nat)
    requires j < i <= |regions| == |asks|
    requires Taken(asks, |subnets|, j) <= k < Taken(asks, |subnets|, j + 1)
    ensures k < |Blocks(cfg, regions, asks, subnets, i)|
    ensures Blocks(cfg, regions, asks, subnets, i)[k] == Assignment(subnets[k], FirstTable(cfg, regions[j]), regions[j])
  {
    var earlier, taken := Blocks(cfg, regions, asks, subnets, i - 1), Taken(asks, |subnets|, i - 1);
    var last := Block(cfg, regions[i - 1], subnets, taken, Share(asks, |subnets|, i - 1));
    assert Blocks(cfg, regions, asks, subnets, i) == earlier + last;
    if j < i - 1 {
      TakenGrows(asks, |subnets|, j + 1, i - 1);
      BlocksAreContiguous(cfg, regions, asks, subnets, i - 1, j, k);
      assert (earlier + last)[k] == earlier[k];
    } else {
      ShareIsAskedOrRest(asks, |subnets|, j);
      assert (earlier + last)[k] == last[k - taken];
    }
  }

  /** They go to the first route table of their region, and to none without one. */
  lemma BlocksUseFirstTable(cfg: Config, regions: seq<string>, asks: seq<int>, subnets: seq<string>, j: nat, k: nat)
    requires j < |regions| == |asks|
    requires Taken(asks, |subnets|, j) <= k < Taken(asks, |subnets|, j + 1)
    ensures var all, r := Blocks(cfg, regions, asks, subnets, |regions|), regions[j];
            k < |all| && all[k].rtId == if r in cfg && cfg[r].routeTableIds != [] then cfg[r].routeTableIds[0] else ""
  {
    BlocksAreContiguous(cfg, regions, asks, subnets, |regions|, j, k);
  }

  function Associated(associations: map<string, string>, a: Assignment, o: Outcome): map<string, string> {
    if a.rtId == "" || o == Refused then associations
    else if a.subnetId in associations && associations[a.subnetId] == a.rtId then associations
    else if o == Stripped then associations - {a.subnetId}
    else associations[a.subnetId := a.rtId]
  }

  function AssociatedAll(associations: map<string, string>, assignments: seq<Assignment>, outcome: nat -> Outcome): map<string, string> {
    if assignments == [] then associations
    else
      var last := |assignments| - 1;
      Associated(AssociatedAll(associations, assignments[..last], outcome), assignments[last], outcome(last))
  }

  /** An assignment whose call succeeds, and whose subnet no later assignment names, takes effect. */
  lemma {:induction false} AssignmentTakesEffect(associations: map<string, string>, assignments: seq<Assignment>, outcome: nat -> Outcome, i: nat)
    requires i < |assignments| && outcome(i) == Done && assignments[i].rtId != ""
    requires forall j :: i < j < |assignments| ==> assignments[j].subnetId != assignments[i].subnetId
    ensures assignments[i].subnetId in AssociatedAll(associations, assignments, outcome)
    ensures AssociatedAll(associations, assignments, outcome)[assignments[i].subnetId] == assignments[i].rtId
    decreases |assignments|
  {
    var last := |assignments| - 1;
    if i < last {
      AssignmentTakesEffect(associations, assignments[..last], outcome, i);
    }
  }

  /** Otherwise its subnet keeps the association it had before, if the call was refused or there is no route
      table; and if the call failed half-way, the subnet is left with none. */
  lemma {:induction false} AssignmentFails(associations: map<string, string>, assignments: seq<Assignment>, outcome: nat -> Outcome, i: nat)
    requires i < |assignments| && (outcome(i) != Done || assignments[i].rtId == "")
    requires forall j :: i < j < |assignments| ==> assignments[j].subnetId != assignments[i].subnetId
    ensures var s, rt := assignments[i].subnetId, assignments[i].rtId;
            var before, after := AssociatedAll(associations, assignments[..i], outcome), AssociatedAll(associations, assignments, outcome);
            if rt == "" || outcome(i) == Refused || (s in before && before[s] == rt)
            then (s in after <==> s in before) && (s in before ==> after[s] == before[s])
            else s !in after
    decreases |assignments|
  {
    var last := |assignments| - 1;
    if i < last {
      AssignmentFails(associations, assignments[..last], outcome, i);
      assert assignments[..last][..i] == assignments[..i];
    }
  }

  /** A subnet that no assignment names keeps the association it had, whatever fails. */
  lemma {:induction false} OtherSubnetsKeep(associations: map<string, string>, assignments: seq<Assignment>, outcome: nat -> Outcome, s: string)
    requires forall i :: 0 <= i < |assignments| ==> assignments[i].subnetId != s
    ensures s in AssociatedAll(associations, assignments, outcome) <==> s in associations
    ensures s in associations ==> AssociatedAll(associations, assignments, outcome)[s] == associations[s]
    decreases |assignments|
  {
    if assignments != [] {
      OtherSubnetsKeep(associations, assignments[..|assignments| - 1], outcome, s);
    }
  }

  lemma DropLast(names: set<string>, regions: seq<string>)
    requires multiset(regions) == multiset(names) && regions != []
    ensures var r, rest := regions[|regions| - 1], regions[..|regions| - 1];
            r in names && multiset(rest) == multiset(names - {r})
  {
    var r, rest := regions[|regions| - 1], regions[..|regions| - 1];
    assert regions == rest + [r];
    assert multiset(regions) == multiset(rest) + multiset{r};
    assert r in multiset(names);
    forall x ensures multiset(rest)[x] == multiset(names - {r})[x] {
      assert multiset(regions)[x] == multiset(rest)[x] + multiset{r}[x];
    }
  }

  lemma {:induction false} TotalIsSum(weights: map<string, real>, regions: seq<string>)
    requires multiset(regions) == multiset(weights.Keys)
    ensures forall r :: r in regions ==> r in weights
    ensures Apportionment.Total(WeightsOf(weights, regions)) == Sum(weights)
    decreases |regions|
  {
    ListedOnce(weights.Keys, regions);
    if regions == [] {
      assert weights.Keys == {};
      assert weights == map[];
    } else {
      var r, rest := regions[|regions| - 1], regions[..|regions| - 1];
      DropLast(weights.Keys, regions);
      assert (weights - {r}).Keys == weights.Keys - {r};
      TotalIsSum(weights - {r}, rest);
      SumSplit(weights, r);
      assert WeightsOf(weights, regions)[..|rest|] == WeightsOf(weights - {r}, rest);
    }
  }

  // ----- failover -----

  function PairsOf(c: RegionRoutes): set<Pair> {
    set rt, cidr | rt in c.routeTableIds && cidr in c.targetCidrs :: Pair(rt, cidr)
  }

  /** Points the pairs at an attachment, those for which the API call works. */
  function Rerouted(routes: Routes, pairs: set<Pair>, attachment: string, works: Pair -> bool): Routes {
    routes + map p | p in pairs && works(p) :: attachment
  }

  function PairsIn(rtId: string, cidrs: seq<string>): set<Pair> {
    set cidr | cidr in cidrs :: Pair(rtId, cidr)
  }

  lemma OnePairMore(rtId: string, cidrs: seq<string>, j: nat)
    requires j < |cidrs|
    ensures PairsIn(rtId, cidrs[..j + 1]) == PairsIn(rtId, cidrs[..j]) + {Pair(rtId, cidrs[j])}
  {
  }

  lemma RerouteMore(routes: Routes, pairs: set<Pair>, more: set<Pair>, attachment: string, works: Pair -> bool)
    ensures Rerouted(Rerouted(routes, pairs, attachment, works), more, attachment, works) == Rerouted(routes, pairs + more, attachment, works)
  {
  }

  lemma RerouteOne(routes: Routes, p: Pair, attachment: string, works: Pair -> bool)
    ensures Rerouted(routes, {p}, attachment, works) == if works(p) then routes[p := attachment] else routes
  {
  }

  predicate AllWork(pairs: set<Pair>, works: Pair -> bool) {
    forall p :: p in pairs ==> works(p)
  }

  /** A region that may be chosen: not the failed one, with a weight above the search's starting value. */
  predicate Eligible(weights: map<string, real>, failed: string, r: string) {
    r in weights && r != failed && weights[r] > -1.0
  }

  ghost predicate IsNextHop(weights: map<string, real>, failed: string, hop: string) {
    Eligible(weights, failed, hop) && forall r :: Eligible(weights, failed, r) ==> weights[r] <= weights[hop]
  }

  /** A next hop is a region of the greatest weight but the failed one, as long as that is above minus one. */
  lemma NextHopIsHeaviest(weights: map<string, real>, failed: string, hop: string)
    ensures IsNextHop(weights, failed, hop)
            <==> && hop in weights && hop != failed && weights[hop] > -1.0
                 && forall r :: r in weights && r != failed ==> weights[r] <= weights[hop]
  {
    if IsNextHop(weights, failed, hop) {
      forall r | r in weights && r != failed ensures weights[r] <= weights[hop] {
        assert Eligible(weights, failed, r) || weights[r] <= -1.0;
      }
    }
  }

  function Lost(weights: map<string, real>, failed: string): real {
    if failed in weights then weights[failed] else 0.0
  }

  function Positive(weights: map<string, real>, failed: string): set<string> {
    set r | r in weights && r != failed && weights[r] > 0.0
  }

  function Rebalanced(weights: map<string, real>, failed: string): map<string, real> {
    var healthy := Positive(weights, failed);
    if healthy == {} then weights[failed := 0.0]
    else Raised(weights[failed := 0.0], healthy, Lost(weights, failed) / |healthy| as real)
  }

  function Raised(weights: map<string, real>, who: set<string>, amount: real): map<string, real> {
    map r | r in weights :: if r in who then weights[r] + amount else weights[r]
  }

  lemma {:induction false} RaisedSum(weights: map<string, real>, who: set<string>, amount: real)
    requires who <= weights.Keys
    ensures Sum(Raised(weights, who, amount)) == Sum(weights) + Repeat(|who|, amount)
    decreases |who|
  {
    if who == {} {
      assert Raised(weights, who, amount) == weights;
    } else {
      var r :| r in who;
      RaisedSum(weights, who - {r}, amount);
      var less := Raised(weights, who - {r}, amount);
      assert Raised(weights, who, amount) == less[r := weights[r] + amount];
      SumUpdate(less, r, weights[r] + amount);
    }
  }

  lemma EqualParts(x: real, n: nat)
    requires n > 0
    ensures Repeat(n, x / n as real) == x
  {
    RepeatIsProduct(n, x / n as real);
    QuotientTimes(x, n as real);
  }

  /** Rebalancing by itself conserves the total exactly when there was nothing to lose or some other
      region has a positive weight to add to. */
  lemma RebalancingConserves(weights: map<string, real>, failed: string)
    requires failed in weights
    ensures Sum(Rebalanced(weights, failed)) == Sum(weights)
            <==> weights[failed] == 0.0 || exists r :: r in weights && r != failed && weights[r] > 0.0
  {
    SumUpdate(weights, failed, 0.0);
    var healthy := Positive(weights, failed);
    assert healthy != {} <==> exists r :: r in weights && r != failed && weights[r] > 0.0 by {
      if r :| r in weights && r != failed && weights[r] > 0.0 {
        assert r in healthy;
      }
    }
    if healthy != {} {
      var amount := Lost(weights, failed) / |healthy| as real;
      RaisedSum(weights[failed := 0.0], healthy, amount);
      EqualParts(Lost(weights, failed), |healthy|);
    }
  }

  /** It takes the failed region's weight away and gives every other region of positive weight the same. */
  lemma RebalancingIsEven(weights: map<string, real>, failed: string)
    requires failed in weights
    ensures var after := Rebalanced(weights, failed);
            && after.Keys == weights.Keys && after[failed] == 0.0
            && (forall r :: r in weights && r != failed && weights[r] <= 0.0 ==> after[r] == weights[r])
            && (forall a, b :: a in weights && b in weights && a != failed && b != failed && weights[a] > 0.0 && weights[b] > 0.0 ==>
                  after[a] - weights[a] == after[b] - weights[b])
  {
  }

  /** In a failover nothing is redistributed: the failed region's weight has been cleared before
      rebalancing looks at it, so the total drops by that weight. */
  lemma FailoverRedistributesNothing(weights: map<string, real>, failed: string)
    ensures Rebalanced(weights[failed := 0.0], failed) == weights[failed := 0.0]
    ensures Sum(weights[failed := 0.0]) == Sum(weights) - Lost(weights, failed)
  {
    SumUpdate(weights, failed, 0.0);
    var w := weights[failed := 0.0];
    var healthy := Positive(w, failed);
    assert w[failed := 0.0] == w;
    if healthy != {} {
      QuotientSign(0.0, |healthy| as real);
      assert Raised(w, healthy, 0.0) == w;
    }
  }

  /** Restoring undoes a failover exactly if the region's routes all pointed at its own attachment before. */
  lemma RestoreUndoesFailoverFromHome(cfg: Config, routes: Routes, failed: string, hop: string, works: Pair -> bool)
    requires AllWork(PairsOf(ConfigOf(cfg, failed)), works)
    ensures var c := ConfigOf(cfg, failed);
            Rerouted(Rerouted(routes, PairsOf(c), ConfigOf(cfg, hop).tgwAttachmentId, works), PairsOf(c), c.tgwAttachmentId, works) == routes
            <==> forall p :: p in PairsOf(c) ==> p in routes && routes[p] == c.tgwAttachmentId
  {
  }

  /** A failover clears the failed attachment out of the route tables exactly if only the region's own
      pairs pointed at it; pairs that an earlier failover moved there are left behind. */
  lemma FailoverMissesEarlierMoves(routes: Routes, c: RegionRoutes, hopAttachment: string, works: Pair -> bool)
    requires AllWork(PairsOf(c), works) && hopAttachment != c.tgwAttachmentId
    ensures var after := Rerouted(routes, PairsOf(c), hopAttachment, works);
            (forall p :: p in after ==> after[p] != c.tgwAttachmentId)
            <==> forall p :: p in routes && routes[p] == c.tgwAttachmentId ==> p in PairsOf(c)
  {
    var after := Rerouted(routes, PairsOf(c), hopAttachment, works);
    if p :| p in routes && routes[p] == c.tgwAttachmentId && p !in PairsOf(c) {
      assert p in after && after[p] == c.tgwAttachmentId;
    }
  }

  /** So two failovers in a row, the second of the region the first one chose, leave the first region's
      own pairs on the failed attachment. */
  lemma ChainedFailoverStrandsRoutes(cfg: Config, routes: Routes, first: string, second: string, third: string, works: Pair -> bool, p: Pair)
    requires p in PairsOf(ConfigOf(cfg, first)) && p !in PairsOf(ConfigOf(cfg, second)) && works(p)
    ensures var once := Rerouted(routes, PairsOf(ConfigOf(cfg, first)), ConfigOf(cfg, second).tgwAttachmentId, works);
            var twice := Rerouted(once, PairsOf(ConfigOf(cfg, second)), ConfigOf(cfg, third).tgwAttachmentId, works);
            p in twice && twice[p] == ConfigOf(cfg, second).tgwAttachmentId
  {
  }

  // ----- the manager under the control plane -----

  datatype Failover = Failover(failed: string, hop: string, works: Pair -> bool)

  function Failovers(cfg: Config, routes: Routes, fs: seq<Failover>): Routes {
    if fs == [] then routes
    else
      var f := fs[|fs| - 1];
      Rerouted(Failovers(cfg, routes, fs[..|fs| - 1]), PairsOf(ConfigOf(cfg, f.failed)), ConfigOf(cfg, f.hop).tgwAttachmentId, f.works)
  }

  ghost predicate Separate(cfg: Config) {
    forall a, b :: a in cfg && b in cfg && a != b ==>
      PairsOf(cfg[a]) !! PairsOf(cfg[b]) && cfg[a].tgwAttachmentId != cfg[b].tgwAttachmentId
  }

  /** Some failover of the region got its call for the pair through. */
  predicate Moved(fs: seq<Failover>, region: string, p: Pair) {
    fs != [] &&
    (Moved(fs[..|fs| - 1], region, p) || (fs[|fs| - 1].failed == region && fs[|fs| - 1].works(p)))
  }

  predicate AtHome(cfg: Config, routes: Routes, region: string, p: Pair)
    requires region in cfg
  {
    p in routes && routes[p] == cfg[region].tgwAttachmentId
  }

  /** The control plane fails regions over but never restores a route.  In every run of failovers, with any
      calls failing, a region's pair points at its own attachment exactly if it did at the start and no
      failover of the region ever got through to it: once moved, it never comes home. */
  lemma {:induction false} FailedOverRoutesNeverComeHome(cfg: Config, routes: Routes, fs: seq<Failover>, region: string, p: Pair)
    requires Separate(cfg) && region in cfg && p in PairsOf(cfg[region])
    requires forall i :: 0 <= i < |fs| ==> fs[i].failed in cfg && fs[i].hop in cfg && fs[i].failed != fs[i].hop
    ensures AtHome(cfg, Failovers(cfg, routes, fs), region, p) <==> AtHome(cfg, routes, region, p) && !Moved(fs, region, p)
  {
    if fs != [] {
      var before, f := fs[..|fs| - 1], fs[|fs| - 1];
      FailedOverRoutesNeverComeHome(cfg, routes, before, region, p);
      OneFailover(cfg, Failovers(cfg, routes, before), f, region, p);
    }
  }

  lemma OneFailover(cfg: Config, routes: Routes, f: Failover, region: string, p: Pair)
    requires Separate(cfg) && region in cfg && f.failed in cfg && f.hop in cfg && f.failed != f.hop && p in PairsOf(cfg[region])
    ensures var after := Rerouted(routes, PairsOf(ConfigOf(cfg, f.failed)), ConfigOf(cfg, f.hop).tgwAttachmentId, f.works);
            AtHome(cfg, after, region, p) <==> AtHome(cfg, routes, region, p) && !(f.failed == region && f.works(p))
  {
    if f.failed != region {
      assert p !in PairsOf(cfg[f.failed]);
    }
  }

  // ----- the manager object -----

  /** Every weighted region once, in the order of the names. */
  ghost predicate SortedRegions(weights: map<string, real>, regions: seq<string>) {
    && multiset(regions) == multiset(weights.Keys)
    && Ordered(LexLe, regions)
    && forall r :: r in regions ==> r in weights
  }

  class Manager {
    const cfg: Config
    var currentWeights: map<string, real>
    var associations: map<string, string>
    var routes: Routes

    constructor (cfg: Config, associations: map<string, string>, routes: Routes)
      ensures this.cfg == cfg && this.associations == associations && this.routes == routes
      ensures currentWeights == map r | r in cfg :: 1.0 / |cfg| as real
    {
      this.cfg := cfg;
      this.associations := associations;
      this.routes := routes;
      currentWeights := map r | r in cfg :: 1.0 / |cfg| as real;
    }

    /** Rejects weights that do not add up to about one; otherwise assigns the subnets in blocks, by
        sorted region.  With no subnets at all it returns before it remembers the weights. */
    method UpdateWeights(weights: map<string, real>, outcome: nat -> Outcome)
      returns (accepted: bool, regions: seq<string>, assignments: seq<Assignment>)
      modifies this`currentWeights, this`associations
      ensures accepted <==> -0.05 <= Sum(weights) - 1.0 <= 0.05
      ensures SortedRegions(weights, regions)
      ensures var subnets := AllSubnets(cfg, regions);
              if !accepted || subnets == [] then
                assignments == [] && currentWeights == old(currentWeights) && associations == old(associations)
              else
                && assignments == Blocks(cfg, regions, Asks(WeightsOf(weights, regions), |subnets|), subnets, |regions|)
                && currentWeights == old(currentWeights) + weights
                && associations == AssociatedAll(old(associations), assignments, outcome)
    {
      var total := MapSums.Total(weights);
      regions := SortRegions(weights);
      assignments := [];
      accepted := -0.05 <= total - 1.0 <= 0.05;
      if !accepted {
        return;
      }
      var subnets := CollectSubnets(regions);
      if |subnets| == 0 {
        return;
      }
      assignments := Assign(weights, regions, subnets);
      ApplyAssignments(assignments, outcome);
      currentWeights := currentWeights + weights;
    }

    method SortRegions(weights: map<string, real>) returns (regions: seq<string>)
      ensures SortedRegions(weights, regions)
    {
      LexTotal();
      var names := Elements(weights.Keys);
      regions := Sort(LexLe, names);
      ListedOnce(weights.Keys, regions);
    }

    method ApplyAssignments(assignments: seq<Assignment>, outcome: nat -> Outcome)
      modifies this`associations
      ensures associations == AssociatedAll(old(associations), assignments, outcome)
    {
      for i := 0 to |assignments|
        invariant associations == AssociatedAll(old(associations), assignments[..i], outcome)
      {
        assert assignments[..i + 1][..i] == assignments[..i];
        if assignments[i].rtId != "" {
          AssociateSubnet(assignments[i], outcome(i));
        }
      }
      assert assignments[..|assignments|] == assignments;
    }

    method CollectSubnets(regions: seq<string>) returns (subnets: seq<string>)
      ensures subnets == AllSubnets(cfg, regions)
    {
      subnets := [];
      for i := 0 to |regions|
        invariant subnets == AllSubnets(cfg, regions[..i])
      {
        assert regions[..i + 1][..i] == regions[..i];
        if regions[i] in cfg {
          subnets := subnets + cfg[regions[i]].subnetIds;
        }
      }
      assert regions[..|regions|] == regions;
    }

    method Assign(weights: map<string, real>, regions: seq<string>, subnets: seq<string>) returns (assignments: seq<Assignment>)
      requires forall r :: r in regions ==> r in weights
      ensures assignments == Blocks(cfg, regions, Asks(WeightsOf(weights, regions), |subnets|), subnets, |regions|)
    {
      assignments := [];
      ghost var asks := Asks(WeightsOf(weights, regions), |subnets|);
      for i := 0 to |regions|
        invariant assignments == Blocks(cfg, regions, asks, subnets, i)
      {
        assert regions[i] in regions;
        var count := CountSubnets(weights[regions[i]], |subnets|);
        assignments := AssignBlock(regions[i], subnets, count, assignments);
      }
    }

    method CountSubnets(w: real, n: nat) returns (count: int)
      ensures count == Wanted(w, n)
    {
      count := Round(w * n as real);
      if count == 0 && w > 0.0 {
        count := 1;
      }
    }

    /** The inner loop: one subnet after the other, until the region has enough or none is left. */
    method AssignBlock(region: string, subnets: seq<string>, count: int, done: seq<Assignment>) returns (assignments: seq<Assignment>)
      requires |done| <= |subnets|
      ensures assignments == done + Block(cfg, region, subnets, |done|, Granted(count, |subnets|, |done|))
    {
      var rtId := FirstTable(cfg, region);
      assignments := done;
      var i := 0;
      while i < count && |assignments| < |subnets|
        invariant 0 <= i <= Granted(count, |subnets|, |done|)
        invariant assignments == done + Block(cfg, region, subnets, |done|, i)
      {
        assignments := assignments + [Assignment(subnets[|assignments|], rtId, region)];
        i := i + 1;
      }
    }

    method AssociateSubnet(a: Assignment, o: Outcome)
      requires a.rtId != ""
      modifies this`associations
      ensures associations == Associated(old(associations), a, o)
    {
      if o == Refused {
        return;
      }
      if a.subnetId in associations {
        if associations[a.subnetId] == a.rtId {
          return;
        }
        associations := associations - {a.subnetId};
      }
      if o == Done {
        associations := associations[a.subnetId := a.rtId];
      }
    }

    /** Reroutes the failed region's own pairs to a next hop of maximal weight.  Fails, changing nothing,
        for an unknown region or when there is no other region. */
    method FailoverRegion(failed: string, works: Pair -> bool) returns (hop: Option<string>)
      modifies this`currentWeights, this`routes
      ensures hop.Some? <==> failed in cfg && exists r :: Eligible(old(currentWeights), failed, r)
      ensures hop.None? ==> routes == old(routes) && currentWeights == old(currentWeights)
      ensures hop.Some? ==>
                && IsNextHop(old(currentWeights), failed, hop.value)
                && routes == Rerouted(old(routes), PairsOf(cfg[failed]), ConfigOf(cfg, hop.value).tgwAttachmentId, works)
                && currentWeights == old(currentWeights)[failed := 0.0]
    {
      hop := None;
      if failed !in cfg {
        return;
      }
      hop := SelectNextHop(failed);
      if hop.None? {
        return;
      }
      ReplaceRoutes(cfg[failed], ConfigOf(cfg, hop.value).tgwAttachmentId, works);
      currentWeights := currentWeights[failed := 0.0];
      RebalanceWeights(failed);
      FailoverRedistributesNothing(old(currentWeights), failed);
    }

    /** With no regions configured there are no routes to restore, and the weight stored is infinite; since
        infinity is not a real number, any value stands for it. */
    method RestoreRegion(region: string, works: Pair -> bool)
      modifies this`currentWeights, this`routes
      ensures routes == Rerouted(old(routes), PairsOf(ConfigOf(cfg, region)), ConfigOf(cfg, region).tgwAttachmentId, works)
      ensures cfg == map[] ==> routes == old(routes)
      ensures region in currentWeights && currentWeights == old(currentWeights)[region := currentWeights[region]]
      ensures cfg != map[] ==> currentWeights[region] == 1.0 / |cfg| as real
    {
      var c := ConfigOf(cfg, region);
      ReplaceRoutes(c, c.tgwAttachmentId, works);
      var weight: real := *;
      if cfg != map[] {
        weight := 1.0 / |cfg| as real;
      }
      currentWeights := currentWeights[region := weight];
    }

    /** The nested loops over route tables and CIDRs. */
    method ReplaceRoutes(c: RegionRoutes, attachment: string, works: Pair -> bool)
      modifies this`routes
      ensures routes == Rerouted(old(routes), PairsOf(c), attachment, works)
    {
      for i := 0 to |c.routeTableIds|
        invariant routes == Rerouted(old(routes), PairsOf(c.(routeTableIds := c.routeTableIds[..i])), attachment, works)
      {
        ReplaceInTable(c.routeTableIds[i], c.targetCidrs, attachment, works);
        RerouteMore(old(routes), PairsOf(c.(routeTableIds := c.routeTableIds[..i])), PairsIn(c.routeTableIds[i], c.targetCidrs), attachment, works);
        assert PairsOf(c.(routeTableIds := c.routeTableIds[..i + 1]))
            == PairsOf(c.(routeTableIds := c.routeTableIds[..i])) + PairsIn(c.routeTableIds[i], c.targetCidrs);
      }
      assert c.routeTableIds[..|c.routeTableIds|] == c.routeTableIds;
    }

    method ReplaceRoute(p: Pair, attachment: string, works: bool)
      modifies this`routes
      ensures routes == if works then old(routes)[p := attachment] else old(routes)
    {
      if works {
        routes := routes[p := attachment];
      }
    }

    method ReplaceInTable(rtId: string, cidrs: seq<string>, attachment: string, works: Pair -> bool)
      modifies this`routes
      ensures routes == Rerouted(old(routes), PairsIn(rtId, cidrs), attachment, works)
    {
      for j := 0 to |cidrs|
        invariant routes == Rerouted(old(routes), PairsIn(rtId, cidrs[..j]), attachment, works)
      {
        var p := Pair(rtId, cidrs[j]);
        ReplaceRoute(p, attachment, works(p));
        RerouteMore(old(routes), PairsIn(rtId, cidrs[..j]), {p}, attachment, works);
        RerouteOne(Rerouted(old(routes), PairsIn(rtId, cidrs[..j]), attachment, works), p, attachment, works);
        OnePairMore(rtId, cidrs, j);
      }
      assert cidrs[..|cidrs|] == cidrs;
    }

    method SelectNextHop(failed: string) returns (best: Option<string>)
      ensures best.None? ==> forall r :: !Eligible(currentWeights, failed, r)
      ensures best.Some? ==> IsNextHop(currentWeights, failed, best.value)
    {
      best := None;
      var bestWeight := -1.0;
      var todo := currentWeights.Keys;
      while todo != {}
        invariant todo <= currentWeights.Keys
        invariant best.None? ==> bestWeight == -1.0
        invariant best.Some? ==> Eligible(currentWeights, failed, best.value) && currentWeights[best.value] == bestWeight
        invariant forall r :: Eligible(currentWeights, failed, r) && r !in todo ==> best.Some? && currentWeights[r] <= bestWeight
      {
        var r :| r in todo;
        todo := todo - {r};
        if r != failed && currentWeights[r] > bestWeight {
          bestWeight := currentWeights[r];
          best := Some(r);
        }
      }
    }

    method RebalanceWeights(failed: string)
      modifies this`currentWeights
      ensures currentWeights == Rebalanced(old(currentWeights), failed)
    {
      var lost := Lost(currentWeights, failed);
      currentWeights := currentWeights[failed := 0.0];
      assert Positive(currentWeights, failed) == Positive(old(currentWeights), failed);
      var healthy := CountHealthy(failed);
      if healthy == 0 {
        return;
      }
      RaiseHealthy(failed, lost / healthy as real);
    }

    method CountHealthy(failed: string) returns (healthy: nat)
      ensures healthy == |Positive(currentWeights, failed)|
    {
      healthy := 0;
      var todo := currentWeights.Keys;
      ghost var seen: set<string> := {};
      while todo != {}
        invariant todo <= currentWeights.Keys && healthy == |seen|
        invariant seen == Positive(currentWeights, failed) - todo
      {
        var r :| r in todo;
        todo := todo - {r};
        if r != failed && currentWeights[r] > 0.0 {
          healthy := healthy + 1;
          seen := seen + {r};
        }
      }
      assert seen == Positive(currentWeights, failed);
    }

    method RaiseHealthy(failed: string, amount: real)
      modifies this`currentWeights
      ensures currentWeights == Raised(old(currentWeights), Positive(old(currentWeights), failed), amount)
    {
      ghost var healthy := Positive(currentWeights, failed);
      var todo := currentWeights.Keys;
      while todo != {}
        invariant todo <= currentWeights.Keys
        invariant currentWeights == Raised(old(currentWeights), healthy - todo, amount)
      {
        var r :| r in todo;
        if r != failed && currentWeights[r] > 0.0 {
          currentWeights := currentWeights[r := currentWeights[r] + amount];
        }
        todo := todo - {r};
      }
      assert healthy - todo == healthy;
    }
  }
}
