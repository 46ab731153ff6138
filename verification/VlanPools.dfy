/** VLAN tag allocation of the Docker plugin: two ranges, two circular cursors, spill-over
    (agent/network/docker_plugin.py), against first-fit over the same ranges (agent/helpers.py). */
module VlanPools {
  import opened Wrappers

  const VLAN_RANGE_START := 100
  const VLAN_RANGE_END := 2049
  const LINKED_VLAN_START := 2050
  const LINKED_VLAN_END := 4000

  /** Reserved tags of both ranges and the two cursors. */
  datatype Pools = Pools(isolated: set<int>, linked: set<int>, nextIsolated: int, nextLinked: int)

  ghost predicate CursorsInRange(p: Pools) {
    && VLAN_RANGE_START <= p.nextIsolated <= VLAN_RANGE_END
    && LINKED_VLAN_START <= p.nextLinked <= LINKED_VLAN_END
  }

  /** Also each pool holds tags of its own range only. */
  ghost predicate ValidPools(p: Pools) {
    && CursorsInRange(p)
    && (forall v :: v in p.isolated ==> VLAN_RANGE_START <= v <= VLAN_RANGE_END)
    && (forall v :: v in p.linked ==> LINKED_VLAN_START <= v <= LINKED_VLAN_END)
  }

  function Reserved(p: Pools): set<int> { p.isolated + p.linked }

  function Next(lo: int, hi: int, vlan: int): int { if vlan >= hi then lo else vlan + 1 }

  /** The first tag outside `used` met when walking the ring lo..hi from `cursor`. */
  function Search(used: set<int>, lo: int, hi: int, cursor: int, attempts: nat): Option<int>
    decreases attempts
  {
    if attempts == 0 then None
    else if cursor !in used then Some(cursor)
    else Search(used, lo, hi, Next(lo, hi, cursor), attempts - 1)
  }

  function SearchIsolated(p: Pools, used: set<int>): Option<int> {
    Search(used, VLAN_RANGE_START, VLAN_RANGE_END, p.nextIsolated, VLAN_RANGE_END - VLAN_RANGE_START + 1)
  }

  function SearchLinked(p: Pools, used: set<int>): Option<int> {
    Search(used, LINKED_VLAN_START, LINKED_VLAN_END, p.nextLinked, LINKED_VLAN_END - LINKED_VLAN_START + 1)
  }

  function ReserveIsolated(p: Pools, vlan: int): Pools {
    p.(isolated := p.isolated + {vlan}, nextIsolated := Next(VLAN_RANGE_START, VLAN_RANGE_END, vlan))
  }

  function ReserveLinked(p: Pools, vlan: int): Pools {
    p.(linked := p.linked + {vlan}, nextLinked := Next(LINKED_VLAN_START, LINKED_VLAN_END, vlan))
  }

  /** _allocate_vlan: isolated range first, then the linked range; None where it raises. */
  function Allocate(p: Pools, onBridge: set<int>): (Pools, Option<int>) {
    var used := Reserved(p) + onBridge;
    var isolated := SearchIsolated(p, used);
    var linked := SearchLinked(p, used);
    if isolated.Some? then (ReserveIsolated(p, isolated.value), isolated)
    else if linked.Some? then (ReserveLinked(p, linked.value), linked)
    else (p, None)
  }

  /** _allocate_linked_vlan: the same with the ranges exchanged. */
  function AllocateLinked(p: Pools, onBridge: set<int>): (Pools, Option<int>) {
    var used := Reserved(p) + onBridge;
    var linked := SearchLinked(p, used);
    var isolated := SearchIsolated(p, used);
    if linked.Some? then (ReserveLinked(p, linked.value), linked)
    else if isolated.Some? then (ReserveIsolated(p, isolated.value), isolated)
    else (p, None)
  }

  /** _release_vlan and _release_linked_vlan: a tag may sit in either pool. */
  function Release(p: Pools, vlan: int): Pools {
    p.(isolated := p.isolated - {vlan}, linked := p.linked - {vlan})
  }

  // ---- The search ----

  /** Steps from `cursor` to `v` on the ring lo..hi. */
  function Distance(lo: int, hi: int, cursor: int, v: int): int {
    if v >= cursor then v - cursor else v - cursor + (hi - lo + 1)
  }

  /** The search finds the nearest free tag on the ring; it gives up exactly when every tag within
      reach is used. */
  lemma {:induction false} SearchIsNearest(used: set<int>, lo: int, hi: int, cursor: int, attempts: nat)
    requires lo <= cursor <= hi && attempts <= hi - lo + 1
    ensures match Search(used, lo, hi, cursor, attempts)
            case Some(v) => lo <= v <= hi && v !in used && Distance(lo, hi, cursor, v) < attempts
                            && forall u :: lo <= u <= hi ==>
                                 (Distance(lo, hi, cursor, u) < Distance(lo, hi, cursor, v) ==> u in used)
            case None => forall u :: lo <= u <= hi && Distance(lo, hi, cursor, u) < attempts ==> u in used
    decreases attempts
  {
    if attempts > 0 && cursor in used {
      var next := Next(lo, hi, cursor);
      SearchIsNearest(used, lo, hi, next, attempts - 1);
      forall u | lo <= u <= hi && u != cursor ensures Distance(lo, hi, next, u) == Distance(lo, hi, cursor, u) - 1 {
      }
    }
  }

  /** With as many attempts as the ring has tags, the search fails only on a full range. */
  lemma SearchIsComplete(used: set<int>, lo: int, hi: int, cursor: int)
    requires lo <= cursor <= hi
    ensures var r := Search(used, lo, hi, cursor, hi - lo + 1);
            && (r == None <==> forall u :: lo <= u <= hi ==> u in used)
            && (r.Some? ==> lo <= r.value <= hi && r.value !in used)
  {
    SearchIsNearest(used, lo, hi, cursor, hi - lo + 1);
  }

  // ---- First fit ----

  /** _pick_free_vlan. */
  function PickFree(used: set<int>, start: int, end: int): Option<int>
    decreases end - start + 1
  {
    if start > end then None
    else if start !in used then Some(start)
    else PickFree(used, start + 1, end)
  }

  /** _pick_isolation_vlan. */
  function PickIsolation(used: set<int>): Option<int> {
    var vlan := PickFree(used, 100, 2049);
    if vlan.Some? then vlan else PickFree(used, 2050, 4000)
  }

  lemma {:induction false} PickFreeIsLeast(used: set<int>, start: int, end: int)
    ensures match PickFree(used, start, end)
            case Some(v) => start <= v <= end && v !in used && forall u :: start <= u < v ==> u in used
            case None => forall u :: start <= u <= end ==> u in used
    decreases end - start + 1
  {
    if start <= end && start in used { PickFreeIsLeast(used, start + 1, end); }
  }

  // ---- Main results ----

  /** Every tag of one range is in `used`. */
  ghost predicate Full(used: set<int>, lo: int, hi: int) { forall v :: lo <= v <= hi ==> v in used }

  /** Soundness and completeness of _allocate_vlan from any cursors.  It returns a tag of 100..4000
      that no pool and no bridge port has, from the isolated range whenever that has a free tag, and
      reserves exactly that tag; it fails exactly when all 3901 tags are taken, which is exactly when
      first fit over the same used set finds nothing; and first fit and the cursor search agree on
      the range they take the tag from. */
  lemma AllocateContract(p: Pools, onBridge: set<int>)
    requires CursorsInRange(p)
    ensures var used := Reserved(p) + onBridge;
            var (p', r) := Allocate(p, onBridge);
            && CursorsInRange(p') && (ValidPools(p) ==> ValidPools(p'))
            && (r == None <==> Full(used, 100, 4000))
            && (r == None <==> PickIsolation(used) == None)
            && (r == None ==> p' == p)
            && (r.Some? ==>
                  && 100 <= r.value <= 4000 && r.value !in used
                  && Reserved(p') == Reserved(p) + {r.value}
                  && (r.value <= 2049 <==> !Full(used, 100, 2049))
                  && (r.value <= 2049 <==> PickIsolation(used).value <= 2049))
  {
    var used := Reserved(p) + onBridge;
    SearchIsComplete(used, 100, 2049, p.nextIsolated);
    SearchIsComplete(used, 2050, 4000, p.nextLinked);
    PickFreeIsLeast(used, 100, 2049);
    PickFreeIsLeast(used, 2050, 4000);
    var (p', r) := Allocate(p, onBridge);
    if r.Some? {
      assert Reserved(p') == Reserved(p) + {r.value};
    } else {
      assert forall v :: 100 <= v <= 4000 ==> v in used;
    }
  }

  /** The same for _allocate_linked_vlan, which prefers the linked range. */
  lemma AllocateLinkedContract(p: Pools, onBridge: set<int>)
    requires CursorsInRange(p)
    ensures var used := Reserved(p) + onBridge;
            var (p', r) := AllocateLinked(p, onBridge);
            && CursorsInRange(p') && (ValidPools(p) ==> ValidPools(p'))
            && (r == None <==> Full(used, 100, 4000))
            && (r == None ==> p' == p)
            && (r.Some? ==>
                  && 100 <= r.value <= 4000 && r.value !in used
                  && Reserved(p') == Reserved(p) + {r.value}
                  && (r.value >= 2050 <==> !Full(used, 2050, 4000)))
  {
    var used := Reserved(p) + onBridge;
    SearchIsComplete(used, 100, 2049, p.nextIsolated);
    SearchIsComplete(used, 2050, 4000, p.nextLinked);
    var (p', r) := AllocateLinked(p, onBridge);
    if r.Some? {
      assert Reserved(p') == Reserved(p) + {r.value};
    } else {
      assert forall v :: 100 <= v <= 4000 ==> v in used;
    }
  }

  /** The cursor of the range a tag was taken from moves just behind it, at the end back to the start, and the
      other one stays. */
  lemma CursorsMoveOn(p: Pools, onBridge: set<int>)
    requires CursorsInRange(p)
    ensures var (p', r) := Allocate(p, onBridge); r.Some? ==> MovedPast(p, p', r.value)
    ensures var (p', r) := AllocateLinked(p, onBridge); r.Some? ==> MovedPast(p, p', r.value)
  {
    var used := Reserved(p) + onBridge;
    SearchIsComplete(used, 100, 2049, p.nextIsolated);
    SearchIsComplete(used, 2050, 4000, p.nextLinked);
  }

  ghost predicate MovedPast(p: Pools, p': Pools, tag: int) {
    if tag <= 2049 then p'.nextIsolated == (if tag == 2049 then 100 else tag + 1) && p'.nextLinked == p.nextLinked
    else p'.nextLinked == (if tag == 4000 then 2050 else tag + 1) && p'.nextIsolated == p.nextIsolated
  }

  /** So an isolated tag that was just released comes last: it is handed out again only when no other one of
      its range is free. */
  lemma ReleasedTagComesLast(p: Pools, onBridge: set<int>)
    requires CursorsInRange(p)
    ensures var (p1, r) := Allocate(p, onBridge);
            r.Some? && r.value <= 2049 && Allocate(Release(p1, r.value), onBridge).1 == r ==>
              forall v :: 100 <= v <= 2049 && v != r.value ==> v in Reserved(p) + onBridge
  {
    var (p1, r) := Allocate(p, onBridge);
    AllocateContract(p, onBridge);
    CursorsMoveOn(p, onBridge);
    if r.Some? && r.value <= 2049 {
      var p2 := Release(p1, r.value);
      assert Reserved(p2) == Reserved(p);
      var used := Reserved(p2) + onBridge;
      SearchIsNearest(used, 100, 2049, p2.nextIsolated, 1950);
      forall v | 100 <= v <= 2049 && v != r.value
        ensures Distance(100, 2049, p2.nextIsolated, v) < Distance(100, 2049, p2.nextIsolated, r.value)
      {
      }
    }
  }

  /** Right after a release both allocators may hand the tag out again, and no other tag is lost. */
  lemma ReleaseContract(p: Pools, vlan: int)
    requires CursorsInRange(p)
    ensures CursorsInRange(Release(p, vlan)) && (ValidPools(p) ==> ValidPools(Release(p, vlan)))
    ensures Reserved(Release(p, vlan)) == Reserved(p) - {vlan}
  {
  }

  /** With the cursor at the start of the ring, the circular search is first fit. */
  lemma {:induction false} SearchFromStartIsFirstFit(used: set<int>, lo: int, hi: int, cursor: int)
    requires lo <= cursor <= hi + 1
    ensures Search(used, lo, hi, cursor, hi - cursor + 1) == PickFree(used, cursor, hi)
    decreases hi - cursor + 1
  {
    if cursor <= hi && cursor in used {
      if cursor < hi { SearchFromStartIsFirstFit(used, lo, hi, cursor + 1); }
    }
  }
}
