/** Which runtime owns which region, under an epoch that every change of hands advances. */
module RegionDirectories {
  import opened Options

  const U64_MAX: nat := 0xffff_ffff_ffff_ffff

  datatype RegionId = RegionId(x: int, z: int)
  datatype Route = Route(owner: Option<nat>, epoch: nat)
  datatype RouteError = AlreadyAssigned | Unassigned | WrongOwner(requester: nat, current: nat)
                      | StaleEpoch(expected: nat, actual: nat) | EpochExhausted
  datatype Result<T> = Ok(value: T) | Err(error: RouteError)

  /** Why a change of hands is refused, if it is. */
  function Refusal(routes: map<RegionId, Route>, region: RegionId, requester: nat, expected: nat): Option<RouteError> {
    if region !in routes || routes[region].owner.None? then Some(Unassigned)
    else if routes[region].owner.value != requester then Some(WrongOwner(requester, routes[region].owner.value))
    else if routes[region].epoch != expected then Some(StaleEpoch(expected, routes[region].epoch))
    else if expected >= U64_MAX then Some(EpochExhausted)
    else None
  }

  class RegionDirectory {
    var routes: map<RegionId, Route>

    /** Region and epoch of every transfer or unassignment that succeeded. */
    ghost var spent: set<(RegionId, nat)>

    ghost predicate Valid()
      reads this
    {
      && (forall r :: r in routes ==> routes[r].epoch <= U64_MAX)
      && forall r, e :: (r, e) in spent ==> r in routes && e < routes[r].epoch
    }

    constructor ()
      ensures Valid() && routes == map[] && spent == {}
    {
      routes, spent := map[], {};
    }

    /** A tombstone keeps the epoch, so reassigning does not revive old routes. */
    method Assign(region: RegionId, owner: nat) returns (r: Result<nat>)
      requires Valid()
      modifies this
      ensures Valid() && spent == old(spent)
      ensures r.Err? <==> region in old(routes) && old(routes)[region].owner.Some?
      ensures r.Err? ==> r == Err(AlreadyAssigned) && routes == old(routes)
      ensures r.Ok? ==> r.value == (if region in old(routes) then old(routes)[region].epoch else 0)
      ensures r.Ok? ==> routes == old(routes)[region := Route(Some(owner), r.value)] && (region, r.value) !in spent
    {
      if region in routes {
        if routes[region].owner.Some? {
          return Err(AlreadyAssigned);
        }
        routes := routes[region := routes[region].(owner := Some(owner))];
        return Ok(routes[region].epoch);
      }
      routes := routes[region := Route(Some(owner), 0)];
      r := Ok(0);
    }

    /** Hands a region over, or gives it up when there is no new owner. Each region and epoch can be
        spent once only. */
    method Move(region: RegionId, requester: nat, expected: nat, newOwner: Option<nat>) returns (r: Result<nat>)
      requires Valid()
      modifies this
      ensures Valid()
      ensures r.Ok? <==>
        && region in old(routes) && old(routes)[region] == Route(Some(requester), expected) && expected < U64_MAX
      ensures r.Err? ==> Some(r.error) == Refusal(old(routes), region, requester, expected)
      ensures r.Err? ==> routes == old(routes) && spent == old(spent)
      ensures r.Ok? ==> r.value == expected + 1 && routes == old(routes)[region := Route(newOwner, expected + 1)]
      ensures r.Ok? ==> (region, expected) !in old(spent) && spent == old(spent) + {(region, expected)}
    {
      if region !in routes || routes[region].owner.None? {
        return Err(Unassigned);
      }
      if routes[region].owner.value != requester {
        return Err(WrongOwner(requester, routes[region].owner.value));
      }
      if routes[region].epoch != expected {
        return Err(StaleEpoch(expected, routes[region].epoch));
      }
      if routes[region].epoch >= U64_MAX {
        return Err(EpochExhausted);
      }
      var next := routes[region].epoch + 1;
      routes := routes[region := Route(newOwner, next)];
      spent := spent + {(region, expected)};
      r := Ok(next);
    }

    method Transfer(region: RegionId, requester: nat, expected: nat, newOwner: nat) returns (r: Result<nat>)
      requires Valid()
      modifies this
      ensures Valid()
      ensures r.Ok? <==> Refusal(old(routes), region, requester, expected).None?
      ensures r.Ok? ==> r.value == expected + 1 && (region, expected) !in old(spent)
      ensures r.Ok? ==> routes == old(routes)[region := Route(Some(newOwner), expected + 1)]
      ensures r.Err? ==> Some(r.error) == Refusal(old(routes), region, requester, expected) && routes == old(routes)
      ensures spent == if r.Ok? then old(spent) + {(region, expected)} else old(spent)
    {
      r := Move(region, requester, expected, Some(newOwner));
    }

    method Unassign(region: RegionId, requester: nat, expected: nat) returns (r: Result<nat>)
      requires Valid()
      modifies this
      ensures Valid()
      ensures r.Ok? <==> Refusal(old(routes), region, requester, expected).None?
      ensures r.Ok? ==> r.value == expected + 1 && (region, expected) !in old(spent)
      ensures r.Ok? ==> routes == old(routes)[region := Route(None, expected + 1)]
      ensures r.Err? ==> Some(r.error) == Refusal(old(routes), region, requester, expected) && routes == old(routes)
      ensures spent == if r.Ok? then old(spent) + {(region, expected)} else old(spent)
    {
      r := Move(region, requester, expected, None);
    }
  }
}
