/** The persisted entities, as values, and the "first element matching"
    lookups the handlers perform on the tables. */
module Entities {
  import opened Wrappers
  import Results

  type Guid = Results.Guid

  /** `Guid.Empty`, which a request uses to ask for creation. */
  const EmptyGuid: Guid := "00000000-0000-0000-0000-000000000000"

  /** A `DateTime`: its calendar day (what `.Date` keeps) and the time within it. */
  datatype DateTime = DateTime(day: int, timeOfDay: nat)

  datatype Country = Country(id: Guid, name: string, symbol: string)

  /** A city and the country it belongs to (`City.CountryId` is `country.id`). */
  datatype City = City(id: Guid, name: string, country: Country)

  /** An office zone (`Desks`) or a parking zone (`Spaces`): both are a named
      sub-area with a capacity. */
  datatype Zone = Zone(id: Guid, name: string, capacity: int)

  datatype Office = Office(
    id: Guid,
    address: string,
    postCode: string,
    officeMapUrl: Option<string>,
    cityId: Guid,
    authorEmail: string,
    officeZones: seq<Zone>,
    parkingZones: seq<Zone>)

  datatype Reservation = Reservation(
    id: Guid,
    date: DateTime,
    officeId: Guid,
    officeZoneId: Guid,
    officeDesk: string,
    parkingZoneId: Option<Guid>,
    parkingSpace: Option<string>,
    userEmail: string)

  /** The index of the first element satisfying `p`, as a first-match lookup finds it. */
  function FirstIndex<T>(s: seq<T>, p: T -> bool): (r: Option<nat>)
    ensures r.Some? ==> r.value < |s| && p(s[r.value]) && forall k | 0 <= k < r.value :: !p(s[k])
    ensures r.None? ==> forall k | 0 <= k < |s| :: !p(s[k])
  {
    if s == [] then None
    else if p(s[0]) then Some(0)
    else match FirstIndex(s[1..], p)
      case None => None
      case Some(i) => Some(i + 1)
  }

  function CityIndexById(cities: seq<City>, id: Guid): (r: Option<nat>)
    ensures r.Some? ==> r.value < |cities| && cities[r.value].id == id
    ensures r.None? <==> forall k | 0 <= k < |cities| :: cities[k].id != id
  {
    FirstIndex(cities, (c: City) => c.id == id)
  }

  function CityIndexByName(cities: seq<City>, name: string): (r: Option<nat>)
    ensures r.Some? ==> r.value < |cities| && cities[r.value].name == name
    ensures r.None? <==> forall k | 0 <= k < |cities| :: cities[k].name != name
  {
    FirstIndex(cities, (c: City) => c.name == name)
  }

  function OfficeIndexById(offices: seq<Office>, id: Guid): (r: Option<nat>)
    ensures r.Some? ==> r.value < |offices| && offices[r.value].id == id
    ensures r.None? <==> forall k | 0 <= k < |offices| :: offices[k].id != id
  {
    FirstIndex(offices, (o: Office) => o.id == id)
  }

  /** The office lookup by address: the FIRST office with that address, in any city. */
  function OfficeIndexByAddress(offices: seq<Office>, address: string): (r: Option<nat>)
    ensures r.Some? ==> r.value < |offices| && offices[r.value].address == address
    ensures r.Some? ==> forall k | 0 <= k < r.value :: offices[k].address != address
    ensures r.None? <==> forall k | 0 <= k < |offices| :: offices[k].address != address
  {
    FirstIndex(offices, (o: Office) => o.address == address)
  }

  function ReservationIndexById(reservations: seq<Reservation>, id: Guid): (r: Option<nat>)
    ensures r.Some? ==> r.value < |reservations| && reservations[r.value].id == id
    ensures r.None? <==> forall k | 0 <= k < |reservations| :: reservations[k].id != id
  {
    FirstIndex(reservations, (x: Reservation) => x.id == id)
  }

  function ZoneById(zones: seq<Zone>, id: Guid): (r: Option<Zone>)
    ensures r.Some? ==> r.value in zones && r.value.id == id
    ensures r.None? <==> forall z | z in zones :: z.id != id
  {
    match FirstIndex(zones, (z: Zone) => z.id == id)
    case None => None
    case Some(i) => Some(zones[i])
  }

  /** The `OfficeZones` table: the office zones of every office, office by office. */
  function AllOfficeZones(offices: seq<Office>): (zs: seq<Zone>)
    ensures |offices| == 1 ==> zs == offices[0].officeZones
  {
    if offices == [] then [] else offices[0].officeZones + AllOfficeZones(offices[1..])
  }

  /** The `ParkingZones` table: the parking zones of every office, office by office. */
  function AllParkingZones(offices: seq<Office>): (zs: seq<Zone>)
    ensures |offices| == 1 ==> zs == offices[0].parkingZones
  {
    if offices == [] then [] else offices[0].parkingZones + AllParkingZones(offices[1..])
  }

  /** The `OfficeZones` table holds exactly the office zones of the offices. */
  lemma {:induction false} OfficeZoneTable(offices: seq<Office>)
    ensures forall o, z | o in offices && z in o.officeZones :: z in AllOfficeZones(offices)
    ensures forall z | z in AllOfficeZones(offices) :: exists o | o in offices :: z in o.officeZones
  {
    if offices != [] {
      OfficeZoneTable(offices[1..]);
      forall o | o in offices ensures o == offices[0] || o in offices[1..] {
        var k :| 0 <= k < |offices| && offices[k] == o;
        if k > 0 { assert offices[1..][k - 1] == o; }
      }
    }
  }

  /** The `ParkingZones` table holds exactly the parking zones of the offices. */
  lemma {:induction false} ParkingZoneTable(offices: seq<Office>)
    ensures forall o, z | o in offices && z in o.parkingZones :: z in AllParkingZones(offices)
    ensures forall z | z in AllParkingZones(offices) :: exists o | o in offices :: z in o.parkingZones
  {
    if offices != [] {
      ParkingZoneTable(offices[1..]);
      forall o | o in offices ensures o == offices[0] || o in offices[1..] {
        var k :| 0 <= k < |offices| && offices[k] == o;
        if k > 0 { assert offices[1..][k - 1] == o; }
      }
    }
  }

  /** Primary keys: no two offices share an id. */
  predicate DistinctOfficeIds(offices: seq<Office>) {
    forall i, j | 0 <= i < j < |offices| :: offices[i].id != offices[j].id
  }

  predicate DistinctReservationIds(reservations: seq<Reservation>) {
    forall i, j | 0 <= i < j < |reservations| :: reservations[i].id != reservations[j].id
  }

  predicate DistinctZoneIds(zones: seq<Zone>) {
    forall i, j | 0 <= i < j < |zones| :: zones[i].id != zones[j].id
  }

  function ZoneIds(zones: seq<Zone>): set<Guid> {
    set z | z in zones :: z.id
  }

  /** Two zone lists together have distinct keys exactly when each has and
      they share no key. */
  lemma DistinctZoneIdsConcat(a: seq<Zone>, b: seq<Zone>)
    ensures DistinctZoneIds(a + b) <==>
      DistinctZoneIds(a) && DistinctZoneIds(b) && forall x, y | x in a && y in b :: x.id != y.id
  {
    var ab := a + b;
    if DistinctZoneIds(ab) {
      forall i, j | 0 <= i < j < |a| ensures a[i].id != a[j].id {
        assert ab[i] == a[i] && ab[j] == a[j];
      }
      forall i, j | 0 <= i < j < |b| ensures b[i].id != b[j].id {
        assert ab[|a| + i] == b[i] && ab[|a| + j] == b[j];
      }
      forall x, y | x in a && y in b ensures x.id != y.id {
        var i :| 0 <= i < |a| && a[i] == x;
        var j :| 0 <= j < |b| && b[j] == y;
        assert ab[i] == x && ab[|a| + j] == y;
      }
    }
    if DistinctZoneIds(a) && DistinctZoneIds(b) && forall x, y | x in a && y in b :: x.id != y.id {
      forall i, j | 0 <= i < j < |ab| ensures ab[i].id != ab[j].id {
        if j < |a| {
          assert ab[i] == a[i] && ab[j] == a[j];
        } else if i < |a| {
          assert ab[i] in a && ab[j] == b[j - |a|] && b[j - |a|] in b;
        } else {
          assert ab[i] == b[i - |a|] && ab[j] == b[j - |a|];
        }
      }
    }
  }

  lemma {:induction false} AllOfficeZonesAppend(a: seq<Office>, b: seq<Office>)
    ensures AllOfficeZones(a + b) == AllOfficeZones(a) + AllOfficeZones(b)
  {
    if a == [] {
      assert a + b == b;
    } else {
      assert (a + b)[1..] == a[1..] + b;
      AllOfficeZonesAppend(a[1..], b);
    }
  }

  lemma {:induction false} AllParkingZonesAppend(a: seq<Office>, b: seq<Office>)
    ensures AllParkingZones(a + b) == AllParkingZones(a) + AllParkingZones(b)
  {
    if a == [] {
      assert a + b == b;
    } else {
      assert (a + b)[1..] == a[1..] + b;
      AllParkingZonesAppend(a[1..], b);
    }
  }

  /** Foreign keys: every office's city exists. */
  predicate CitiesResolve(cities: seq<City>, offices: seq<Office>) {
    forall o | o in offices :: CityIndexById(cities, o.cityId).Some?
  }

  /** `office.City`, which the lookups load with `Include`. */
  function CityOf(cities: seq<City>, office: Office): (c: City)
    requires CityIndexById(cities, office.cityId).Some?
    ensures c in cities && c.id == office.cityId
  {
    cities[CityIndexById(cities, office.cityId).value]
  }

  /** `Remove(entity)` on a table: drop the element at `i`. */
  function RemoveAt<T>(s: seq<T>, i: nat): (r: seq<T>)
    requires i < |s|
    ensures |r| == |s| - 1
    ensures forall k | 0 <= k < i :: r[k] == s[k]
    ensures forall k | i <= k < |r| :: r[k] == s[k + 1]
  {
    s[..i] + s[i + 1..]
  }
}
