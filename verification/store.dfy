/** The relational store the handlers read and write: the `Cities`,
    `Offices` (with their zones) and `Reservations` tables. */
module Store {
  import opened Entities

  /** The error both office handlers report when saving changes fails. */
  const SaveFailedMessage: string := "Error occurred while saving changes to database."

  /** The primary keys of the `OfficeZones` and `ParkingZones` tables: no two
      office zones, and no two parking zones, of any offices share a key. */
  predicate ZoneKeysUnique(offices: seq<Office>) {
    DistinctZoneIds(AllOfficeZones(offices)) && DistinctZoneIds(AllParkingZones(offices))
  }

  /** Keys and foreign keys the database enforces. */
  predicate StoreInvariant(cities: seq<City>, offices: seq<Office>, reservations: seq<Reservation>) {
    && DistinctOfficeIds(offices)
    && DistinctReservationIds(reservations)
    && CitiesResolve(cities, offices)
    && ZoneKeysUnique(offices)
  }

  /** The zone tables split around office `i`, whether that office is kept,
      replaced or removed. */
  lemma ZoneTablesAround(offices: seq<Office>, i: nat, office: Office)
    requires i < |offices|
    ensures var before, after := offices[..i], offices[i + 1..];
      && AllOfficeZones(offices) == AllOfficeZones(before) + offices[i].officeZones + AllOfficeZones(after)
      && AllParkingZones(offices) == AllParkingZones(before) + offices[i].parkingZones + AllParkingZones(after)
      && AllOfficeZones(offices[i := office]) == AllOfficeZones(before) + office.officeZones + AllOfficeZones(after)
      && AllParkingZones(offices[i := office]) == AllParkingZones(before) + office.parkingZones + AllParkingZones(after)
      && AllOfficeZones(RemoveAt(offices, i)) == AllOfficeZones(before) + AllOfficeZones(after)
      && AllParkingZones(RemoveAt(offices, i)) == AllParkingZones(before) + AllParkingZones(after)
  {
    var before, after := offices[..i], offices[i + 1..];
    forall o: Office
      ensures AllOfficeZones(before + [o] + after) == AllOfficeZones(before) + o.officeZones + AllOfficeZones(after)
      ensures AllParkingZones(before + [o] + after) == AllParkingZones(before) + o.parkingZones + AllParkingZones(after)
    {
      AllOfficeZonesAppend(before + [o], after);
      AllOfficeZonesAppend(before, [o]);
      AllParkingZonesAppend(before + [o], after);
      AllParkingZonesAppend(before, [o]);
      assert AllOfficeZones([o]) == o.officeZones + AllOfficeZones([]);
      assert AllParkingZones([o]) == o.parkingZones + AllParkingZones([]);
    }
    assert offices == before + [offices[i]] + after;
    assert offices[i := office] == before + [office] + after;
    AllOfficeZonesAppend(before, after);
    AllParkingZonesAppend(before, after);
  }

  /** Swapping the middle part `s` of a key-distinct list for `s'` keeps the
      keys distinct when `s'` itself has distinct keys, each of them a key of
      `s` or a key unused by the whole list. */
  lemma DistinctZoneIdsReplace(x: seq<Zone>, s: seq<Zone>, s': seq<Zone>, y: seq<Zone>)
    requires DistinctZoneIds(x + s + y)
    requires DistinctZoneIds(s')
    requires forall z | z in s' :: z.id in ZoneIds(s) || z.id !in ZoneIds(x + s + y)
    ensures DistinctZoneIds(x + s' + y)
  {
    DistinctZoneIdsConcat(x + s, y);
    DistinctZoneIdsConcat(x, s);
    forall a, b | a in x && b in s' ensures a.id != b.id {
      assert a in x + s + y;
      if b.id in ZoneIds(s) {
        var c :| c in s && c.id == b.id;
      }
    }
    DistinctZoneIdsConcat(x, s');
    forall a, b | a in x + s' && b in y ensures a.id != b.id {
      assert b in x + s + y;
      if a in s' && a.id in ZoneIds(s) {
        var c :| c in s && c.id == a.id;
        assert c in x + s;
      } else if a in x {
        assert a in x + s;
      }
    }
    DistinctZoneIdsConcat(x + s', y);
  }

  /** Zone keys are unique within each office. */
  lemma OfficeZoneKeysDistinct(offices: seq<Office>, i: nat)
    requires ZoneKeysUnique(offices) && i < |offices|
    ensures DistinctZoneIds(offices[i].officeZones) && DistinctZoneIds(offices[i].parkingZones)
  {
    ZoneTablesAround(offices, i, offices[i]);
    var before, after := offices[..i], offices[i + 1..];
    DistinctZoneIdsConcat(AllOfficeZones(before) + offices[i].officeZones, AllOfficeZones(after));
    DistinctZoneIdsConcat(AllOfficeZones(before), offices[i].officeZones);
    DistinctZoneIdsConcat(AllParkingZones(before) + offices[i].parkingZones, AllParkingZones(after));
    DistinctZoneIdsConcat(AllParkingZones(before), offices[i].parkingZones);
  }

  /** Every key of an office's zones is a key of its table. */
  lemma OwnZonesInTables(offices: seq<Office>, i: nat)
    requires i < |offices|
    ensures ZoneIds(offices[i].officeZones) <= ZoneIds(AllOfficeZones(offices))
    ensures ZoneIds(offices[i].parkingZones) <= ZoneIds(AllParkingZones(offices))
  {
    OfficeZoneTable(offices);
    ParkingZoneTable(offices);
    assert offices[i] in offices;
  }

  /** Replacing office `i` keeps the zone keys unique when each new zone list
      has distinct keys, each a key the office had or one no office uses. */
  lemma ZoneKeysAfterReplace(offices: seq<Office>, i: nat, office: Office)
    requires ZoneKeysUnique(offices) && i < |offices|
    requires DistinctZoneIds(office.officeZones) && DistinctZoneIds(office.parkingZones)
    requires forall z | z in office.officeZones ::
      z.id in ZoneIds(offices[i].officeZones) || z.id !in ZoneIds(AllOfficeZones(offices))
    requires forall z | z in office.parkingZones ::
      z.id in ZoneIds(offices[i].parkingZones) || z.id !in ZoneIds(AllParkingZones(offices))
    ensures ZoneKeysUnique(offices[i := office])
  {
    ZoneTablesAround(offices, i, office);
    var before, after := offices[..i], offices[i + 1..];
    DistinctZoneIdsReplace(AllOfficeZones(before), offices[i].officeZones, office.officeZones, AllOfficeZones(after));
    DistinctZoneIdsReplace(AllParkingZones(before), offices[i].parkingZones, office.parkingZones, AllParkingZones(after));
  }

  /** A zone list without the zones whose key is in `ids`, in order. */
  function WithoutKeys(zones: seq<Zone>, ids: set<Guid>): seq<Zone> {
    if zones == [] then []
    else
      var last := zones[|zones| - 1];
      WithoutKeys(zones[..|zones| - 1], ids) + (if last.id in ids then [] else [last])
  }

  /** Exactly the zones whose key is not in `ids` stay. */
  lemma {:induction false} WithoutKeysMembers(zones: seq<Zone>, ids: set<Guid>)
    ensures forall z :: z in WithoutKeys(zones, ids) <==> z in zones && z.id !in ids
  {
    if zones != [] {
      var init := zones[..|zones| - 1];
      WithoutKeysMembers(init, ids);
      assert zones == init + [zones[|zones| - 1]];
    }
  }

  /** Taking zones out keeps the remaining keys distinct. */
  lemma {:induction false} WithoutKeysDistinct(zones: seq<Zone>, ids: set<Guid>)
    requires DistinctZoneIds(zones)
    ensures DistinctZoneIds(WithoutKeys(zones, ids))
  {
    if zones != [] {
      var init, last := zones[..|zones| - 1], zones[|zones| - 1];
      assert zones == init + [last];
      DistinctZoneIdsConcat(init, [last]);
      WithoutKeysDistinct(init, ids);
      WithoutKeysMembers(init, ids);
      DistinctZoneIdsConcat(WithoutKeys(init, ids), if last.id in ids then [] else [last]);
    }
  }

  /** Taking out no key leaves the list as it was. */
  lemma {:induction false} WithoutNoKeys(zones: seq<Zone>)
    ensures WithoutKeys(zones, {}) == zones
  {
    if zones != [] {
      WithoutNoKeys(zones[..|zones| - 1]);
      assert zones == zones[..|zones| - 1] + [zones[|zones| - 1]];
    }
  }

  lemma {:induction false} WithoutKeysAppend(a: seq<Zone>, b: seq<Zone>, ids: set<Guid>)
    ensures WithoutKeys(a + b, ids) == WithoutKeys(a, ids) + WithoutKeys(b, ids)
  {
    if b == [] {
      assert a + b == a;
    } else {
      var init := b[..|b| - 1];
      WithoutKeysAppend(a, init, ids);
      assert (a + b)[..|a + b| - 1] == a + init;
    }
  }

  /** The `Offices` table once the office zones whose keys are in
      `officeIds`, and the parking zones whose keys are in `parkingIds`, have
      left their office. */
  function Released(offices: seq<Office>, officeIds: set<Guid>, parkingIds: set<Guid>): (r: seq<Office>)
    ensures |r| == |offices|
  {
    seq(|offices|, j requires 0 <= j < |offices| =>
      offices[j].(officeZones := WithoutKeys(offices[j].officeZones, officeIds),
                  parkingZones := WithoutKeys(offices[j].parkingZones, parkingIds)))
  }

  /** When no zone leaves, the table stays as it was. */
  lemma ReleasedNothing(offices: seq<Office>)
    ensures Released(offices, {}, {}) == offices
  {
    forall k | 0 <= k < |offices|
      ensures Released(offices, {}, {})[k] == offices[k]
    {
      WithoutNoKeys(offices[k].officeZones);
      WithoutNoKeys(offices[k].parkingZones);
    }
  }

  /** Zones leaving their offices leave the zone tables, which keep their order. */
  lemma {:induction false} ReleasedTables(offices: seq<Office>, officeIds: set<Guid>, parkingIds: set<Guid>)
    ensures AllOfficeZones(Released(offices, officeIds, parkingIds)) == WithoutKeys(AllOfficeZones(offices), officeIds)
    ensures AllParkingZones(Released(offices, officeIds, parkingIds)) == WithoutKeys(AllParkingZones(offices), parkingIds)
  {
    if offices != [] {
      var r := Released(offices, officeIds, parkingIds);
      assert r[1..] == Released(offices[1..], officeIds, parkingIds);
      ReleasedTables(offices[1..], officeIds, parkingIds);
      WithoutKeysAppend(offices[0].officeZones, AllOfficeZones(offices[1..]), officeIds);
      WithoutKeysAppend(offices[0].parkingZones, AllParkingZones(offices[1..]), parkingIds);
    }
  }

  /** Rewriting office `i` while the zones whose keys are in `officeIds` and
      `parkingIds` leave the other offices keeps the zone keys unique, when
      each new zone list has distinct keys, each a key the office had, a key
      that leaves, or a key no office uses. */
  lemma ZoneKeysAfterMove(offices: seq<Office>, i: nat, office: Office, officeIds: set<Guid>, parkingIds: set<Guid>)
    requires ZoneKeysUnique(offices) && i < |offices|
    requires DistinctZoneIds(office.officeZones) && DistinctZoneIds(office.parkingZones)
    requires forall z | z in office.officeZones ::
      z.id in ZoneIds(offices[i].officeZones) || z.id in officeIds || z.id !in ZoneIds(AllOfficeZones(offices))
    requires forall z | z in office.parkingZones ::
      z.id in ZoneIds(offices[i].parkingZones) || z.id in parkingIds || z.id !in ZoneIds(AllParkingZones(offices))
    ensures ZoneKeysUnique(Released(offices, officeIds, parkingIds)[i := office])
  {
    var r := Released(offices, officeIds, parkingIds);
    ReleasedTables(offices, officeIds, parkingIds);
    WithoutKeysDistinct(AllOfficeZones(offices), officeIds);
    WithoutKeysDistinct(AllParkingZones(offices), parkingIds);
    WithoutKeysMembers(AllOfficeZones(offices), officeIds);
    WithoutKeysMembers(AllParkingZones(offices), parkingIds);
    WithoutKeysMembers(offices[i].officeZones, officeIds);
    WithoutKeysMembers(offices[i].parkingZones, parkingIds);
    forall z | z in office.officeZones
      ensures z.id in ZoneIds(r[i].officeZones) || z.id !in ZoneIds(AllOfficeZones(r))
    {
      if z.id in ZoneIds(offices[i].officeZones) && z.id !in officeIds {
        var y :| y in offices[i].officeZones && y.id == z.id;
        assert y in r[i].officeZones;
      }
    }
    forall z | z in office.parkingZones
      ensures z.id in ZoneIds(r[i].parkingZones) || z.id !in ZoneIds(AllParkingZones(r))
    {
      if z.id in ZoneIds(offices[i].parkingZones) && z.id !in parkingIds {
        var y :| y in offices[i].parkingZones && y.id == z.id;
        assert y in r[i].parkingZones;
      }
    }
    ZoneKeysAfterReplace(r, i, office);
  }

  /** Appending an office keeps the zone keys unique when its zone lists have
      distinct keys that no office uses. */
  lemma ZoneKeysAfterAppend(offices: seq<Office>, office: Office)
    requires ZoneKeysUnique(offices)
    requires DistinctZoneIds(office.officeZones) && DistinctZoneIds(office.parkingZones)
    requires forall z | z in office.officeZones :: z.id !in ZoneIds(AllOfficeZones(offices))
    requires forall z | z in office.parkingZones :: z.id !in ZoneIds(AllParkingZones(offices))
    ensures ZoneKeysUnique(offices + [office])
  {
    AllOfficeZonesAppend(offices, [office]);
    AllParkingZonesAppend(offices, [office]);
    assert AllOfficeZones([office]) == office.officeZones + AllOfficeZones([]);
    assert AllParkingZones([office]) == office.parkingZones + AllParkingZones([]);
    var officeTable, parkingTable := AllOfficeZones(offices), AllParkingZones(offices);
    assert officeTable + [] + [] == officeTable && parkingTable + [] + [] == parkingTable;
    DistinctZoneIdsReplace(officeTable, [], office.officeZones, []);
    DistinctZoneIdsReplace(parkingTable, [], office.parkingZones, []);
    assert officeTable + office.officeZones + [] == officeTable + office.officeZones;
    assert parkingTable + office.parkingZones + [] == parkingTable + office.parkingZones;
  }

  /** Removing an office keeps the zone keys unique. */
  lemma ZoneKeysAfterRemoval(offices: seq<Office>, i: nat)
    requires ZoneKeysUnique(offices) && i < |offices|
    ensures ZoneKeysUnique(RemoveAt(offices, i))
  {
    var before, after := offices[..i], offices[i + 1..];
    ZoneTablesAround(offices, i, offices[i]);
    DistinctZoneIdsReplace(AllOfficeZones(before), offices[i].officeZones, [], AllOfficeZones(after));
    DistinctZoneIdsReplace(AllParkingZones(before), offices[i].parkingZones, [], AllParkingZones(after));
    assert AllOfficeZones(before) + [] + AllOfficeZones(after) == AllOfficeZones(before) + AllOfficeZones(after);
    assert AllParkingZones(before) + [] + AllParkingZones(after) == AllParkingZones(before) + AllParkingZones(after);
  }

  /** Office zones of two different offices that share a key break the key
      of the `OfficeZones` table. */
  lemma OfficeZoneKeyShared(offices: seq<Office>, a: nat, b: nat, za: Zone, zb: Zone)
    requires a < b < |offices|
    requires za in offices[a].officeZones && zb in offices[b].officeZones && za.id == zb.id
    ensures !ZoneKeysUnique(offices)
  {
    var front, back := offices[..b], offices[b..];
    assert offices == front + back;
    AllOfficeZonesAppend(front, back);
    assert offices[a] == front[a] && offices[b] == back[0];
    OfficeZoneTable(front);
    OfficeZoneTable(back);
    assert za in AllOfficeZones(front) && zb in AllOfficeZones(back);
    DistinctZoneIdsConcat(AllOfficeZones(front), AllOfficeZones(back));
  }

  /** Overwriting an office in place while zones leave the other offices,
      when the zone tables keep unique keys, keeps the keys and foreign keys. */
  lemma InvariantAfterUpdate(cities: seq<City>, offices: seq<Office>, reservations: seq<Reservation>, i: nat, office: Office,
                             officeIds: set<Guid>, parkingIds: set<Guid>)
    requires StoreInvariant(cities, offices, reservations)
    requires i < |offices| && office.id == offices[i].id
    requires CityIndexById(cities, office.cityId).Some?
    requires ZoneKeysUnique(Released(offices, officeIds, parkingIds)[i := office])
    ensures StoreInvariant(cities, Released(offices, officeIds, parkingIds)[i := office], reservations)
  {
    var updated := Released(offices, officeIds, parkingIds)[i := office];
    forall a, b | 0 <= a < b < |updated| ensures updated[a].id != updated[b].id {
      assert updated[a].id == offices[a].id && updated[b].id == offices[b].id;
    }
    forall o | o in updated ensures CityIndexById(cities, o.cityId).Some? {
      var k :| 0 <= k < |updated| && updated[k] == o;
      if k != i { assert offices[k] in offices; }
    }
  }

  /** Adding an office with a fresh key, when the zone tables keep unique
      keys, keeps the keys and foreign keys. */
  lemma InvariantAfterAppend(cities: seq<City>, offices: seq<Office>, reservations: seq<Reservation>, office: Office)
    requires StoreInvariant(cities, offices, reservations)
    requires OfficeIndexById(offices, office.id).None?
    requires CityIndexById(cities, office.cityId).Some?
    requires ZoneKeysUnique(offices + [office])
    ensures StoreInvariant(cities, offices + [office], reservations)
  {
  }

  /** Overwriting a reservation in place under its own key keeps the keys. */
  lemma InvariantAfterReservationUpdate(cities: seq<City>, offices: seq<Office>, reservations: seq<Reservation>,
                                        i: nat, reservation: Reservation)
    requires StoreInvariant(cities, offices, reservations)
    requires i < |reservations| && reservation.id == reservations[i].id
    ensures StoreInvariant(cities, offices, reservations[i := reservation])
  {
    var updated := reservations[i := reservation];
    forall a, b | 0 <= a < b < |updated| ensures updated[a].id != updated[b].id {
      assert updated[a].id == reservations[a].id && updated[b].id == reservations[b].id;
    }
  }

  /** Adding a reservation under a fresh key keeps the keys. */
  lemma InvariantAfterReservationAppend(cities: seq<City>, offices: seq<Office>, reservations: seq<Reservation>,
                                        reservation: Reservation)
    requires StoreInvariant(cities, offices, reservations)
    requires ReservationIndexById(reservations, reservation.id).None?
    ensures StoreInvariant(cities, offices, reservations + [reservation])
  {
  }

  /** Removing an office, and its zones with it, keeps the keys and foreign keys. */
  lemma InvariantAfterOfficeRemoval(cities: seq<City>, offices: seq<Office>, reservations: seq<Reservation>, i: nat)
    requires StoreInvariant(cities, offices, reservations)
    requires i < |offices|
    ensures StoreInvariant(cities, RemoveAt(offices, i), reservations)
  {
    var rest := RemoveAt(offices, i);
    ZoneKeysAfterRemoval(offices, i);
    forall a, b | 0 <= a < b < |rest| ensures rest[a].id != rest[b].id {
      var a' := if a < i then a else a + 1;
      var b' := if b < i then b else b + 1;
      assert rest[a] == offices[a'] && rest[b] == offices[b'];
    }
    forall o | o in rest ensures CityIndexById(cities, o.cityId).Some? {
      var k :| 0 <= k < |rest| && rest[k] == o;
      assert offices[if k < i then k else k + 1] in offices;
    }
  }

  /** Removing a reservation keeps the keys. */
  lemma InvariantAfterReservationRemoval(cities: seq<City>, offices: seq<Office>, reservations: seq<Reservation>, i: nat)
    requires StoreInvariant(cities, offices, reservations)
    requires i < |reservations|
    ensures StoreInvariant(cities, offices, RemoveAt(reservations, i))
  {
    var rest := RemoveAt(reservations, i);
    forall a, b | 0 <= a < b < |rest| ensures rest[a].id != rest[b].id {
      var a' := if a < i then a else a + 1;
      var b' := if b < i then b else b + 1;
      assert rest[a] == reservations[a'] && rest[b] == reservations[b'];
    }
  }

  /** With distinct keys, removing the element at the position of key `id`
      removes exactly the element with that key and keeps the rest. */
  lemma RemovedExactlyOne<T>(s: seq<T>, key: T -> Guid, i: nat)
    requires i < |s|
    requires forall a, b | 0 <= a < b < |s| :: key(s[a]) != key(s[b])
    ensures forall x :: x in RemoveAt(s, i) <==> x in s && key(x) != key(s[i])
  {
    var rest := RemoveAt(s, i);
    forall x ensures x in rest <==> x in s && key(x) != key(s[i]) {
      if x in rest {
        var k :| 0 <= k < |rest| && rest[k] == x;
        var k' := if k < i then k else k + 1;
        assert s[k'] == x && k' != i;
        assert !(k' < i && key(s[k']) == key(s[i])) && !(i < k' && key(s[i]) == key(s[k']));
      }
      if x in s && key(x) != key(s[i]) {
        var k :| 0 <= k < |s| && s[k] == x;
        assert k != i;
        assert rest[if k < i then k else k - 1] == x;
      }
    }
  }

  class Database {
    var cities: seq<City>
    var offices: seq<Office>
    var reservations: seq<Reservation>

    ghost predicate Valid()
      reads this
    {
      StoreInvariant(cities, offices, reservations)
    }

    constructor (cities: seq<City>, offices: seq<Office>, reservations: seq<Reservation>)
      requires StoreInvariant(cities, offices, reservations)
      ensures Valid()
      ensures this.cities == cities && this.offices == offices && this.reservations == reservations
    {
      this.cities := cities;
      this.offices := offices;
      this.reservations := reservations;
    }
  }
}
