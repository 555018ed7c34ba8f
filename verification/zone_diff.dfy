/** The three-way diff, keyed by name, that an office edit applies to its
    stored office zones and, independently, to its parking zones: stored zones
    the request no longer names are deleted, zones named on both sides keep
    their id and name and take the requested capacity, and requested zones
    with no stored namesake are appended in request order. */
module ZoneDiff {
  import opened Wrappers
  import opened Entities
  import opened OfficeModels

  function Names(zs: seq<Zone>): set<string> {
    set z | z in zs :: z.name
  }

  function RequestedNames(ms: seq<ZoneModel>): set<string> {
    set m | m in ms :: m.name
  }

  /** The first requested zone with that name, if any. */
  function FirstNamed(requested: seq<ZoneModel>, name: string): (r: Option<ZoneModel>)
    ensures r.Some? <==> name in RequestedNames(requested)
    ensures r.Some? ==> r.value in requested && r.value.name == name
    ensures r.Some? ==> exists i | 0 <= i < |requested| ::
      requested[i] == r.value && forall j | 0 <= j < i :: requested[j].name != name
  {
    match FirstIndex(requested, (m: ZoneModel) => m.name == name)
    case None => None
    case Some(i) => Some(requested[i])
  }

  /** The stored zones whose name no requested zone uses: the zones to delete. */
  function Obsolete(stored: seq<Zone>, requested: seq<ZoneModel>): (r: seq<Zone>)
    ensures forall z :: z in r <==> z in stored && z.name !in RequestedNames(requested)
  {
    if stored == [] then []
    else
      var last := stored[|stored| - 1];
      Obsolete(stored[..|stored| - 1], requested) + (if last.name !in RequestedNames(requested) then [last] else [])
  }

  /** The stored zones, in stored order, whose name the request still uses. */
  function Surviving(stored: seq<Zone>, requested: seq<ZoneModel>): (r: seq<Zone>)
    ensures |r| <= |stored|
  {
    if stored == [] then []
    else
      var last := stored[|stored| - 1];
      Surviving(stored[..|stored| - 1], requested) + (if last.name in RequestedNames(requested) then [last] else [])
  }

  /** The zones left after removal are exactly the stored zones whose name is requested. */
  lemma {:induction false} SurvivingMembers(stored: seq<Zone>, requested: seq<ZoneModel>)
    ensures forall z :: z in Surviving(stored, requested) <==> z in stored && z.name in RequestedNames(requested)
  {
    if stored != [] {
      var init := stored[..|stored| - 1];
      SurvivingMembers(init, requested);
      assert stored == init + [stored[|stored| - 1]];
    }
  }

  /** A surviving zone with the capacity of the first requested zone of its name. */
  function Updated(z: Zone, requested: seq<ZoneModel>): (y: Zone)
    requires z.name in RequestedNames(requested)
    ensures y.id == z.id && y.name == z.name
    ensures exists m | m in requested :: m.name == z.name && y.capacity == m.capacity
  {
    z.(capacity := FirstNamed(requested, z.name).value.capacity)
  }

  /** The surviving zones after the capacity update. */
  function Kept(stored: seq<Zone>, requested: seq<ZoneModel>): (r: seq<Zone>)
    ensures var s := Surviving(stored, requested);
      |r| == |s| && forall k | 0 <= k < |s| :: r[k].id == s[k].id && r[k].name == s[k].name
  {
    SurvivingMembers(stored, requested);
    var s := Surviving(stored, requested);
    assert forall k | 0 <= k < |s| :: s[k] in s;
    seq(|s|, k requires 0 <= k < |s| => Updated(s[k], requested))
  }

  /** The requested zones, in request order, that no stored zone names: the
      zones to create, under their requested id or generated key `keys[k]`. */
  function Created(stored: seq<Zone>, requested: seq<ZoneModel>, keys: seq<Guid>): (r: seq<Zone>)
    requires |keys| == |requested|
    ensures |r| <= |requested|
  {
    if requested == [] then []
    else
      var n := |requested| - 1;
      Created(stored, requested[..n], keys[..n]) + (if requested[n].name !in Names(stored) then [NewZone(requested[n], keys[n])] else [])
  }

  /** The zones to create are exactly the new zones built from the requested
      zones whose name no stored zone uses. */
  lemma {:induction false} CreatedMembers(stored: seq<Zone>, requested: seq<ZoneModel>, keys: seq<Guid>)
    requires |keys| == |requested|
    ensures var r := Created(stored, requested, keys);
      && (forall z | z in r :: exists k | 0 <= k < |requested| ::
            requested[k].name !in Names(stored) && z == NewZone(requested[k], keys[k]))
      && (forall k | 0 <= k < |requested| && requested[k].name !in Names(stored) ::
            NewZone(requested[k], keys[k]) in r)
  {
    if requested != [] {
      var n := |requested| - 1;
      var init, kinit := requested[..n], keys[..n];
      CreatedMembers(stored, init, kinit);
      var r := Created(stored, requested, keys);
      forall z | z in r ensures exists k | 0 <= k < |requested| ::
        requested[k].name !in Names(stored) && z == NewZone(requested[k], keys[k])
      {
        if z in Created(stored, init, kinit) {
          var k :| 0 <= k < |init| && init[k].name !in Names(stored) && z == NewZone(init[k], kinit[k]);
          assert requested[k] == init[k] && keys[k] == kinit[k];
        } else {
          assert requested[n].name !in Names(stored) && z == NewZone(requested[n], keys[n]);
        }
      }
      forall k | 0 <= k < |requested| && requested[k].name !in Names(stored)
        ensures NewZone(requested[k], keys[k]) in r
      {
        if k < n {
          assert requested[k] == init[k] && keys[k] == kinit[k];
        }
      }
    }
  }

  /** The office's zones after the diff: exactly the requested names. */
  function Reconciled(stored: seq<Zone>, requested: seq<ZoneModel>, keys: seq<Guid>): (r: seq<Zone>)
    requires |keys| == |requested|
    ensures Names(r) == RequestedNames(requested)
  {
    KeptNames(stored, requested);
    CreatedNames(stored, requested, keys);
    assert Names(Kept(stored, requested) + Created(stored, requested, keys))
      == Names(Kept(stored, requested)) + Names(Created(stored, requested, keys));
    Kept(stored, requested) + Created(stored, requested, keys)
  }

  lemma SameIdSameZone(zones: seq<Zone>, x: Zone, y: Zone)
    requires DistinctZoneIds(zones)
    requires x in zones && y in zones && x.id == y.id
    ensures x == y
  {
    var i :| 0 <= i < |zones| && zones[i] == x;
    var j :| 0 <= j < |zones| && zones[j] == y;
    assert i == j;
  }

  /** The removal test (is `x` the first zone to delete with `x`'s id?)
      picks out exactly the zones whose name the request no longer uses,
      because zone ids are primary keys. */
  lemma RemovalPredicate(stored: seq<Zone>, requested: seq<ZoneModel>, x: Zone)
    requires DistinctZoneIds(stored) && x in stored
    ensures ZoneById(Obsolete(stored, requested), x.id) == Some(x) <==> x.name !in RequestedNames(requested)
  {
    var toDelete := Obsolete(stored, requested);
    if x.name !in RequestedNames(requested) {
      assert x in toDelete;
      var y := ZoneById(toDelete, x.id).value;
      SameIdSameZone(stored, x, y);
    }
  }

  /** Renaming nothing, the update keeps the surviving names. */
  lemma KeptNames(stored: seq<Zone>, requested: seq<ZoneModel>)
    ensures Names(Kept(stored, requested)) == Names(stored) * RequestedNames(requested)
  {
    var s := Surviving(stored, requested);
    var kept := Kept(stored, requested);
    SurvivingMembers(stored, requested);
    forall n | n in Names(stored) * RequestedNames(requested)
      ensures n in Names(kept)
    {
      var z :| z in stored && z.name == n;
      assert z in s;
      var k :| 0 <= k < |s| && s[k] == z;
      assert kept[k].name == n;
    }
    forall n | n in Names(kept)
      ensures n in Names(stored) * RequestedNames(requested)
    {
      var k :| 0 <= k < |kept| && kept[k].name == n;
      assert s[k] in s;
    }
  }

  lemma CreatedNames(stored: seq<Zone>, requested: seq<ZoneModel>, keys: seq<Guid>)
    requires |keys| == |requested|
    ensures Names(Created(stored, requested, keys)) == RequestedNames(requested) - Names(stored)
  {
    var c := Created(stored, requested, keys);
    CreatedMembers(stored, requested, keys);
    forall n | n in RequestedNames(requested) - Names(stored)
      ensures n in Names(c)
    {
      var m :| m in requested && m.name == n;
      var k :| 0 <= k < |requested| && requested[k] == m;
      assert NewZone(requested[k], keys[k]) in c;
    }
    forall n | n in Names(c)
      ensures n in RequestedNames(requested) - Names(stored)
    {
      var z :| z in c && z.name == n;
      assert exists k | 0 <= k < |requested| :: requested[k].name !in Names(stored) && z == NewZone(requested[k], keys[k]);
      var k :| 0 <= k < |requested| && requested[k].name !in Names(stored) && z == NewZone(requested[k], keys[k]);
      assert requested[k] in requested;
    }
  }

  /** The kept zones come in stored order: the survivors of a concatenation
      are the survivors of each part, one after the other. */
  lemma {:induction false} SurvivingInOrder(a: seq<Zone>, b: seq<Zone>, requested: seq<ZoneModel>)
    ensures Surviving(a + b, requested) == Surviving(a, requested) + Surviving(b, requested)
  {
    if b == [] {
      assert a + b == a;
    } else {
      var ab, init, last := a + b, b[..|b| - 1], b[|b| - 1];
      var tail := if last.name in RequestedNames(requested) then [last] else [];
      assert ab[..|ab| - 1] == a + init && ab[|ab| - 1] == last;
      assert Surviving(ab, requested) == Surviving(a + init, requested) + tail;
      assert Surviving(b, requested) == Surviving(init, requested) + tail;
      SurvivingInOrder(a, init, requested);
      assert Surviving(ab, requested) == Surviving(a, requested) + Surviving(init, requested) + tail;
    }
  }

  /** A single stored zone survives exactly when its name is requested. */
  lemma SurvivingOne(z: Zone, requested: seq<ZoneModel>)
    ensures Surviving([z], requested) == if z.name in RequestedNames(requested) then [z] else []
  {
    assert [z][..0] == [];
  }

  /** The new zones come in request order: the zones created for a
      concatenation are those of each part, one after the other. */
  lemma {:induction false} CreatedInOrder(stored: seq<Zone>, a: seq<ZoneModel>, b: seq<ZoneModel>, ka: seq<Guid>, kb: seq<Guid>)
    requires |ka| == |a| && |kb| == |b|
    ensures Created(stored, a + b, ka + kb) == Created(stored, a, ka) + Created(stored, b, kb)
  {
    if b == [] {
      assert a + b == a && ka + kb == ka;
    } else {
      var n := |b| - 1;
      var ab, kab := a + b, ka + kb;
      assert ab[..|ab| - 1] == a + b[..n] && ab[|ab| - 1] == b[n];
      assert kab[..|kab| - 1] == ka + kb[..n] && kab[|kab| - 1] == kb[n];
      var tail := if b[n].name !in Names(stored) then [NewZone(b[n], kb[n])] else [];
      assert Created(stored, ab, kab) == Created(stored, a + b[..n], ka + kb[..n]) + tail;
      assert Created(stored, b, kb) == Created(stored, b[..n], kb[..n]) + tail;
      CreatedInOrder(stored, a, b[..n], ka, kb[..n]);
    }
  }

  /** A single requested zone is created, under its id or generated key,
      exactly when no stored zone has its name. */
  lemma CreatedOne(stored: seq<Zone>, m: ZoneModel, key: Guid)
    ensures Created(stored, [m], [key]) == if m.name !in Names(stored) then [NewZone(m, key)] else []
  {
    assert [m][..0] == [] && [key][..0] == [];
  }

  /** A requested zone no stored zone names is in the diffed zones, under
      its requested id or its generated key. */
  lemma NewZoneReconciled(stored: seq<Zone>, requested: seq<ZoneModel>, keys: seq<Guid>, k: nat)
    requires |keys| == |requested| && k < |requested| && requested[k].name !in Names(stored)
    ensures NewZone(requested[k], keys[k]) in Reconciled(stored, requested, keys)
  {
    CreatedMembers(stored, requested, keys);
  }

  /** A stored zone the request no longer names is gone. */
  lemma ObsoleteZoneRemoved(stored: seq<Zone>, requested: seq<ZoneModel>, keys: seq<Guid>, z: Zone)
    requires |keys| == |requested|
    requires z in stored && z.name !in RequestedNames(requested)
    ensures forall y | y in Reconciled(stored, requested, keys) :: y.name != z.name
  {
  }

  /** A stored zone the request still names keeps its id and name and takes
      the capacity of the first requested zone of that name. */
  lemma KeptZoneKeepsIdentity(stored: seq<Zone>, requested: seq<ZoneModel>, keys: seq<Guid>, z: Zone)
    requires |keys| == |requested|
    requires z in stored && z.name in RequestedNames(requested)
    ensures exists y | y in Reconciled(stored, requested, keys) ::
      y.id == z.id && y.name == z.name && y.capacity == FirstNamed(requested, z.name).value.capacity
  {
    var s := Surviving(stored, requested);
    SurvivingMembers(stored, requested);
    assert z in s;
    var k :| 0 <= k < |s| && s[k] == z;
    var y := Reconciled(stored, requested, keys)[k];
    assert y == Updated(z, requested);
  }

  /** The result is the surviving zones, in stored order with ids and names
      unchanged, followed by the zones to create. */
  lemma KeptPrefix(stored: seq<Zone>, requested: seq<ZoneModel>, keys: seq<Guid>)
    requires |keys| == |requested|
    ensures var s := Surviving(stored, requested); var r := Reconciled(stored, requested, keys);
      && |s| <= |r|
      && (forall k | 0 <= k < |s| :: r[k].id == s[k].id && r[k].name == s[k].name)
      && r[|s|..] == Created(stored, requested, keys)
  {
    var r := Reconciled(stored, requested, keys);
    assert r[|Kept(stored, requested)|..] == Created(stored, requested, keys);
  }

  /** Creating an office: every requested zone is added, in request order. */
  lemma {:induction false} ReconcileFromEmpty(requested: seq<ZoneModel>, keys: seq<Guid>)
    requires |keys| == |requested|
    ensures Reconciled([], requested, keys) == NewZones(requested, keys)
  {
    if requested != [] {
      var n := |requested| - 1;
      ReconcileFromEmpty(requested[..n], keys[..n]);
      assert Kept([], requested) == [] && Kept([], requested[..n]) == [];
    }
  }

  /** Reconciling again with the same request changes no id or name and needs no new key. */
  lemma ReconcileStable(stored: seq<Zone>, requested: seq<ZoneModel>, keys: seq<Guid>, keys': seq<Guid>)
    requires |keys| == |requested| && |keys'| == |requested|
    ensures var once := Reconciled(stored, requested, keys); var twice := Reconciled(once, requested, keys');
      |twice| == |once| &&
      (forall k | 0 <= k < |once| :: twice[k].id == once[k].id && twice[k].name == once[k].name)
  {
    var once := Reconciled(stored, requested, keys);
    SurvivingAll(once, requested);
    CreatedNone(once, requested, keys');
  }

  /** The requested zones have pairwise distinct names. */
  predicate DistinctNames(requested: seq<ZoneModel>) {
    forall i, j | 0 <= i < j < |requested| :: requested[i].name != requested[j].name
  }

  /** With pairwise distinct requested names, every reconciled zone already
      has the capacity of the requested zone of its name. */
  lemma ReconciledCapacity(stored: seq<Zone>, requested: seq<ZoneModel>, keys: seq<Guid>, k: nat)
    requires |keys| == |requested|
    requires DistinctNames(requested)
    requires k < |Reconciled(stored, requested, keys)|
    ensures var z := Reconciled(stored, requested, keys)[k];
      z.name in RequestedNames(requested) && Updated(z, requested) == z
  {
    var kept := Kept(stored, requested);
    var z := Reconciled(stored, requested, keys)[k];
    if k < |kept| {
      assert Surviving(stored, requested)[k] in Surviving(stored, requested);
    } else {
      assert z in Created(stored, requested, keys);
      CreatedMembers(stored, requested, keys);
      var i :| 0 <= i < |requested| && requested[i].name !in Names(stored) && z == NewZone(requested[i], keys[i]);
      var m := requested[i];
      var first := FirstNamed(requested, m.name).value;
      var f :| 0 <= f < |requested| && requested[f] == first && forall j | 0 <= j < f :: requested[j].name != m.name;
      assert f == i;
    }
  }

  /** With pairwise distinct requested names, reconciling again with the same
      request changes nothing at all: edits are idempotent. */
  lemma ReconcileIdempotent(stored: seq<Zone>, requested: seq<ZoneModel>, keys: seq<Guid>, keys': seq<Guid>)
    requires |keys| == |requested| && |keys'| == |requested|
    requires DistinctNames(requested)
    ensures Reconciled(Reconciled(stored, requested, keys), requested, keys') == Reconciled(stored, requested, keys)
  {
    var once := Reconciled(stored, requested, keys);
    SurvivingAll(once, requested);
    CreatedNone(once, requested, keys');
    forall k | 0 <= k < |once|
      ensures Kept(once, requested)[k] == once[k]
    {
      ReconciledCapacity(stored, requested, keys, k);
    }
    assert Kept(once, requested) == once;
  }

  lemma {:induction false} SurvivingAll(zones: seq<Zone>, requested: seq<ZoneModel>)
    requires Names(zones) <= RequestedNames(requested)
    ensures Surviving(zones, requested) == zones
  {
    if zones != [] {
      var init, last := zones[..|zones| - 1], zones[|zones| - 1];
      assert zones == init + [last];
      assert Names(init) <= Names(zones);
      SurvivingAll(init, requested);
      assert last.name in Names(zones);
      assert Surviving(zones, requested) == Surviving(init, requested) + [last];
    }
  }

  lemma {:induction false} CreatedNone(zones: seq<Zone>, requested: seq<ZoneModel>, keys: seq<Guid>)
    requires |keys| == |requested|
    requires RequestedNames(requested) <= Names(zones)
    ensures Created(zones, requested, keys) == []
  {
    if requested != [] {
      var n := |requested| - 1;
      assert RequestedNames(requested[..n]) <= RequestedNames(requested);
      CreatedNone(zones, requested[..n], keys[..n]);
      assert requested[n].name in RequestedNames(requested);
    }
  }

  /** Keys the database generates for requested zones, one per position:
      non-empty, pairwise distinct, and unused by every zone of `table`. */
  predicate FreshKeys(keys: seq<Guid>, table: seq<Zone>, requested: seq<ZoneModel>) {
    && |keys| == |requested|
    && (forall i, j | 0 <= i < j < |keys| :: keys[i] != keys[j])
    && (forall k | 0 <= k < |keys| :: keys[k] != EmptyGuid && keys[k] !in ZoneIds(table))
  }

  /** Removing zones keeps the remaining keys distinct. */
  lemma {:induction false} SurvivingKeys(stored: seq<Zone>, requested: seq<ZoneModel>)
    requires DistinctZoneIds(stored)
    ensures DistinctZoneIds(Surviving(stored, requested))
  {
    if stored != [] {
      var init, last := stored[..|stored| - 1], stored[|stored| - 1];
      assert stored == init + [last];
      DistinctZoneIdsConcat(init, [last]);
      SurvivingKeys(init, requested);
      SurvivingMembers(init, requested);
      var tail := if last.name in RequestedNames(requested) then [last] else [];
      DistinctZoneIdsConcat(Surviving(init, requested), tail);
    }
  }

  /** The requested ids, other than `Guid.Empty`, of the zones to create. */
  function KeyedIds(stored: seq<Zone>, requested: seq<ZoneModel>): set<Guid> {
    set m | m in requested && m.name !in Names(stored) && m.id != EmptyGuid :: m.id
  }

  /** The zones to create carry requested ids that are keys of `table` the
      office's own zones do not use, and no two of them share one. */
  predicate KeyedFromTable(stored: seq<Zone>, requested: seq<ZoneModel>, table: seq<Zone>) {
    && (forall m | m in requested && m.name !in Names(stored) && m.id != EmptyGuid ::
          m.id in ZoneIds(table) && m.id !in ZoneIds(stored))
    && (forall a, b | 0 <= a < b < |requested| && requested[a].name !in Names(stored) &&
          requested[b].name !in Names(stored) && requested[a].id != EmptyGuid ::
          requested[a].id != requested[b].id)
  }

  lemma KeyedIdsInTable(stored: seq<Zone>, requested: seq<ZoneModel>, table: seq<Zone>)
    requires KeyedFromTable(stored, requested, table)
    ensures KeyedIds(stored, requested) <= ZoneIds(table)
  {
  }

  /** Zones to create that all come without an id carry no requested id. */
  lemma UnkeyedFromTable(stored: seq<Zone>, requested: seq<ZoneModel>, table: seq<Zone>)
    requires forall m | m in requested && m.name !in Names(stored) :: m.id == EmptyGuid
    ensures KeyedFromTable(stored, requested, table)
  {
    assert forall a | 0 <= a < |requested| :: requested[a] in requested;
  }

  /** Each created zone carries a generated key or its requested id. */
  lemma CreatedKeysIn(stored: seq<Zone>, requested: seq<ZoneModel>, keys: seq<Guid>)
    requires |keys| == |requested|
    ensures forall z | z in Created(stored, requested, keys) :: z.id in keys || z.id in KeyedIds(stored, requested)
  {
    CreatedMembers(stored, requested, keys);
    forall z | z in Created(stored, requested, keys) ensures z.id in keys || z.id in KeyedIds(stored, requested) {
      var k :| 0 <= k < |requested| && requested[k].name !in Names(stored) && z == NewZone(requested[k], keys[k]);
      assert requested[k] in requested;
    }
  }

  /** With fresh generated keys, and requested ids each taken from `table`
      once, no two created zones share a key. */
  lemma {:induction false} CreatedKeys(stored: seq<Zone>, requested: seq<ZoneModel>, keys: seq<Guid>, table: seq<Zone>)
    requires FreshKeys(keys, table, requested)
    requires KeyedFromTable(stored, requested, table)
    ensures DistinctZoneIds(Created(stored, requested, keys))
  {
    if requested != [] {
      var n := |requested| - 1;
      var init, kinit := requested[..n], keys[..n];
      assert forall m | m in init :: m in requested;
      CreatedKeys(stored, init, kinit, table);
      CreatedKeysIn(stored, init, kinit);
      var last := requested[n];
      var tail := if last.name !in Names(stored) then [NewZone(last, keys[n])] else [];
      forall x, y | x in Created(stored, init, kinit) && y in tail ensures x.id != y.id {
        assert last in requested;
        if x.id in kinit {
          var a :| 0 <= a < n && kinit[a] == x.id;
          assert keys[a] == x.id;
        } else {
          var m :| m in init && m.name !in Names(stored) && m.id != EmptyGuid && m.id == x.id;
          var a :| 0 <= a < n && init[a] == m;
          assert requested[a] == m && m in requested;
        }
      }
      DistinctZoneIdsConcat(Created(stored, init, kinit), tail);
    }
  }

  /** With fresh generated keys, and requested ids each taken once from
      `table` but not from the office's own zones, the diffed zones have
      pairwise distinct keys: each one the office had, a requested id, or a
      key no zone of `table` uses. */
  lemma ReconciledKeys(stored: seq<Zone>, requested: seq<ZoneModel>, keys: seq<Guid>, table: seq<Zone>)
    requires DistinctZoneIds(stored) && ZoneIds(stored) <= ZoneIds(table)
    requires FreshKeys(keys, table, requested)
    requires KeyedFromTable(stored, requested, table)
    ensures DistinctZoneIds(Reconciled(stored, requested, keys))
    ensures forall z | z in Reconciled(stored, requested, keys) ::
      z.id in ZoneIds(stored) || z.id in KeyedIds(stored, requested) || z.id !in ZoneIds(table)
  {
    var s, kept, created := Surviving(stored, requested), Kept(stored, requested), Created(stored, requested, keys);
    SurvivingKeys(stored, requested);
    SurvivingMembers(stored, requested);
    CreatedKeys(stored, requested, keys, table);
    CreatedKeysIn(stored, requested, keys);
    forall i, j | 0 <= i < j < |kept| ensures kept[i].id != kept[j].id {
      assert kept[i].id == s[i].id && kept[j].id == s[j].id;
    }
    forall z | z in kept ensures z.id in ZoneIds(stored) {
      var k :| 0 <= k < |kept| && kept[k] == z;
      assert s[k] in s;
    }
    forall z | z in created ensures z.id !in ZoneIds(stored) {
      if z.id in keys {
        var k :| 0 <= k < |keys| && keys[k] == z.id;
      }
    }
    DistinctZoneIdsConcat(kept, created);
  }

  /** Drops, one by one, every stored zone that is the first zone to delete
      with its id, where the zones to delete are `Obsolete(stored, requested)`. */
  method RemoveObsolete(stored: seq<Zone>, requested: seq<ZoneModel>) returns (zones: seq<Zone>)
    requires DistinctZoneIds(stored)
    ensures zones == Surviving(stored, requested)
  {
    var toDelete := Obsolete(stored, requested);
    zones := [];
    for i := 0 to |stored|
      invariant zones == Surviving(stored[..i], requested)
    {
      var x := stored[i];
      RemovalPredicate(stored, requested, x);
      if ZoneById(toDelete, x.id) != Some(x) {
        zones := zones + [x];
      }
      assert stored[..i + 1][..i] == stored[..i];
    }
    assert stored[..|stored|] == stored;
  }

  /** The loop over the surviving zones: each zone takes the capacity of
      the first requested zone of its name; that lookup always succeeds. */
  method CopyCapacities(survivors: seq<Zone>, requested: seq<ZoneModel>) returns (zones: seq<Zone>)
    requires forall z | z in survivors :: z.name in RequestedNames(requested)
    ensures |zones| == |survivors|
    ensures forall k | 0 <= k < |zones| :: zones[k] == Updated(survivors[k], requested)
  {
    zones := survivors;
    for j := 0 to |zones|
      invariant |zones| == |survivors|
      invariant forall k | 0 <= k < j :: zones[k] == Updated(survivors[k], requested)
      invariant forall k | j <= k < |zones| :: zones[k] == survivors[k]
    {
      assert survivors[j] in survivors;
      var toEdit := FirstNamed(requested, zones[j].name);
      zones := zones[j := zones[j].(capacity := toEdit.value.capacity)];
    }
  }

  /** Appends a new zone for each requested zone whose name no current zone
      uses, checked against the kept zones, whose names are the stored names
      the request still uses; the new zone takes its requested id or its
      generated key. */
  method AppendCreated(kept: seq<Zone>, stored: seq<Zone>, requested: seq<ZoneModel>, keys: seq<Guid>)
    returns (zones: seq<Zone>)
    requires |keys| == |requested|
    requires Names(kept) == Names(stored) * RequestedNames(requested)
    ensures zones == kept + Created(stored, requested, keys)
  {
    var toCreate := [];
    for k := 0 to |requested|
      invariant toCreate == Created(stored, requested[..k], keys[..k])
    {
      assert requested[k].name in RequestedNames(requested);
      if requested[k].name !in Names(kept) {
        toCreate := toCreate + [NewZone(requested[k], keys[k])];
      }
      assert requested[..k + 1][..k] == requested[..k];
      assert keys[..k + 1][..k] == keys[..k];
    }
    assert requested[..|requested|] == requested && keys[..|keys|] == keys;
    zones := kept + toCreate;
  }

  /** The edit-mode diff of one zone collection, step by step as the handler does it. */
  method ReconcileZones(stored: seq<Zone>, requested: seq<ZoneModel>, keys: seq<Guid>) returns (zones: seq<Zone>)
    requires |keys| == |requested|
    requires DistinctZoneIds(stored)
    ensures zones == Reconciled(stored, requested, keys)
    ensures Names(zones) == RequestedNames(requested)
  {
    var survivors := RemoveObsolete(stored, requested);
    SurvivingMembers(stored, requested);
    var kept := CopyCapacities(survivors, requested);
    assert kept == Kept(stored, requested);
    KeptNames(stored, requested);
    zones := AppendCreated(kept, stored, requested, keys);
  }
}
