/** The view models returned to callers and `OfficeModel.ToViewModel`, the
    projection of a stored office (with its city and country) onto them. The
    same `ZoneModel` shape is what an office request sends for its zones. */
module OfficeModels {
  import opened Wrappers
  import opened Entities

  /** `OfficeZoneModel` (`Desks`) or `ParkingZoneModel` (`Spaces`). */
  datatype ZoneModel = ZoneModel(id: Guid, name: string, capacity: int)

  datatype CountryModel = CountryModel(id: Guid, name: string, symbol: string)

  datatype CityModel = CityModel(id: Guid, name: string, country: CountryModel)

  datatype OfficeModel = OfficeModel(
    id: Guid,
    city: CityModel,
    address: string,
    postCode: string,
    officeZones: seq<ZoneModel>,
    parkingZones: seq<ZoneModel>,
    officeMapUrl: Option<string>)

  function ToZoneModel(z: Zone): ZoneModel {
    ZoneModel(z.id, z.name, z.capacity)
  }

  /** The zone entity a view model describes: same id, name and capacity. */
  function ToZone(m: ZoneModel): Zone {
    Zone(m.id, m.name, m.capacity)
  }

  /** Projects stored zones onto view models, element by element. */
  function ToZoneModels(zs: seq<Zone>): (ms: seq<ZoneModel>)
    ensures |ms| == |zs|
    ensures forall k | 0 <= k < |zs| ::
      ms[k].id == zs[k].id && ms[k].name == zs[k].name && ms[k].capacity == zs[k].capacity
  {
    if zs == [] then [] else ToZoneModels(zs[..|zs| - 1]) + [ToZoneModel(zs[|zs| - 1])]
  }

  /** The inverse of the projection, element by element. */
  function ToZones(ms: seq<ZoneModel>): (zs: seq<Zone>)
    ensures |zs| == |ms|
    ensures forall k | 0 <= k < |ms| ::
      zs[k].id == ms[k].id && zs[k].name == ms[k].name && zs[k].capacity == ms[k].capacity
  {
    if ms == [] then [] else ToZones(ms[..|ms| - 1]) + [ToZone(ms[|ms| - 1])]
  }

  lemma {:induction false} ZonesRoundTrip(zs: seq<Zone>)
    ensures ToZones(ToZoneModels(zs)) == zs
  {
    if zs != [] {
      var init := zs[..|zs| - 1];
      ZonesRoundTrip(init);
      assert ToZoneModels(zs)[..|zs| - 1] == ToZoneModels(init);
    }
  }

  /** The key a new zone is stored under: the requested id, or, when the
      request leaves it at `Guid.Empty`, the key the database generates. */
  function ZoneKey(m: ZoneModel, generated: Guid): (id: Guid)
    ensures m.id != EmptyGuid ==> id == m.id
    ensures m.id == EmptyGuid ==> id == generated
  {
    if m.id == EmptyGuid then generated else m.id
  }

  /** A new zone entity built from a requested zone, once saved. */
  function NewZone(m: ZoneModel, generated: Guid): Zone {
    Zone(ZoneKey(m, generated), m.name, m.capacity)
  }

  /** New zone entities built from requested zones, in request order;
      `keys[k]` is the key the database generates for the `k`-th one. */
  function NewZones(ms: seq<ZoneModel>, keys: seq<Guid>): (zs: seq<Zone>)
    requires |keys| == |ms|
    ensures |zs| == |ms|
    ensures forall k | 0 <= k < |ms| ::
      zs[k].name == ms[k].name && zs[k].capacity == ms[k].capacity &&
      zs[k].id == (if ms[k].id == EmptyGuid then keys[k] else ms[k].id)
  {
    if ms == [] then [] else NewZones(ms[..|ms| - 1], keys[..|ms| - 1]) + [NewZone(ms[|ms| - 1], keys[|ms| - 1])]
  }

  function ToCityModel(city: City): (m: CityModel)
    ensures m.id == city.id && m.name == city.name
    ensures m.country == CountryModel(city.country.id, city.country.name, city.country.symbol)
  {
    CityModel(city.id, city.name, CountryModel(city.country.id, city.country.name, city.country.symbol))
  }

  /** `OfficeModel.ToViewModel(office)`, given the office's `City` navigation. */
  function ToViewModel(office: Office, city: City): (view: OfficeModel)
    requires city.id == office.cityId
    ensures view.id == office.id && view.address == office.address
    ensures view.postCode == office.postCode && view.officeMapUrl == office.officeMapUrl
    ensures view.city.id == office.cityId && view.city.name == city.name
    ensures view.city.country == CountryModel(city.country.id, city.country.name, city.country.symbol)
    ensures |view.officeZones| == |office.officeZones|
    ensures forall k | 0 <= k < |office.officeZones| :: view.officeZones[k] == ToZoneModel(office.officeZones[k])
    ensures |view.parkingZones| == |office.parkingZones|
    ensures forall k | 0 <= k < |office.parkingZones| :: view.parkingZones[k] == ToZoneModel(office.parkingZones[k])
  {
    OfficeModel(
      office.id,
      ToCityModel(city),
      office.address,
      office.postCode,
      ToZoneModels(office.officeZones),
      ToZoneModels(office.parkingZones),
      office.officeMapUrl)
  }

  /** The projection keeps every field of the office but its author: id,
      address, post code, map URL, city key and both zone lists can be read
      back from the view. */
  lemma ViewModelRoundTrip(office: Office, city: City)
    requires city.id == office.cityId
    ensures var v := ToViewModel(office, city);
      Office(v.id, v.address, v.postCode, v.officeMapUrl, v.city.id, office.authorEmail,
             ToZones(v.officeZones), ToZones(v.parkingZones)) == office
  {
    ZonesRoundTrip(office.officeZones);
    ZonesRoundTrip(office.parkingZones);
  }
}
