/**
 * The catalog records shared by the booking wizard, the admin manager and the
 * bookings table: tour types and locations, in the normalised shape the
 * components work on, and the ids of the seed catalog.
 */
module Catalog {
  import opened Ecma
  import opened Pricing

  datatype TourType = TourType(id: string, labelTh: string, labelEn: string, descriptionTh: string, descriptionEn: string)

  /** A location after normalisation: every list is present, and
      `pricePerPerson` holds a key only where the stored value is a number. */
  datatype Location = Location(
    id: string,
    nameTh: string, nameEn: string,
    areaTh: string, areaEn: string,
    imagePath: string,
    highlights: seq<string>,
    descriptionTh: string, descriptionEn: string,
    tourTypeIds: seq<string>,
    availableDurations: seq<Duration>,
    pricePerPerson: map<Duration, Number>)

  /** The ids of `TOUR_TYPES`, in order. */
  const SeedTourTypeIds: seq<string> := ["islands", "heritage", "adventure"]

  /** The ids of `LOCATIONS`, in order. */
  const SeedLocationIds: seq<string> := ["phuket-cove", "chiang-mai", "ayutthaya", "krabi"]

  /** `list.find(item => item.id === id) !== undefined`. */
  predicate HasTourType(types: seq<string>, id: string) {
    exists i | 0 <= i < |types| :: types[i] == id
  }

  predicate HasLocation(locations: seq<Location>, id: string) {
    exists i | 0 <= i < |locations| :: locations[i].id == id
  }

  /** `locations.find(l => l.id === id)`: the first location with that id. */
  function FindLocation(locations: seq<Location>, id: string): (r: Option<Location>)
    ensures r.Some? <==> HasLocation(locations, id)
    ensures r.Some? ==> r.value.id == id && r.value in locations
    ensures r.Some? ==> exists k | 0 <= k < |locations| ::
      locations[k] == r.value && forall j | 0 <= j < k :: locations[j].id != id
  {
    if locations == [] then None
    else if locations[0].id == id then Some(locations[0])
    else
      var rest := FindLocation(locations[1..], id);
      assert HasLocation(locations, id) ==> HasLocation(locations[1..], id) by {
        if HasLocation(locations, id) {
          var i :| 0 <= i < |locations| && locations[i].id == id;
          assert locations[1..][i - 1].id == id;
        }
      }
      assert rest.Some? ==> exists k | 0 <= k < |locations| ::
        locations[k] == rest.value && forall j | 0 <= j < k :: locations[j].id != id
      by {
        if rest.Some? {
          var k :| 0 <= k < |locations[1..]| && locations[1..][k] == rest.value
            && forall j | 0 <= j < k :: locations[1..][j].id != id;
          assert locations[k + 1] == rest.value;
          assert forall j | 0 <= j < k + 1 :: locations[j].id != id by {
            forall j | 0 < j < k + 1 ensures locations[j].id != id {
              assert locations[j] == locations[1..][j - 1];
            }
          }
        }
      }
      rest
  }
}
