/** How a coordinate pair becomes a unit of work: snapping, the location key and its bucket. */
module Location {
  import opened Domain
  import opened Decimal
  import opened Fnv

  const LOCATION_BUCKETS: nat := 1024

  // floor(x * 100 + 0.5), on exact reals.
  function Snap(value: real): int {
    (value * 100.0 + 0.5).Floor
  }

  /** Snapping rounds to the nearest hundredth, halves up. */
  lemma SnapIsNearest(value: real, n: int)
    ensures Snap(value) == n <==> n as real - 0.5 <= value * 100.0 < n as real + 0.5
  {}

  function Key(lat: int, lon: int): string {
    IntText(lat) + ":" + IntText(lon)
  }

  function LocationKey(latitude: real, longitude: real): string {
    Key(Snap(latitude), Snap(longitude))
  }

  function LocationBucket(latitude: real, longitude: real): (bucket: nat)
    ensures bucket < LOCATION_BUCKETS
  {
    Fnv1a(Codes(LocationKey(latitude, longitude))) % LOCATION_BUCKETS
  }

  lemma NoColon(n: int)
    ensures ':' !in IntText(n)
    ensures Ascii(IntText(n))
  {
    if n < 0 { assert IntText(n)[1..] == NatText(-n); }
  }

  // Two keys are equal only if they split at the same place.
  lemma SameSplit(a: string, b: string, c: string, d: string)
    requires ':' !in a && ':' !in c && a + ":" + b == c + ":" + d
    ensures a == c && b == d
  {
    var left, right := a + ":" + b, c + ":" + d;
    assert left[|a|] == ':' && right[|c|] == ':';
    assert !(|a| < |c|) && !(|c| < |a|);
    assert a == left[..|a|] && c == right[..|c|];
    assert b == left[|a| + 1..] && d == right[|c| + 1..];
  }

  /** The key tells snapped pairs apart: two coordinate pairs share a key exactly when both
      coordinates snap to the same hundredths. */
  lemma KeyIffSnapped(lat1: real, lon1: real, lat2: real, lon2: real)
    ensures LocationKey(lat1, lon1) == LocationKey(lat2, lon2)
            <==> Snap(lat1) == Snap(lat2) && Snap(lon1) == Snap(lon2)
  {
    if LocationKey(lat1, lon1) == LocationKey(lat2, lon2) {
      NoColon(Snap(lat1));
      NoColon(Snap(lat2));
      SameSplit(IntText(Snap(lat1)), IntText(Snap(lon1)), IntText(Snap(lat2)), IntText(Snap(lon2)));
      IntTextInjective(Snap(lat1), Snap(lat2));
      IntTextInjective(Snap(lon1), Snap(lon2));
    }
  }

  /** Latitude first, hundredths as integers: Berlin at (52.52, 13.405), and a place south and west. */
  lemma KeyTexts()
    ensures LocationKey(52.52, 13.405) == "5252:1341"
    ensures LocationKey(-0.01, 0.0) == "-1:0"
  {
    SnapIsNearest(52.52, 5252);
    SnapIsNearest(13.405, 1341);
    SnapIsNearest(-0.01, -1);
    SnapIsNearest(0.0, 0);
    assert NatText(52) == "52" && NatText(525) == "525" && NatText(5252) == "5252";
    assert NatText(13) == "13" && NatText(134) == "134" && NatText(1341) == "1341";
  }

  lemma KeyIsAscii(latitude: real, longitude: real)
    ensures Ascii(LocationKey(latitude, longitude))
  {
    NoColon(Snap(latitude));
    NoColon(Snap(longitude));
  }

  /** The bucket core-api stamps on a row. */
  method StampedBucket(latitude: real, longitude: real) returns (bucket: nat)
    ensures bucket == LocationBucket(latitude, longitude)
  {
    KeyIsAscii(latitude, longitude);
    var hash := HashLocation(LocationKey(latitude, longitude));
    bucket := hash % LOCATION_BUCKETS;
  }

  /** The bucket the migration backfills: always defined, and the one core-api would stamp. */
  method BackfilledBucket(latitude: real, longitude: real) returns (bucket: Option<nat>)
    ensures bucket == Some(LocationBucket(latitude, longitude))
  {
    KeyIsAscii(latitude, longitude);
    var hash := HashLocationSql(LocationKey(latitude, longitude));
    bucket := if hash.None? then None else Some(hash.value % 1024);
  }
}
