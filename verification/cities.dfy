/** The fixed list of location presets of the generator (app.py:23-42) and
    the uniform choice of one of them (app.py:46). Each preset carries both
    coordinates, so latitude and longitude are always drawn together. */
module Cities {

  import opened Tiff

  /** One location: degree/minute/second triples as TIFF rationals, plus a
      one-letter hemisphere reference for each axis. */
  datatype CityPreset = CityPreset(lat: seq<Rational>, latRef: string, lon: seq<Rational>, lonRef: string)

  function Whole(n: nat): Rational {
    Rational(n, 1)
  }

  /** A degree/minute/second triple of whole numbers, written n/1 as the
      table writes it. */
  function Dms(d: nat, m: nat, s: nat): seq<Rational> {
    [Whole(d), Whole(m), Whole(s)]
  }

  /** The presets in list order. */
  const Presets: seq<CityPreset> := [
    CityPreset(Dms(40, 42, 46), "N", Dms(74, 0, 21), "W"),
    CityPreset(Dms(34, 3, 8), "N", Dms(118, 14, 37), "W"),
    CityPreset(Dms(36, 45, 0), "N", Dms(3, 3, 0), "E")
  ]

  /** A GPS coordinate as the GPS IFD expects it: exactly three rationals,
      each a whole number over denominator 1 that fits an unsigned 32-bit LONG. */
  predicate IsWholeTriple(xs: seq<Rational>) {
    |xs| == 3 && forall i :: 0 <= i < |xs| ==> xs[i].den == 1 && FitsLong(xs[i])
  }

  predicate IsLatitudeRef(r: string) {
    r == "N" || r == "S"
  }

  predicate IsLongitudeRef(r: string) {
    r == "E" || r == "W"
  }

  predicate WellFormed(c: CityPreset) {
    && IsWholeTriple(c.lat)
    && IsWholeTriple(c.lon)
    && IsLatitudeRef(c.latRef)
    && IsLongitudeRef(c.lonRef)
  }

  /** The preset drawn by `random.choice(cities)`: a well-formed coordinate
      pair whose hemisphere references are single characters. */
  function Choose(ci: nat): (c: CityPreset)
    requires ci < |Presets|
    ensures c in Presets
    ensures WellFormed(c)
    ensures |c.latRef| == 1 && |c.lonRef| == 1
  {
    Presets[ci]
  }

  /** A latitude triple occurs in one preset only, and so does a longitude
      triple: a GPS section holding a preset's latitude and another's
      longitude would name two different indices here. */
  lemma CoordinatesIdentifyPreset(i: nat, j: nat)
    requires i < |Presets| && j < |Presets|
    ensures Presets[i].lat == Presets[j].lat ==> i == j
    ensures Presets[i].lon == Presets[j].lon ==> i == j
  {
  }

  /** The presets are pairwise distinct. */
  lemma PresetsDistinct(i: nat, j: nat)
    requires i < |Presets| && j < |Presets|
    requires Presets[i] == Presets[j]
    ensures i == j
  {
    CoordinatesIdentifyPreset(i, j);
  }
}
