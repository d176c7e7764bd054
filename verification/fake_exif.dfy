/** The metadata synthesis of `generate_fake_exif` (app.py:18-67): draw a
    maker, a model of that maker and a location preset, stamp the clock once,
    and lay the values out as the three-section dictionary ("0th", "Exif",
    "GPS") that is handed to the EXIF serialiser. The draws and the clock are
    parameters, so the synthesis is a pure function of them. */
module FakeExif {

  import opened Wrappers
  import opened Tiff
  import Cameras
  import Cities
  import Timestamps
  import Sections

  /** The dictionary handed to the serialiser: its "0th", "Exif" and "GPS"
      entries, one IFD each. The three keys are the only ones it has. */
  datatype ExifDict = ExifDict(zeroth: Ifd, exif: Ifd, gps: Ifd)

  /** Everything one call depends on: the indices the three `random.choice`
      calls would pick, the reading `datetime.now()` would return, and the
      image size passed by the caller. */
  datatype Choices = Choices(brand: nat, model: nat, city: nat, clock: Timestamps.DateTime, width: int, height: int)

  /** The choices `generate_fake_exif` can make: indices within the lists they
      index, and a clock reading a `datetime` can hold. */
  predicate ValidChoices(c: Choices) {
    && Cameras.ValidPick(c.brand, c.model)
    && c.city < |Cities.Presets|
    && Timestamps.Valid(c.clock)
  }

  /** The 0th IFD carries a maker and a model that the table lists together. */
  predicate CameraConsistent(d: ExifDict) {
    && AsciiAt(d.zeroth, Make).Some?
    && AsciiAt(d.zeroth, Model).Some?
    && Cameras.Pairs(AsciiAt(d.zeroth, Make).value, AsciiAt(d.zeroth, Model).value)
  }

  /** DateTime and DateTimeOriginal hold one and the same timestamp string,
      of the "YYYY:MM:DD HH:MM:SS" shape. */
  predicate SingleTimestamp(d: ExifDict) {
    && AsciiAt(d.zeroth, DateTime).Some?
    && AsciiAt(d.exif, DateTimeOriginal) == AsciiAt(d.zeroth, DateTime)
    && Timestamps.HasStampShape(AsciiAt(d.zeroth, DateTime).value)
  }

  /** The GPS IFD holds exactly the four fields of one location preset. */
  predicate LocationFromOnePreset(d: ExifDict) {
    && d.gps.Keys == Sections.GpsTags
    && exists p :: p in Cities.Presets
         && AsciiAt(d.gps, GPSLatitudeRef) == Some(p.latRef)
         && RationalsAt(d.gps, GPSLatitude) == Some(p.lat)
         && AsciiAt(d.gps, GPSLongitudeRef) == Some(p.lonRef)
         && RationalsAt(d.gps, GPSLongitude) == Some(p.lon)
  }

  /** The GPS IFD's coordinates are whole-number triples with one-letter
      hemisphere references of the right axis. */
  predicate CoordinatesWellFormed(d: ExifDict) {
    && RationalsAt(d.gps, GPSLatitude).Some?
    && RationalsAt(d.gps, GPSLongitude).Some?
    && AsciiAt(d.gps, GPSLatitudeRef).Some?
    && AsciiAt(d.gps, GPSLongitudeRef).Some?
    && Cities.IsWholeTriple(RationalsAt(d.gps, GPSLatitude).value)
    && Cities.IsWholeTriple(RationalsAt(d.gps, GPSLongitude).value)
    && Cities.IsLatitudeRef(AsciiAt(d.gps, GPSLatitudeRef).value)
    && Cities.IsLongitudeRef(AsciiAt(d.gps, GPSLongitudeRef).value)
  }

  /** `generate_fake_exif(width, height)` up to, not including, the
      serialisation. Reading each section back yields the drawn maker and
      model, one rendering of the clock in both timestamp tags, the size
      passed in, and the drawn preset. */
  function Generate(c: Choices): (d: ExifDict)
    requires ValidChoices(c)
    ensures Sections.ReadZeroth(d.zeroth)
      == Some(Sections.ZerothFields(Cameras.ChooseMake(c.brand), Cameras.ChooseModel(c.brand, c.model), Timestamps.Format(c.clock)))
    ensures Sections.ReadExif(d.exif) == Some(Sections.ExifFields(Timestamps.Format(c.clock), c.width, c.height))
    ensures Sections.ReadGps(d.gps) == Some(Cities.Presets[c.city])
  {
    var now := Timestamps.Format(c.clock);
    var z := Sections.ZerothFields(Cameras.ChooseMake(c.brand), Cameras.ChooseModel(c.brand, c.model), now);
    var e := Sections.ExifFields(now, c.width, c.height);
    var city := Cities.Choose(c.city);
    Sections.ZerothRoundTrip(z);
    Sections.ExifRoundTrip(e);
    Sections.GpsRoundTrip(city);
    ExifDict(Sections.ZerothIfd(z), Sections.ExifIfd(e), Sections.GpsIfd(city))
  }

  /** The 0th section of a generated dictionary holds exactly Make, Model,
      Software and DateTime: the drawn maker and model, the constant label,
      and the rendering of the clock reading. */
  lemma GenerateZeroth(c: Choices)
    requires ValidChoices(c)
    ensures var z := Generate(c).zeroth;
      && z.Keys == Sections.ZerothTags
      && AsciiAt(z, Make) == Some(Cameras.ChooseMake(c.brand))
      && AsciiAt(z, Model) == Some(Cameras.ChooseModel(c.brand, c.model))
      && AsciiAt(z, Software) == Some("Adobe Lightroom")
      && AsciiAt(z, DateTime).Some?
      && Timestamps.Parse(AsciiAt(z, DateTime).value) == Some(c.clock)
  {
    var now := Timestamps.Format(c.clock);
    var f := Sections.ZerothFields(Cameras.ChooseMake(c.brand), Cameras.ChooseModel(c.brand, c.model), now);
    var z := Generate(c).zeroth;
    assert z == Sections.ZerothIfd(f);
    assert AsciiAt(z, Make) == Some(f.make);
    assert AsciiAt(z, Model) == Some(f.model);
    assert AsciiAt(z, DateTime) == Some(now);
    Timestamps.ParseFormat(c.clock);
  }

  /** The Exif section of a generated dictionary holds exactly
      DateTimeOriginal, the same string as the 0th section's DateTime, and
      the pixel dimensions passed in, unchanged. */
  lemma GenerateExif(c: Choices)
    requires ValidChoices(c)
    ensures var d := Generate(c);
      && d.exif.Keys == Sections.ExifTags
      && AsciiAt(d.exif, DateTimeOriginal).Some?
      && AsciiAt(d.exif, DateTimeOriginal) == AsciiAt(d.zeroth, DateTime)
      && IntegerAt(d.exif, PixelXDimension) == Some(c.width)
      && IntegerAt(d.exif, PixelYDimension) == Some(c.height)
  {
  }

  /** The GPS section of a generated dictionary holds exactly the four
      fields of the drawn preset. */
  lemma GenerateGps(c: Choices)
    requires ValidChoices(c)
    ensures var g := Generate(c).gps;
      && g.Keys == Sections.GpsTags
      && AsciiAt(g, GPSLatitudeRef) == Some(Cities.Presets[c.city].latRef)
      && RationalsAt(g, GPSLatitude) == Some(Cities.Presets[c.city].lat)
      && AsciiAt(g, GPSLongitudeRef) == Some(Cities.Presets[c.city].lonRef)
      && RationalsAt(g, GPSLongitude) == Some(Cities.Presets[c.city].lon)
  {
  }

  /** The drawn maker and model are a pair of the table. */
  lemma GenerateCameraConsistent(c: Choices)
    requires ValidChoices(c)
    ensures CameraConsistent(Generate(c))
  {
    GenerateZeroth(c);
  }

  /** DateTime and DateTimeOriginal are one stamp of the fixed shape. */
  lemma GenerateSingleTimestamp(c: Choices)
    requires ValidChoices(c)
    ensures SingleTimestamp(Generate(c))
  {
    GenerateZeroth(c);
    GenerateExif(c);
  }

  /** The GPS section is exactly one preset of the list, and a well-formed one. */
  lemma GenerateLocationFromOnePreset(c: Choices)
    requires ValidChoices(c)
    ensures LocationFromOnePreset(Generate(c))
    ensures CoordinatesWellFormed(Generate(c))
  {
    GenerateGps(c);
    assert Cities.Presets[c.city] in Cities.Presets;
  }

  /** Reads a dictionary back into the choices that produce it: `None`
      unless it has exactly the tags the generator writes, a maker and model
      of the table, the constant Software label, one shared valid timestamp
      and the fields of one preset. */
  function Recover(d: ExifDict): (r: Option<Choices>)
    ensures r.Some? ==> ValidChoices(r.value) && Generate(r.value) == d
  {
    var z :- Sections.ReadZeroth(d.zeroth);
    var e :- Sections.ReadExif(d.exif);
    var city :- Sections.ReadGps(d.gps);
    var bi :- IndexOf(Cameras.Makes(), z.make);
    var mi :- IndexOf(Cameras.Table[bi].models, z.model);
    var ci :- IndexOf(Cities.Presets, city);
    var clock :- Timestamps.Parse(z.stamp);
    if e.stamp == z.stamp then
      Timestamps.FormatParse(z.stamp);
      Some(Choices(bi, mi, ci, clock, e.width, e.height))
    else None
  }

  /** Reading a generated dictionary gives back the choices it came from. */
  lemma RecoverGenerate(c: Choices)
    requires ValidChoices(c)
    ensures Recover(Generate(c)) == Some(c)
  {
    Cameras.TableHasNoDuplicates();
    var makes := Cameras.Makes();
    assert IndexOf(makes, makes[c.brand]) == Some(c.brand);
    var models := Cameras.Table[c.brand].models;
    assert IndexOf(models, models[c.model]) == Some(c.model);
    var p := Cities.Presets[c.city];
    var k := IndexOf(Cities.Presets, p);
    Cities.PresetsDistinct(k.value, c.city);
    var now := Timestamps.Format(c.clock);
    Sections.ZerothRoundTrip(Sections.ZerothFields(makes[c.brand], models[c.model], now));
    Sections.ExifRoundTrip(Sections.ExifFields(now, c.width, c.height));
    Sections.GpsRoundTrip(p);
    Timestamps.ParseFormat(c.clock);
  }

  /** Different choices never yield the same dictionary. */
  lemma GenerateInjective(c: Choices, c': Choices)
    requires ValidChoices(c) && ValidChoices(c')
    ensures Generate(c) == Generate(c') ==> c == c'
  {
    RecoverGenerate(c);
    RecoverGenerate(c');
  }

  /** A generated dictionary never mixes presets: any preset whose latitude
      it carries, and any preset whose longitude it carries, is the drawn one. */
  lemma NoMixedLocation(c: Choices)
    requires ValidChoices(c)
    ensures forall i :: 0 <= i < |Cities.Presets| && RationalsAt(Generate(c).gps, GPSLatitude) == Some(Cities.Presets[i].lat) ==> i == c.city
    ensures forall j :: 0 <= j < |Cities.Presets| && RationalsAt(Generate(c).gps, GPSLongitude) == Some(Cities.Presets[j].lon) ==> j == c.city
  {
    GenerateGps(c);
    forall i | 0 <= i < |Cities.Presets|
      ensures Cities.Presets[i].lat == Cities.Presets[c.city].lat ==> i == c.city
      ensures Cities.Presets[i].lon == Cities.Presets[c.city].lon ==> i == c.city
    {
      Cities.CoordinatesIdentifyPreset(i, c.city);
    }
  }

  /** A generated model is never listed under a maker other than the
      generated one. */
  lemma NoForeignBrand(c: Choices)
    requires ValidChoices(c)
    ensures AsciiAt(Generate(c).zeroth, Model).Some?
    ensures forall j ::
              0 <= j < |Cameras.Table| && AsciiAt(Generate(c).zeroth, Make) != Some(Cameras.Table[j].make)
              ==> AsciiAt(Generate(c).zeroth, Model).value !in Cameras.Table[j].models
  {
    GenerateZeroth(c);
  }
}
