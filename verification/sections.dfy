/** The three IFDs of the synthesised dictionary, each built from its
    values (app.py:49-65) and read back by a reader that accepts exactly the
    layout the builder writes. */
module Sections {

  import opened Wrappers
  import opened Tiff
  import Cities

  /** The constant editing-tool label written under Software. */
  const SoftwareLabel: string := "Adobe Lightroom"

  const ZerothTags: set<nat> := {Make, Model, Software, DateTime}
  const ExifTags: set<nat> := {DateTimeOriginal, PixelXDimension, PixelYDimension}
  const GpsTags: set<nat> := {GPSLatitudeRef, GPSLatitude, GPSLongitudeRef, GPSLongitude}

  datatype ZerothFields = ZerothFields(make: string, model: string, stamp: string)
  datatype ExifFields = ExifFields(stamp: string, width: int, height: int)

  /** app.py:49-54: maker, model, the constant Software label and the timestamp. */
  function ZerothIfd(f: ZerothFields): Ifd {
    map[
      Make := Ascii(f.make),
      Model := Ascii(f.model),
      Software := Ascii(SoftwareLabel),
      DateTime := Ascii(f.stamp)]
  }

  /** app.py:55-59: the timestamp again, and the pixel dimensions. */
  function ExifIfd(f: ExifFields): Ifd {
    map[
      DateTimeOriginal := Ascii(f.stamp),
      PixelXDimension := Integer(f.width),
      PixelYDimension := Integer(f.height)]
  }

  /** app.py:60-65: the four fields of one location preset. */
  function GpsIfd(c: Cities.CityPreset): Ifd {
    map[
      GPSLatitudeRef := Ascii(c.latRef),
      GPSLatitude := RationalArray(c.lat),
      GPSLongitudeRef := Ascii(c.lonRef),
      GPSLongitude := RationalArray(c.lon)]
  }

  /** The 0th IFD's values, if it has exactly the builder's layout. */
  function ReadZeroth(z: Ifd): (r: Option<ZerothFields>)
    ensures r.Some? ==> ZerothIfd(r.value) == z
  {
    if z.Keys != ZerothTags then None
    else
      var make :- AsciiAt(z, Make);
      var model :- AsciiAt(z, Model);
      var software :- AsciiAt(z, Software);
      var stamp :- AsciiAt(z, DateTime);
      if software == SoftwareLabel then Some(ZerothFields(make, model, stamp)) else None
  }

  /** The Exif IFD's values, if it has exactly the builder's layout. */
  function ReadExif(e: Ifd): (r: Option<ExifFields>)
    ensures r.Some? ==> ExifIfd(r.value) == e
  {
    if e.Keys != ExifTags then None
    else
      var stamp :- AsciiAt(e, DateTimeOriginal);
      var width :- IntegerAt(e, PixelXDimension);
      var height :- IntegerAt(e, PixelYDimension);
      Some(ExifFields(stamp, width, height))
  }

  /** The GPS IFD's preset, if it has exactly the builder's layout. */
  function ReadGps(g: Ifd): (r: Option<Cities.CityPreset>)
    ensures r.Some? ==> GpsIfd(r.value) == g
  {
    if g.Keys != GpsTags then None
    else
      var latRef :- AsciiAt(g, GPSLatitudeRef);
      var lat :- RationalsAt(g, GPSLatitude);
      var lonRef :- AsciiAt(g, GPSLongitudeRef);
      var lon :- RationalsAt(g, GPSLongitude);
      Some(Cities.CityPreset(lat, latRef, lon, lonRef))
  }

  lemma ZerothRoundTrip(f: ZerothFields)
    ensures ReadZeroth(ZerothIfd(f)) == Some(f)
  {
  }

  lemma ExifRoundTrip(f: ExifFields)
    ensures ReadExif(ExifIfd(f)) == Some(f)
  {
  }

  lemma GpsRoundTrip(c: Cities.CityPreset)
    ensures ReadGps(GpsIfd(c)) == Some(c)
  {
  }
}
