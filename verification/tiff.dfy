/** The TIFF/Exif value vocabulary used by the synthesised metadata: the tag
    numbers of the registry entries the generator writes, and the typed values
    a tag may carry in an IFD (Image File Directory). */
module Tiff {

  import opened Wrappers

  /** A TIFF RATIONAL: a numerator/denominator pair (TIFF 6.0, section 2, field
      types). Both halves are unsigned 32-bit on the wire; the model keeps them
      unbounded and states the 32-bit bound as a predicate. */
  datatype Rational = Rational(num: nat, den: nat)

  const Max32: nat := 0x1_0000_0000

  predicate FitsLong(r: Rational) {
    r.num < Max32 && r.den < Max32
  }

  /** A tag value as the Python dictionary holds it before serialisation:
      an ASCII string, a plain integer, or an array of rationals. */
  datatype TagValue =
    | Ascii(text: string)
    | Integer(value: int)
    | RationalArray(items: seq<Rational>)

  /** One IFD: registry tag number to value. */
  type Ifd = map<nat, TagValue>

  // TIFF 6.0 section 8 baseline fields of the 0th (image) IFD.
  const Make: nat := 271
  const Model: nat := 272
  const Software: nat := 305
  const DateTime: nat := 306

  // Exif sub-IFD fields.
  const DateTimeOriginal: nat := 36867
  const PixelXDimension: nat := 40962
  const PixelYDimension: nat := 40963

  // GPS IFD fields (section 4.6.6 of Exif 2.3).
  const GPSLatitudeRef: nat := 1
  const GPSLatitude: nat := 2
  const GPSLongitudeRef: nat := 3
  const GPSLongitude: nat := 4

  /** The text stored under `tag`, if the tag is present with an ASCII value. */
  function AsciiAt(ifd: Ifd, tag: nat): Option<string>
  {
    if tag in ifd && ifd[tag].Ascii? then Some(ifd[tag].text) else None
  }

  /** The integer stored under `tag`, if the tag is present with an integer value. */
  function IntegerAt(ifd: Ifd, tag: nat): Option<int>
  {
    if tag in ifd && ifd[tag].Integer? then Some(ifd[tag].value) else None
  }

  /** The rational array stored under `tag`, if the tag is present with one. */
  function RationalsAt(ifd: Ifd, tag: nat): Option<seq<Rational>>
  {
    if tag in ifd && ifd[tag].RationalArray? then Some(ifd[tag].items) else None
  }
}
