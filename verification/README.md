# Fake camera EXIF synthesis, modelled in Dafny

This project models the metadata synthesis at the heart of the AllConvert
image API: `generate_fake_exif(width, height)` in `app.py`. The function
invents a plausible camera profile for an uploaded image. It draws a camera
maker and a model of that maker from a fixed table. It draws one of three
fixed location presets. It stamps the current time once. It then lays these
values out as the three-section EXIF dictionary (`"0th"`, `"Exif"`, `"GPS"`)
that the `piexif` serialiser turns into bytes.

The model stops before serialisation. The three `random.choice` draws and
the `datetime.now()` reading are lifted into a `Choices` record of indices,
a clock reading and the image size. `FakeExif.Generate(c)` is then a pure
function: the same choices always give the same dictionary.

Modules, in dependency order:

- `Wrappers` (wrappers.dfy): `Option` and a first-index search.
- `Tiff` (tiff.dfy): the TIFF `RATIONAL` pair, the three value kinds a tag
  holds in the dictionary (ASCII text, integer, rational array), and the
  registry numbers of the eleven tags written. The 0th IFD uses TIFF 6.0
  section 8 baseline fields Make 271, Model 272, Software 305 and DateTime
  306. The Exif IFD uses DateTimeOriginal 36867, PixelXDimension 40962 and
  PixelYDimension 40963. The GPS IFD uses section 4.6.6 of Exif 2.3:
  GPSLatitudeRef 1, GPSLatitude 2, GPSLongitudeRef 3 and GPSLongitude 4.
- `Timestamps` (timestamps.dfy): the `"%Y:%m:%d %H:%M:%S"` rendering of a
  `datetime`, plus a parser that inverts it.
- `Cameras` (cameras.dfy): the brand-to-models table and the two-step draw.
- `Cities` (cities.dfy): the location presets and the preset draw.
- `Sections` (sections.dfy): a builder for each of the three IFDs, and a
  reader that accepts exactly what the builder writes.
- `FakeExif` (fake_exif.dfy): `Generate`, the consistency properties, and
  `Recover`, which reads a dictionary back into the choices behind it.

Each operation has a partner, connected to it by a lemma over all inputs:

- `Format` has `Parse`. The round trip holds in both directions.
- Each IFD builder has its reader.
- `Generate` has `Recover`. Recovering a generated dictionary gives back its
  choices. Any dictionary `Recover` accepts is regenerated exactly. So
  `Recover` accepts exactly the generator's outputs, and `Generate` is
  injective.

## Model

| member | source | states |
|---|---|---|
| Cameras.Makes | app.py:19-22 | The makers are listed in the dictionary's insertion order, "SONY" then "Canon", as `list(camera_data.keys())` enumerates them. |
| Cameras.ChooseMake | app.py:44 | The drawn brand is one of the table's makers. |
| Cameras.ChooseModel | app.py:44-45 | The drawn model is listed under the drawn maker, so the pair is consistent. No other maker of the table lists it. |
| Cameras.ModelListsDisjoint | app.py:19-22 | No model name appears under two makers, so a model can never pair with a foreign brand. |
| Cameras.TableHasNoDuplicates | app.py:19-22 | The makers are pairwise distinct, and so are the models within each maker's list. |
| Cameras.EveryPairIsDrawable | app.py:44-45 | Every maker/model pair of the table is the outcome of some pair of draws, so the draw is onto the consistent pairs. |
| Cities.Choose | app.py:23-46 | The drawn preset is in the list. Both coordinates are 3-element rational arrays with denominator 1 that fit a 32-bit LONG. The latitude ref is "N" or "S" and the longitude ref is "E" or "W", each one character long. |
| Cities.CoordinatesIdentifyPreset | app.py:23-42 | A latitude triple occurs in only one preset, and so does a longitude triple. |
| Cities.PresetsDistinct | app.py:23-42 | No two positions of the preset list hold the same preset. |
| Timestamps.PadDecimal | app.py:47 | A strftime numeric field of width w is exactly w decimal digits. |
| Timestamps.DecimalOfPad | app.py:47 | Reading a zero-padded field back gives the number rendered. |
| Timestamps.PadOfDecimal | app.py:47 | Re-rendering any digit string's value at the same width gives back that string. |
| Timestamps.Format | app.py:47 | The rendered stamp has length 19. It has ':' at indices 4, 7, 13 and 16, ' ' at index 10, and a decimal digit at every other index. |
| Timestamps.ParseFormat | app.py:47 | Parsing the stamp of any valid clock reading gives that reading back. |
| Timestamps.FormatParse | app.py:47 | Every string the parser accepts is the stamp of the reading it parses to. |
| Timestamps.FormatInjective | app.py:47 | Distinct clock readings give distinct stamps. |
| Sections.ReadZeroth | app.py:49-54 | A 0th IFD the reader accepts has exactly Make, Model, Software and DateTime. Its Software is the constant label. It is rebuilt exactly from the values read. |
| Sections.ZerothRoundTrip | app.py:49-54 | Reading a built 0th IFD returns the maker, model and stamp it was built from. |
| Sections.ReadExif | app.py:55-59 | An Exif IFD the reader accepts has exactly DateTimeOriginal, PixelXDimension and PixelYDimension. It is rebuilt exactly from the values read. |
| Sections.ExifRoundTrip | app.py:55-59 | Reading a built Exif IFD returns its stamp and both dimensions unchanged. |
| Sections.ReadGps | app.py:60-65 | A GPS IFD the reader accepts has exactly the four GPS tags. It is rebuilt exactly from the preset read. |
| Sections.GpsRoundTrip | app.py:60-65 | Reading a built GPS IFD returns the preset it was built from. |
| FakeExif.Generate | app.py:18-67 | Reading each section of the result gives back the drawn maker and model, the stamp of the clock reading under both timestamp tags, the width and height passed in, and the drawn preset. |
| FakeExif.GenerateZeroth | app.py:49-54 | The 0th section has exactly the keys Make, Model, Software and DateTime. Make is the drawn brand and Model the drawn model. Software is "Adobe Lightroom". DateTime parses back to the clock reading. |
| FakeExif.GenerateExif | app.py:55-59 | The Exif section has exactly its three keys. DateTimeOriginal is the same string as DateTime. PixelXDimension and PixelYDimension equal width and height exactly. |
| FakeExif.GenerateGps | app.py:60-65 | The GPS section always has its four tags, and all four come from the drawn preset. |
| FakeExif.GenerateCameraConsistent | app.py:44-51 | The Make and Model written form a pair listed in the table. |
| FakeExif.GenerateSingleTimestamp | app.py:47-56 | DateTime and DateTimeOriginal hold one and the same string, of the fixed 19-character shape. |
| FakeExif.GenerateLocationFromOnePreset | app.py:46-65 | The four GPS fields are exactly the fields of one preset of the list. The coordinates are well formed: whole-number triples with refs of the right axis. |
| FakeExif.Recover | app.py:18-67 | A dictionary the reader accepts reads back to valid choices, and generating from those choices rebuilds the dictionary exactly. |
| FakeExif.RecoverGenerate | app.py:18-67 | Reading back a generated dictionary returns the choices it came from. |
| FakeExif.GenerateInjective | app.py:44-67 | Different choices never produce the same dictionary. |
| FakeExif.NoMixedLocation | app.py:46-65 | Any preset whose latitude the GPS section carries is the drawn one, and so is any preset whose longitude it carries. Latitude and longitude are never mixed across presets. |
| FakeExif.NoForeignBrand | app.py:44-51 | The written model is not listed under any maker other than the written Make. |

## Left out

- Serialisation by `piexif.dump` (app.py:68) is left out: the library's source is not part of this model, so no byte layout is claimed. The 32-bit LONG width of the pixel dimensions is likewise not enforced; the dictionary holds whatever integers the caller passes.
- The random draws and the clock (app.py:44-47) are parameters of `Generate`. The indices must be in range, as `random.choice` on a non-empty list guarantees. The reading must be a valid `datetime`: year 1 to 9999, Gregorian month lengths, and no leap second.
- Microseconds of the clock reading are not modelled, because the format string drops them.
- `%Y` is modelled as four zero-padded digits, the rendering Python documents for years 1 to 9999. Some C libraries print years below 1000 unpadded; that variant is not modelled.
- `convert_to_webp` and the PIL `Image.save` calls (app.py:12-16, app.py:87, app.py:93) are left out as codec I/O.
- The Flask routes, request body handling, `send_file` and the 400 error mapping (app.py:70-117) are left out as HTTP plumbing.
- OpenCV decoding, the BGR-to-RGB conversion and the JPEG-then-WebP double hop (app.py:78-95, app.py:103-111) are left out. They are pixel codec work with no logic in this file to state.
- An authorship mode, keywords under tag 40094, description, artist and copyright fields, a GPS section that may be omitted, and an encoding error for an inconsistent profile do not exist in `app.py`, so they are not modelled. The code always writes camera-mode metadata and always writes the GPS section.
