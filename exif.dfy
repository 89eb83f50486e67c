/**
 * The pure metadata helpers of the photo importer: the GPS guard of
 * get_gps_location_from_exif and the capture-time rule of
 * extract_capture_info.  PIL's EXIF decoding is the oracle that produces an
 * `ExifData`; the degrees/minutes/seconds arithmetic is not modelled.
 */
module Exif {
  import opened Text

  /** A value found in the GPSInfo dictionary: a (degrees, minutes, seconds) tuple or a reference letter. */
  datatype GpsValue = Dms(parts: seq<real>) | Ref(letter: string)

  /**
   * The decoded EXIF dictionary.  `gpsInfo` is the value under the key
   * 'GPSInfo' (None when the key is absent); every other tag the program
   * reads (DateTimeOriginal, Make) is textual and lives in `tags`.
   */
  datatype ExifData = ExifData(tags: map<string, string>, gpsInfo: Option<map<string, GpsValue>>)

  /** The value of get_gps_location_from_exif: 'Unknown location' or the four GPS fields it converts. */
  datatype Location =
    | UnknownLocation
    | Coordinates(latitude: GpsValue, latitudeRef: GpsValue, longitude: GpsValue, longitudeRef: GpsValue)

  /**
   * dict.get(key) on the GPSInfo dictionary.  The program looks fields up by
   * name, but PIL keys GPSInfo by integer tag numbers, so on real images these
   * lookups find nothing; the Coordinates branch is reached only through the
   * EXIF data given as input.
   */
  function GpsGet(info: map<string, GpsValue>, key: string): Option<GpsValue>
  {
    if key in info then Some(info[key]) else None
  }

  /** Python truthiness of a looked-up GPS value: None, an empty tuple and an empty string are false. */
  predicate Truthy(v: Option<GpsValue>)
  {
    match v
    case None => false
    case Some(Dms(parts)) => |parts| > 0
    case Some(Ref(letter)) => |letter| > 0
  }

  /** get_gps_location_from_exif: a location only when GPSInfo has all four fields set. */
  function GpsLocation(exif: ExifData): (loc: Location)
  {
    match exif.gpsInfo
    case None => UnknownLocation
    case Some(info) =>
      var lat := GpsGet(info, "GPSLatitude");
      var latRef := GpsGet(info, "GPSLatitudeRef");
      var lon := GpsGet(info, "GPSLongitude");
      var lonRef := GpsGet(info, "GPSLongitudeRef");
      if Truthy(lat) && Truthy(latRef) && Truthy(lon) && Truthy(lonRef)
      then Coordinates(lat.value, latRef.value, lon.value, lonRef.value)
      else UnknownLocation
  }

  /** The guard, both ways: coordinates exactly when GPSInfo is present and all four fields are set, and they are those fields. */
  lemma GpsLocationGuard(exif: ExifData)
    ensures GpsLocation(exif).Coordinates? <==>
      exif.gpsInfo.Some? &&
      (forall key :: key in GpsKeys ==> key in exif.gpsInfo.value && Truthy(Some(exif.gpsInfo.value[key])))
    ensures GpsLocation(exif).Coordinates? ==>
      var info := exif.gpsInfo.value;
      GpsLocation(exif) == Coordinates(info["GPSLatitude"], info["GPSLatitudeRef"], info["GPSLongitude"], info["GPSLongitudeRef"])
  {
    if exif.gpsInfo.Some? {
      var info := exif.gpsInfo.value;
      assert GpsKeys[0] == "GPSLatitude" && GpsKeys[1] == "GPSLatitudeRef";
      assert GpsKeys[2] == "GPSLongitude" && GpsKeys[3] == "GPSLongitudeRef";
    }
  }

  /** The four GPSInfo keys the guard reads. */
  const GpsKeys: seq<string> := ["GPSLatitude", "GPSLatitudeRef", "GPSLongitude", "GPSLongitudeRef"]

  /** The value of extract_capture_info: capture time, the GPSInfo value (None for 'Unknown location') and the accuracy flag. */
  datatype CaptureInfo = CaptureInfo(captureDate: string, captureLocation: Option<map<string, GpsValue>>, isCaptureTimeAccurate: int)

  /**
   * extract_capture_info as it is in effect: the second definition in the
   * class body replaces the first.  `creationTime` is the file's creation
   * time formatted by time.strftime, the fallback when DateTimeOriginal is absent.
   */
  function ExtractCaptureInfo(exif: ExifData, creationTime: string): (info: CaptureInfo)
    ensures info.isCaptureTimeAccurate == 1 <==> "DateTimeOriginal" in exif.tags
    ensures info.isCaptureTimeAccurate == 0 <==> "DateTimeOriginal" !in exif.tags
    ensures info.captureDate == if "DateTimeOriginal" in exif.tags then exif.tags["DateTimeOriginal"] else creationTime
  {
    var date := if "DateTimeOriginal" in exif.tags then exif.tags["DateTimeOriginal"] else creationTime;
    var accurate := if "DateTimeOriginal" !in exif.tags then 0 else 1;
    CaptureInfo(date, exif.gpsInfo, accurate)
  }

  /** The first, overridden definition of extract_capture_info: it calls the GPS guard for the location. */
  function ExtractCaptureInfoOverridden(exif: ExifData, creationTime: string): (string, Location, int)
  {
    if "DateTimeOriginal" in exif.tags
    then (exif.tags["DateTimeOriginal"], GpsLocation(exif), 1)
    else (creationTime, GpsLocation(exif), 0)
  }

  /** Replacing the first definition by the second changes only the location part, which process_file does not use. */
  lemma OverrideKeepsDateAndFlag(exif: ExifData, creationTime: string)
    ensures ExtractCaptureInfoOverridden(exif, creationTime).0 == ExtractCaptureInfo(exif, creationTime).captureDate
    ensures ExtractCaptureInfoOverridden(exif, creationTime).2 == ExtractCaptureInfo(exif, creationTime).isCaptureTimeAccurate
  {
  }
}
