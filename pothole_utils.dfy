/**
 * The frontend's defensive helpers (frontend/src/utils/potholeUtils.ts):
 * coercing API data to an array, and deciding whether a pothole can be
 * placed on the map.
 */
module PotholeUtils {
  import opened Js

  /** An arbitrary JSON-like JavaScript value. */
  datatype JsValue =
    | JUndefined
    | JNull
    | JBool(b: bool)
    | JNumber(n: Num)
    | JString(s: string)
    | JArray(items: seq<JsValue>)
    | JObject(fields: map<string, JsValue>)

  /** `ensureArray(data, defaultValue)`: arrays pass through, anything else
      becomes the default. */
  function EnsureArray(data: JsValue, defaultValue: seq<JsValue>): (r: seq<JsValue>)
    ensures data.JArray? ==> r == data.items
    ensures !data.JArray? ==> r == defaultValue
  {
    match data
    case JArray(items) => items
    case _ => defaultValue
  }

  /** Applying `ensureArray` to its own result changes nothing. */
  lemma EnsureArrayIdempotent(data: JsValue, d1: seq<JsValue>, d2: seq<JsValue>)
    ensures EnsureArray(JArray(EnsureArray(data, d1)), d2) == EnsureArray(data, d1)
  {
  }

  /** Property `name` of an object, `undefined` when it is missing. */
  function Field(fields: map<string, JsValue>, name: string): JsValue {
    if name in fields then fields[name] else JUndefined
  }

  /** `x >= lo && x <= hi` on a JS number. */
  predicate InRange(n: Num, lo: real, hi: real) {
    Ge(n, lo) && Le(n, hi)
  }

  /** `isValidPotholeForMap`: an object with a numeric `id` and numeric,
      non-NaN coordinates within [-90, 90] x [-180, 180]. `typeof` also
      calls an array an object, but an array carries no numeric `id`, so it
      is refused all the same. */
  predicate IsValidPotholeForMap(pothole: JsValue) {
    && pothole.JObject?
    && Field(pothole.fields, "id").JNumber?
    && Field(pothole.fields, "latitude").JNumber?
    && Field(pothole.fields, "longitude").JNumber?
    && !Field(pothole.fields, "latitude").n.NaN?
    && !Field(pothole.fields, "longitude").n.NaN?
    && InRange(Field(pothole.fields, "latitude").n, -90.0, 90.0)
    && InRange(Field(pothole.fields, "longitude").n, -180.0, 180.0)
  }

  /** A pothole accepted for the map has finite coordinates inside the
      inclusive latitude and longitude ranges, and only such an object is
      accepted: null, primitives and arrays never are. */
  lemma ValidPotholeHasFiniteCoordinates(pothole: JsValue)
    ensures IsValidPotholeForMap(pothole) <==>
              && pothole.JObject?
              && Field(pothole.fields, "id").JNumber?
              && (exists lat: real, lng: real ::
                    && Field(pothole.fields, "latitude") == JNumber(Finite(lat))
                    && Field(pothole.fields, "longitude") == JNumber(Finite(lng))
                    && -90.0 <= lat <= 90.0 && -180.0 <= lng <= 180.0)
  {
    if IsValidPotholeForMap(pothole) {
      var lat := Field(pothole.fields, "latitude").n;
      var lng := Field(pothole.fields, "longitude").n;
      assert lat.Finite? && lng.Finite?;
      assert Field(pothole.fields, "latitude") == JNumber(Finite(lat.v));
      assert Field(pothole.fields, "longitude") == JNumber(Finite(lng.v));
    }
  }

  /** The range check is inclusive at both ends. */
  lemma CornersAreValid(id: real, lat: real, lng: real)
    requires lat == 90.0 || lat == -90.0
    requires lng == 180.0 || lng == -180.0
    ensures IsValidPotholeForMap(JObject(map["id" := JNumber(Finite(id)),
                                             "latitude" := JNumber(Finite(lat)),
                                             "longitude" := JNumber(Finite(lng))]))
  {
  }
}
