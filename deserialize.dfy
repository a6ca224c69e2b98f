/**
 * The document normalizer of package deserializer: decode an archive payload
 * into a generic (unstructured) document, and when that fails because the
 * type discriminators `kind` and `apiVersion` were stripped, fill them in with
 * a placeholder and decode again. The JSON codec itself is a parameter.
 */
module Deserializer {
  import opened Wrappers

  type byte = b: int | 0 <= b < 256
  type Bytes = seq<byte>

  /** A generic JSON value, as encoding/json produces into interface{} targets. */
  datatype Json =
    | JNull
    | JBool(b: bool)
    | JNumber(literal: string)
    | JString(s: string)
    | JArray(items: seq<Json>)
    | JObject(fields: map<string, Json>)

  type JsonMap = map<string, Json>

  /**
   * What json.Unmarshal leaves in a map[string]interface{} target: an error
   * (malformed input, or a JSON value that is not an object), a nil map (the
   * input is the JSON literal null), or the decoded object.
   */
  datatype MapDecoding = NotAnObject | NullMap | Object(fields: JsonMap)

  /**
   * The foreign codec: json.Unmarshal into a map, json.Marshal of a map, and
   * Unstructured.UnmarshalJSON (None when it reports an error).
   */
  datatype Codec = Codec(
    unmarshalMap: Bytes -> MapDecoding,
    marshalMap: JsonMap -> Option<Bytes>,
    unmarshalUnstructured: Bytes -> Option<JsonMap>)

  /** The errors of the deserializer package. */
  datatype Error =
    | UnmarshalJsonError      // "error when trying to unmarshal json"
    | MarshalJsonError        // "error when trying to marshal json"
    | RetryUnmarshalError     // "error when retrying to unmarshal into unstructured"
    | UnknownResourcePath     // ErrUnknownResourcePath

  /** A record the reader returns: a decoded document, or a ConfigMap reassembled from one file per key. */
  datatype Resource =
    | Unstructured(object: JsonMap)
    | ConfigMap(namespace: string, name: string, data: map<string, string>)

  const MissingTypeMetaFieldValue := "DUMMY"
  const ToBeFixedTypeMetaFields: seq<string> := ["kind", "apiVersion"]

  /** One step of the repair loop: a missing field gets the placeholder, a present one is kept. */
  function FillField(m: JsonMap, field: string): JsonMap {
    if field in m then m else m[field := JString(MissingTypeMetaFieldValue)]
  }

  /** The repair loop run over `fields` in order. */
  function FillFields(m: JsonMap, fields: seq<string>): JsonMap
    decreases |fields|
  {
    if fields == [] then m
    else FillField(FillFields(m, fields[..|fields| - 1]), fields[|fields| - 1])
  }

  /** The object insertTypeMeta re-encodes. */
  function WithTypeMeta(m: JsonMap): JsonMap {
    FillFields(m, ToBeFixedTypeMetaFields)
  }

  /**
   * Filling a list of fields: every listed field is present afterwards, every
   * field already present keeps its value, and the only keys added are listed
   * fields, each holding the placeholder.
   */
  lemma {:induction false} FillFieldsSpec(m: JsonMap, fields: seq<string>)
    ensures forall f :: f in fields ==> f in FillFields(m, fields)
    ensures forall k :: k in m ==> k in FillFields(m, fields) && FillFields(m, fields)[k] == m[k]
    ensures forall k :: k in FillFields(m, fields) && k !in m ==>
      k in fields && FillFields(m, fields)[k] == JString(MissingTypeMetaFieldValue)
    decreases |fields|
  {
    if fields != [] {
      var init := fields[..|fields| - 1];
      FillFieldsSpec(m, init);
      assert fields == init + [fields[|fields| - 1]];
    }
  }

  /** Filling fields that are all present already changes nothing. */
  lemma {:induction false} FillPresentFields(m: JsonMap, fields: seq<string>)
    requires forall f :: f in fields ==> f in m
    ensures FillFields(m, fields) == m
    decreases |fields|
  {
    if fields != [] {
      FillPresentFields(m, fields[..|fields| - 1]);
    }
  }

  /**
   * The repaired object has both `kind` and `apiVersion`; a present one is not
   * overwritten, a missing one is the placeholder, and no other key is added,
   * removed or changed.
   */
  lemma TypeMetaRepair(m: JsonMap)
    ensures "kind" in WithTypeMeta(m) && "apiVersion" in WithTypeMeta(m)
    ensures forall k :: k in m ==> k in WithTypeMeta(m) && WithTypeMeta(m)[k] == m[k]
    ensures "kind" !in m ==> WithTypeMeta(m)["kind"] == JString(MissingTypeMetaFieldValue)
    ensures "apiVersion" !in m ==> WithTypeMeta(m)["apiVersion"] == JString(MissingTypeMetaFieldValue)
    ensures WithTypeMeta(m).Keys == m.Keys + {"kind", "apiVersion"}
  {
    FillFieldsSpec(m, ToBeFixedTypeMetaFields);
  }

  /** Repairing a repaired object changes nothing. */
  lemma TypeMetaIdempotent(m: JsonMap)
    ensures WithTypeMeta(WithTypeMeta(m)) == WithTypeMeta(m)
  {
    TypeMetaRepair(m);
    FillPresentFields(WithTypeMeta(m), ToBeFixedTypeMetaFields);
  }

  /** The outcome of insertTypeMeta: the re-encoded, repaired object, or an error and no bytes. */
  function TypeMetaRepaired(codec: Codec, raw: Bytes): Result<Bytes, Error> {
    match codec.unmarshalMap(raw)
    case Object(m) =>
      (match codec.marshalMap(WithTypeMeta(m))
       case Some(fixed) => Success(fixed)
       case None => Failure(MarshalJsonError))
    case _ => Failure(UnmarshalJsonError)
  }

  /**
   * insertTypeMeta: decode the payload as a JSON object, give it the missing
   * type fields, and encode it again. Input that is not a JSON object, null
   * included, yields an error and no bytes.
   */
  method InsertTypeMeta(codec: Codec, raw: Bytes) returns (r: Result<Bytes, Error>)
    ensures r == TypeMetaRepaired(codec, raw)
    ensures !codec.unmarshalMap(raw).Object? ==> r == Failure(UnmarshalJsonError)
    ensures r.Success? ==> codec.marshalMap(WithTypeMeta(codec.unmarshalMap(raw).fields)) == Some(r.value)
  {
    var decoded := codec.unmarshalMap(raw);
    if !decoded.Object? {
      return Failure(UnmarshalJsonError);
    }
    var marshalled := decoded.fields;
    var i := 0;
    while i < |ToBeFixedTypeMetaFields|
      invariant 0 <= i <= |ToBeFixedTypeMetaFields|
      invariant marshalled == FillFields(decoded.fields, ToBeFixedTypeMetaFields[..i])
    {
      var field := ToBeFixedTypeMetaFields[i];
      if field !in marshalled {
        marshalled := marshalled[field := JString(MissingTypeMetaFieldValue)];
      }
      assert ToBeFixedTypeMetaFields[..i + 1][..i] == ToBeFixedTypeMetaFields[..i];
      i := i + 1;
    }
    assert ToBeFixedTypeMetaFields[..i] == ToBeFixedTypeMetaFields;
    var newData := codec.marshalMap(marshalled);
    if newData.None? {
      return Failure(MarshalJsonError);
    }
    return Success(newData.value);
  }

  /** The outcome of insertTypeMeta as the source writes it, which can also panic. */
  datatype Attempt = Returned(result: Result<Bytes, Error>) | Panicked

  /**
   * insertTypeMeta as written: json.Unmarshal of the literal null succeeds and
   * leaves the map nil, and the first write of a missing field into a nil map
   * panics.
   */
  function InsertTypeMetaAsWritten(codec: Codec, raw: Bytes): (r: Attempt)
    ensures codec.unmarshalMap(raw) != NullMap ==> r == Returned(TypeMetaRepaired(codec, raw))
  {
    match codec.unmarshalMap(raw)
    case NotAnObject => Returned(Failure(UnmarshalJsonError))
    case NullMap => Panicked
    case Object(_) => Returned(TypeMetaRepaired(codec, raw))
  }

  /** A payload that decodes to null crashes the source's insertTypeMeta instead of being rejected. */
  lemma NullPayloadPanics(codec: Codec, raw: Bytes)
    requires codec.unmarshalMap(raw) == NullMap
    ensures InsertTypeMetaAsWritten(codec, raw) == Panicked
    ensures TypeMetaRepaired(codec, raw) == Failure(UnmarshalJsonError)
  {
  }

  /**
   * JsonToUnstructed: decode as unstructured; on failure repair the type
   * fields and decode the repaired bytes; a failed repair or a failed retry is
   * an error.
   */
  function Normalize(codec: Codec, raw: Bytes): Result<JsonMap, Error> {
    match codec.unmarshalUnstructured(raw)
    case Some(item) => Success(item)
    case None =>
      match TypeMetaRepaired(codec, raw)
      case Failure(e) => Failure(e)
      case Success(fixed) =>
        match codec.unmarshalUnstructured(fixed)
        case Some(item) => Success(item)
        case None => Failure(RetryUnmarshalError)
  }

  method JsonToUnstructed(codec: Codec, raw: Bytes) returns (r: Result<JsonMap, Error>)
    ensures r == Normalize(codec, raw)
  {
    var item := codec.unmarshalUnstructured(raw);
    if item.None? {
      var fixed := InsertTypeMeta(codec, raw);
      if fixed.Failure? {
        return Failure(fixed.error);
      }
      var retry := codec.unmarshalUnstructured(fixed.value);
      if retry.None? {
        return Failure(RetryUnmarshalError);
      }
      return Success(retry.value);
    }
    return Success(item.value);
  }

  /** The codec encodes `m` and decodes the encoding back to `m` as an unstructured document. */
  predicate RoundTrips(codec: Codec, m: JsonMap) {
    codec.marshalMap(m).Some? && codec.unmarshalUnstructured(codec.marshalMap(m).value) == Some(m)
  }

  /**
   * A payload that fails to decode only because type fields are missing comes
   * out as the repaired object, when the codec round-trips it: both type
   * fields present, the placeholder where they were missing, everything else
   * unchanged.
   */
  lemma NormalizeRepairs(codec: Codec, raw: Bytes, m: JsonMap)
    requires codec.unmarshalUnstructured(raw) == None
    requires codec.unmarshalMap(raw) == Object(m)
    requires RoundTrips(codec, WithTypeMeta(m))
    ensures Normalize(codec, raw) == Success(WithTypeMeta(m))
    ensures "kind" in Normalize(codec, raw).value && "apiVersion" in Normalize(codec, raw).value
    ensures forall k :: k in m ==> k in Normalize(codec, raw).value && Normalize(codec, raw).value[k] == m[k]
  {
    TypeMetaRepair(m);
  }

  /**
   * Normalization fails exactly when the first decode fails and either the
   * repair or the retry fails; it never fails on a payload the first decode accepts.
   */
  lemma NormalizeFails(codec: Codec, raw: Bytes)
    ensures codec.unmarshalUnstructured(raw).Some? ==> Normalize(codec, raw) == Success(codec.unmarshalUnstructured(raw).value)
    ensures Normalize(codec, raw).Failure? <==>
      codec.unmarshalUnstructured(raw).None? &&
      (TypeMetaRepaired(codec, raw).Failure? ||
       codec.unmarshalUnstructured(TypeMetaRepaired(codec, raw).value).None?)
  {
  }

  /** The examples the tests pin: the placeholder fills exactly the missing field. */
  lemma MissingKindExample(metadata: Json)
    ensures WithTypeMeta(map["apiVersion" := JString("v1"), "metadata" := metadata])
         == map["apiVersion" := JString("v1"), "kind" := JString("DUMMY"), "metadata" := metadata]
  {
    WithTypeMetaSteps(map["apiVersion" := JString("v1"), "metadata" := metadata]);
  }

  lemma MissingApiVersionExample(metadata: Json)
    ensures WithTypeMeta(map["kind" := JString("Pod"), "metadata" := metadata])
         == map["apiVersion" := JString("DUMMY"), "kind" := JString("Pod"), "metadata" := metadata]
  {
    WithTypeMetaSteps(map["kind" := JString("Pod"), "metadata" := metadata]);
  }

  lemma MissingBothExample(metadata: Json)
    ensures WithTypeMeta(map["metadata" := metadata])
         == map["apiVersion" := JString("DUMMY"), "kind" := JString("DUMMY"), "metadata" := metadata]
  {
    WithTypeMetaSteps(map["metadata" := metadata]);
  }

  lemma CompleteTypeMetaExample(metadata: Json)
    ensures WithTypeMeta(map["apiVersion" := JString("v1"), "kind" := JString("Pod"), "metadata" := metadata])
         == map["apiVersion" := JString("v1"), "kind" := JString("Pod"), "metadata" := metadata]
  {
    WithTypeMetaSteps(map["apiVersion" := JString("v1"), "kind" := JString("Pod"), "metadata" := metadata]);
  }

  /** The repair loop unrolled: `kind` first, then `apiVersion`. */
  lemma WithTypeMetaSteps(m: JsonMap)
    ensures WithTypeMeta(m) == FillField(FillField(m, "kind"), "apiVersion")
  {
    var fields := ToBeFixedTypeMetaFields;
    assert fields[..|fields| - 1] == ["kind"];
    assert ["kind"][..0] == [];
  }
}
