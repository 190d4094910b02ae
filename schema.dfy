/**
  Request-shape validation. The service validates its inputs with zod
  schemas; this module models what those schemas accept: the meal body
  `{name: string, description: string, isOnDiet: boolean, date: string}`
  and the UUID check on the `mealId` route parameter.
 */
module Schema {
  import opened Wrappers

  /** A parsed JSON value, as a request body arrives at a handler. */
  datatype Json =
    | JNull
    | JBool(b: bool)
    | JNumber(n: int)
    | JString(s: string)
    | JArray(elems: seq<Json>)
    | JObject(fields: map<string, Json>)

  /** The typed body both the create and the update schema produce. The
      date stays a string here: turning it into a timestamp is a separate,
      foreign step. */
  datatype MealBody = MealBody(name: string, description: string, isOnDiet: bool, date: string)

  /** `z.string()` on field `key` of an object. */
  function StringField(fields: map<string, Json>, key: string): (r: Option<string>)
    ensures r.Some? <==> key in fields && fields[key].JString?
    ensures r.Some? ==> fields[key] == JString(r.value)
  {
    if key in fields && fields[key].JString? then Some(fields[key].s) else None
  }

  /** `z.boolean()` on field `key` of an object. */
  function BoolField(fields: map<string, Json>, key: string): (r: Option<bool>)
    ensures r.Some? <==> key in fields && fields[key].JBool?
    ensures r.Some? ==> fields[key] == JBool(r.value)
  {
    if key in fields && fields[key].JBool? then Some(fields[key].b) else None
  }

  /** True when `raw` has the shape the meal schema demands: an object whose
      four named fields are present with the right JSON types. Other keys
      are allowed (zod strips them). */
  predicate IsMealBodyShape(raw: Option<Json>)
  {
    && raw.Some? && raw.value.JObject?
    && "name" in raw.value.fields && raw.value.fields["name"].JString?
    && "description" in raw.value.fields && raw.value.fields["description"].JString?
    && "isOnDiet" in raw.value.fields && raw.value.fields["isOnDiet"].JBool?
    && "date" in raw.value.fields && raw.value.fields["date"].JString?
  }

  /** `createMealBodySchema.parse(request.body)` (and the identical update
      schema). `None` stands for the error zod throws; an absent body is
      `None` on input and is rejected like any non-object. */
  function ParseMealBody(raw: Option<Json>): (r: Option<MealBody>)
    ensures r.Some? <==> IsMealBodyShape(raw)
    ensures r.Some? ==>
      && raw.value.fields["name"] == JString(r.value.name)
      && raw.value.fields["description"] == JString(r.value.description)
      && raw.value.fields["isOnDiet"] == JBool(r.value.isOnDiet)
      && raw.value.fields["date"] == JString(r.value.date)
  {
    if raw.None? || !raw.value.JObject? then None
    else
      var f := raw.value.fields;
      match (StringField(f, "name"), StringField(f, "description"), BoolField(f, "isOnDiet"), StringField(f, "date"))
      case (Some(n), Some(d), Some(o), Some(t)) => Some(MealBody(n, d, o, t))
      case _ => None
  }

  /** The JSON object a client sends for a given body. */
  function EncodeMealBody(b: MealBody): Json
  {
    JObject(map["name" := JString(b.name), "description" := JString(b.description),
                "isOnDiet" := JBool(b.isOnDiet), "date" := JString(b.date)])
  }

  /** Parsing what a client encodes gives back the same body. */
  lemma ParseEncodeRoundTrip(b: MealBody)
    ensures ParseMealBody(Some(EncodeMealBody(b))) == Some(b)
  {
  }

  /** Extra keys in the body do not change what the schema yields. */
  lemma ParseIgnoresExtraKeys(b: MealBody, extra: map<string, Json>)
    ensures ParseMealBody(Some(JObject(extra + EncodeMealBody(b).fields))) == Some(b)
  {
  }

  predicate IsHexDigit(c: char)
  {
    '0' <= c <= '9' || 'a' <= c <= 'f' || 'A' <= c <= 'F'
  }

  /** Positions of the four hyphens in the 8-4-4-4-12 UUID layout. */
  predicate IsHyphenPosition(i: int)
  {
    i == 8 || i == 13 || i == 18 || i == 23
  }

  /** `z.string().uuid()`: 32 hexadecimal digits, either case, grouped
      8-4-4-4-12 by hyphens. */
  predicate IsUuid(s: string)
  {
    |s| == 36 &&
    forall i :: 0 <= i < |s| ==> if IsHyphenPosition(i) then s[i] == '-' else IsHexDigit(s[i])
  }

  /** Every character of `g` is a hexadecimal digit. */
  predicate AllHex(g: string)
  {
    forall i :: 0 <= i < |g| ==> IsHexDigit(g[i])
  }

  /** Five hexadecimal groups of 8, 4, 4, 4 and 12 digits. */
  predicate IsHexGroups(g1: string, g2: string, g3: string, g4: string, g5: string)
  {
    && |g1| == 8 && |g2| == 4 && |g3| == 4 && |g4| == 4 && |g5| == 12
    && AllHex(g1) && AllHex(g2) && AllHex(g3) && AllHex(g4) && AllHex(g5)
  }

  function Hyphenate(g1: string, g2: string, g3: string, g4: string, g5: string): string
  {
    g1 + "-" + g2 + "-" + g3 + "-" + g4 + "-" + g5
  }

  /** Joining five hexadecimal groups of the UUID widths with hyphens gives
      a UUID. */
  lemma UuidFromGroups(g1: string, g2: string, g3: string, g4: string, g5: string)
    requires IsHexGroups(g1, g2, g3, g4, g5)
    ensures IsUuid(Hyphenate(g1, g2, g3, g4, g5))
  {
  }

  /** Every UUID is such a join: its five groups are hexadecimal, of
      widths 8, 4, 4, 4 and 12. */
  lemma UuidToGroups(s: string)
    requires IsUuid(s)
    ensures |s| == 36
    ensures IsHexGroups(s[..8], s[9..13], s[14..18], s[19..23], s[24..])
    ensures s == Hyphenate(s[..8], s[9..13], s[14..18], s[19..23], s[24..])
  {
  }

  /** `paramsSchema.parse(request.params)`: the route's `mealId` is passed
      through when it is a UUID and rejected otherwise. */
  function ParseMealId(mealId: string): (r: Option<string>)
    ensures r.Some? <==> IsUuid(mealId)
    ensures r.Some? ==> r.value == mealId
  {
    if IsUuid(mealId) then Some(mealId) else None
  }
}
