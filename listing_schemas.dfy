/**
 * The request-body schemas of the listing routes: create, update with its
 * "at least one field" refinement, and the update object without it (the one
 * the PUT route validates with).
 */
module ListingSchemas {
  import opened Wrappers
  import opened Json
  import opened Zod

  /** What the create schema parses a body into (unknown keys are stripped) */
  datatype ListingInput = ListingInput(title: string, description: string, price: real, area: Option<real>)

  /** What the update schema parses a body into */
  datatype ListingPatch = ListingPatch(title: Option<string>, description: Option<string>, price: Option<real>, area: Option<real>)

  const RefineMessage := "At least one field must be provided for update"

  /** The keys the two schemas know, in declaration order */
  const ShapeKeys := ["title", "description", "price", "area"]

  // ----- the conditions each schema stands for, stated field by field -----

  predicate AbsentOrString(v: Option<Json>) {
    v.None? || IsString(v)
  }

  predicate Positive(v: Option<Json>) {
    IsNumber(v) && v.value.n > 0.0
  }

  predicate AbsentOrPositive(v: Option<Json>) {
    v.None? || Positive(v)
  }

  /** title and description are strings, price a positive number, area absent or positive */
  predicate CreateListingValid(body: Json) {
    && body.JObject?
    && IsString(Get(body.fields, "title"))
    && IsString(Get(body.fields, "description"))
    && Positive(Get(body.fields, "price"))
    && AbsentOrPositive(Get(body.fields, "area"))
  }

  /** Every field optional, but a present one has the right type and a present price or area is positive */
  predicate UpdateFieldsValid(body: Json) {
    && body.JObject?
    && AbsentOrString(Get(body.fields, "title"))
    && AbsentOrString(Get(body.fields, "description"))
    && AbsentOrPositive(Get(body.fields, "price"))
    && AbsentOrPositive(Get(body.fields, "area"))
  }

  /** The body names at least one of the schema's keys */
  predicate HasShapeKey(body: Json)
    requires body.JObject?
  {
    exists k :: k in ShapeKeys && k in body.fields
  }

  // ----- the schemas -----

  /** createListingSchema.parse */
  function ParseCreateListing(body: Json): (r: Parsed<ListingInput>)
    ensures r.Parsed? <==> CreateListingValid(body)
    ensures r.Parsed? ==>
      && r.value.title == body.fields["title"].s
      && r.value.description == body.fields["description"].s
      && r.value.price == body.fields["price"].n
      && r.value.area == (if "area" in body.fields then Some(body.fields["area"].n) else None)
    ensures r.Failed? ==> |r.issues| > 0
  {
    if !body.JObject? then Failed(NotAnObject(body))
    else
      var f := body.fields;
      var title := StringField("title", Get(f, "title"), false, "Title is required");
      var description := StringField("description", Get(f, "description"), false, "Description is required");
      var price := NumberField("price", Get(f, "price"), false, "Price is required", [GreaterThan(0)]);
      var area := NumberField("area", Get(f, "area"), true, Required, [GreaterThan(0)]);
      var issues := title.issues + description.issues + price.issues + area.issues;
      if issues == [] then
        Parsed(ListingInput(title.value.value, description.value.value, price.value.value, area.value))
      else
        Failed(issues)
  }

  /** The four fields of the update object, parsed in declaration order */
  function UpdateFields(f: map<string, Json>): (r: (seq<Issue>, bool, ListingPatch))
    ensures r.0 == [] <==> UpdateFieldsValid(JObject(f))
    ensures r.1 ==> r.0 != []
  {
    var title := StringField("title", Get(f, "title"), true, Required);
    var description := StringField("description", Get(f, "description"), true, Required);
    var price := NumberField("price", Get(f, "price"), true, Required, [GreaterThan(0)]);
    var area := NumberField("area", Get(f, "area"), true, Required, [GreaterThan(0)]);
    (title.issues + description.issues + price.issues + area.issues,
     title.aborted || description.aborted || price.aborted || area.aborted,
     ListingPatch(title.value, description.value, price.value, area.value))
  }

  /** updateListingSchema.innerType().parse: the object without the refinement */
  function ParseUpdateFields(body: Json): (r: Parsed<ListingPatch>)
    ensures r.Parsed? <==> UpdateFieldsValid(body)
    ensures r.Parsed? ==>
      && r.value.title == (if "title" in body.fields then Some(body.fields["title"].s) else None)
      && r.value.description == (if "description" in body.fields then Some(body.fields["description"].s) else None)
      && r.value.price == (if "price" in body.fields then Some(body.fields["price"].n) else None)
      && r.value.area == (if "area" in body.fields then Some(body.fields["area"].n) else None)
    ensures r.Failed? ==> |r.issues| > 0
  {
    if !body.JObject? then Failed(NotAnObject(body))
    else
      var (issues, _, patch) := UpdateFields(body.fields);
      if issues == [] then Parsed(patch) else Failed(issues)
  }

  /**
   * updateListingSchema.parse. The refinement runs only when no field had the
   * wrong type, and fails when the parsed object has no key, i.e. when the body
   * names none of the four fields.
   */
  function ParseUpdateListing(body: Json): (r: Parsed<ListingPatch>)
    ensures r.Parsed? <==> UpdateFieldsValid(body) && HasShapeKey(body)
    ensures r.Parsed? ==> ParseUpdateFields(body) == r
    ensures r.Failed? ==> |r.issues| > 0
  {
    if !body.JObject? then Failed(NotAnObject(body))
    else
      var (issues, aborted, patch) := UpdateFields(body.fields);
      if aborted then Failed(issues)
      else
        var refined := if HasShapeKey(body) then [] else [Issue([], RefineMessage)];
        if issues + refined == [] then Parsed(patch) else Failed(issues + refined)
  }

  // ----- properties of the schemas -----

  /** A create body without a title is refused, and the error names the title */
  lemma CreateNeedsTitle(f: map<string, Json>)
    requires "title" !in f
    ensures ParseCreateListing(JObject(f)).Failed?
    ensures Issue(["title"], "Title is required") in ParseCreateListing(JObject(f)).issues
  {
  }

  /** A create body whose price is not positive is refused with the bound's message */
  lemma CreateNeedsPositivePrice(f: map<string, Json>, price: real)
    requires "price" in f && f["price"] == JNumber(price) && price <= 0.0
    ensures ParseCreateListing(JObject(f)).Failed?
    ensures Issue(["price"], "Number must be greater than 0") in ParseCreateListing(JObject(f)).issues
  {
    var checks := [GreaterThan(0)];
    assert !Passes(checks[0], price);
    assert CheckMessage(checks[0]) == "Number must be greater than 0";
  }

  /** The refined update refuses the empty body, with the refinement's message on the empty path */
  lemma RefinedUpdateRejectsEmpty()
    ensures ParseUpdateListing(JObject(map[])) == Failed([Issue([], RefineMessage)])
  {
    assert !HasShapeKey(JObject(map[]));
  }

  /** The update object without the refinement, which the PUT route uses, lets the empty body through */
  lemma UpdateFieldsAcceptEmpty()
    ensures ParseUpdateFields(JObject(map[])) == Parsed(ListingPatch(None, None, None, None))
  {
  }

  /**
   * The two update validators differ on exactly one kind of body: an object
   * that names none of the four fields.
   */
  lemma UpdateValidatorsDiffer(body: Json)
    ensures ParseUpdateFields(body).Parsed? && !ParseUpdateListing(body).Parsed?
        <==> body.JObject? && UpdateFieldsValid(body) && !HasShapeKey(body)
  {
  }

  /** Fields the update schema does not know never make a body invalid, nor count as a field */
  lemma UnknownKeysIgnored(f: map<string, Json>, key: string, v: Json)
    requires key !in ShapeKeys
    ensures ParseUpdateFields(JObject(f[key := v])) == ParseUpdateFields(JObject(f))
    ensures ParseUpdateListing(JObject(f[key := v])).Parsed? == ParseUpdateListing(JObject(f)).Parsed?
  {
    var g := f[key := v];
    assert forall k :: k in ShapeKeys ==> Get(g, k) == Get(f, k);
    assert HasShapeKey(JObject(g)) <==> HasShapeKey(JObject(f));
  }
}
